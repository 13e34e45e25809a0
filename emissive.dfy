/**
 * The per-frame emissive binding cache of hvk_gui.cpp. A widget drawing an
 * image with emissive options gets a binding (base texture, emissive
 * texture, strength, additive flag, and the magic "HVKE") appended to a
 * static list that is cleared on the first call of each new frame; its
 * address goes into the draw command in place of the texture id and the
 * renderer decodes it when the frame's draw data is rendered.
 *
 * A reference to a binding is its index together with the storage block it
 * lives in; the reference is live while the list still uses that block and
 * holds that index. The storage rule of ImVector (Dear ImGui's imgui.h):
 * push_back onto a full vector reserves a new block of capacity 8, or 1.5
 * times the old capacity, and frees the old one; clear frees the block.
 */
module Emissive {

  datatype Option<T> = None | Some(value: T)

  /** HvkEmissiveBinding::kMagic, "HVKE". */
  const Magic: int := 0x48564B45

  /** EmissiveImageOptions; textures are handles, 0 for null. */
  datatype EmissiveImageOptions = EmissiveImageOptions(emissiveTexture: nat, emissiveStrength: real, additiveBlend: bool)

  /** HvkEmissiveBinding. */
  datatype Binding = Binding(magic: int, baseTexture: nat, emissiveTexture: nat, emissiveStrength: real, additive: bool)

  /** The address of a binding: the block holding it and its index there. */
  datatype BindingRef = BindingRef(block: nat, index: nat)

  /** What a draw command receives: the texture id itself or a binding's address. */
  datatype TextureRef = Plain(id: nat) | Bound(binding: BindingRef)

  /** The early return of AllocateEmissiveBinding: a null opts, a null emissive texture or a strength not above 0. */
  predicate Enabled(opts: Option<EmissiveImageOptions>)
  {
    opts.Some? && opts.value.emissiveTexture != 0 && opts.value.emissiveStrength > 0.0
  }

  /** `ctx ? ctx->FrameCount : 0`. */
  function FrameOf(ctxFrame: Option<int>): int
  {
    if ctxFrame.Some? then ctxFrame.value else 0
  }

  /** The binding built from base and the options, magic included. */
  function MakeBinding(base: nat, o: EmissiveImageOptions): Binding
  {
    Binding(Magic, base, o.emissiveTexture, o.emissiveStrength, o.additiveBlend)
  }

  // ---------------------------------------------------------------------
  // The cache as written: an ImVector that reallocates when full
  // ---------------------------------------------------------------------

  /** g_EmissiveBindings (its elements, capacity and block) and g_LastFrame. */
  datatype VectorCache = VectorCache(data: seq<Binding>, capacity: nat, block: nat, lastFrame: int)

  /** ImVector::_grow_capacity. */
  function GrowCapacity(capacity: nat, size: nat): (n: nat)
    ensures n >= size
    ensures capacity == 0 && size <= 8 ==> n == 8
  {
    var grown := if capacity > 0 then capacity + capacity / 2 else 8;
    if grown > size then grown else size
  }

  /** push_back: a full vector moves to a new, larger block first. */
  function VectorPush(c: VectorCache, b: Binding): VectorCache
  {
    if |c.data| == c.capacity
    then VectorCache(c.data + [b], GrowCapacity(c.capacity, |c.data| + 1), c.block + 1, c.lastFrame)
    else VectorCache(c.data + [b], c.capacity, c.block, c.lastFrame)
  }

  predicate LiveInVector(c: VectorCache, r: BindingRef)
  {
    r.block == c.block && r.index < |c.data|
  }

  /** AllocateEmissiveBinding as written: the new cache and the address returned. */
  function AllocateAsWritten(c: VectorCache, base: nat, opts: Option<EmissiveImageOptions>, ctxFrame: Option<int>): (VectorCache, Option<BindingRef>)
  {
    if !Enabled(opts) then (c, None)
    else
      var frame := FrameOf(ctxFrame);
      // clear() frees the block, and the next push_back reserves a new one
      var c1 := if frame != c.lastFrame then VectorCache([], 0, c.block + 1, frame) else c;
      var c2 := VectorPush(c1, MakeBinding(base, opts.value));
      (c2, Some(BindingRef(c2.block, |c2.data| - 1)))
  }

  /** A push onto a full vector leaves every earlier address dangling. */
  lemma FullPushInvalidates(c: VectorCache, b: Binding, r: BindingRef)
    requires |c.data| == c.capacity && LiveInVector(c, r)
    ensures !LiveInVector(VectorPush(c, b), r)
  {
  }

  /** One more enabled call in the same frame. */
  function AllocateOnce(c: VectorCache, base: nat, o: EmissiveImageOptions, frame: int): VectorCache
  {
    AllocateAsWritten(c, base, Some(o), Some(frame)).0
  }

  /** n more enabled calls in the same frame. */
  function AllocateTimes(c: VectorCache, base: nat, o: EmissiveImageOptions, frame: int, n: nat): VectorCache
  {
    if n == 0 then c else AllocateOnce(AllocateTimes(c, base, o, frame, n - 1), base, o, frame)
  }

  /** Up to eight bindings fit the first block of a frame. */
  lemma {:induction false} AllocateTimesInBlock(c: VectorCache, base: nat, o: EmissiveImageOptions, frame: int, n: nat)
    requires Enabled(Some(o)) && |c.data| == 1 && c.capacity == 8 && c.lastFrame == frame && n <= 7
    ensures var cn := AllocateTimes(c, base, o, frame, n);
      |cn.data| == n + 1 && cn.capacity == 8 && cn.block == c.block && cn.lastFrame == frame
  {
    if n > 0 {
      AllocateTimesInBlock(c, base, o, frame, n - 1);
    }
  }

  /**
   * The ninth emissive image of a frame leaves the first image's draw
   * command holding the address of a freed block, before the frame is
   * rendered; after eight it was still live.
   */
  lemma NinthBindingDanglesFirst(c0: VectorCache, base: nat, o: EmissiveImageOptions, frame: int)
    requires c0.lastFrame != frame && Enabled(Some(o))
    ensures var r1 := AllocateAsWritten(c0, base, Some(o), Some(frame));
      r1.1.Some?
      && LiveInVector(AllocateTimes(r1.0, base, o, frame, 7), r1.1.value)
      && !LiveInVector(AllocateTimes(r1.0, base, o, frame, 8), r1.1.value)
  {
    var r1 := AllocateAsWritten(c0, base, Some(o), Some(frame));
    var c := r1.0;
    assert |c.data| == 1 && c.capacity == 8 && c.lastFrame == frame && r1.1.value == BindingRef(c.block, 0);
    AllocateTimesInBlock(c, base, o, frame, 7);
    FullPushInvalidates(AllocateTimes(c, base, o, frame, 7), MakeBinding(base, o), r1.1.value);
  }

  // ---------------------------------------------------------------------
  // The cache with stable storage (a std::deque keeps its elements in place)
  // ---------------------------------------------------------------------

  /** The corrected cache: its bindings, the block holding them and g_LastFrame. */
  datatype StableCache = StableCache(data: seq<Binding>, block: nat, lastFrame: int)

  /**
   * AllocateEmissiveBinding over storage that keeps its elements in place:
   * the same clearing and appending, but a push never moves the list.
   */
  function AllocateStable(c: StableCache, base: nat, opts: Option<EmissiveImageOptions>, ctxFrame: Option<int>): (StableCache, Option<BindingRef>)
  {
    if !Enabled(opts) then (c, None)
    else
      var frame := FrameOf(ctxFrame);
      var c1 := if frame != c.lastFrame then StableCache([], c.block + 1, frame) else c;
      var c2 := StableCache(c1.data + [MakeBinding(base, opts.value)], c1.block, c1.lastFrame);
      (c2, Some(BindingRef(c2.block, |c2.data| - 1)))
  }

  /**
   * Disabled options change nothing and return no binding; enabled ones
   * return the address of a new binding of the base texture and the
   * options, in a list that holds only the current frame's bindings.
   */
  lemma AllocateStableResult(c: StableCache, base: nat, opts: Option<EmissiveImageOptions>, ctxFrame: Option<int>)
    ensures var (c2, r) := AllocateStable(c, base, opts, ctxFrame);
      (!Enabled(opts) <==> r.None?)
      && (r.None? ==> c2 == c)
      && (r.Some? ==> (c2.lastFrame == FrameOf(ctxFrame) && r.value.block == c2.block && r.value.index < |c2.data|
          && c2.data[r.value.index] == Binding(Magic, base, opts.value.emissiveTexture, opts.value.emissiveStrength, opts.value.additiveBlend)
          && (FrameOf(ctxFrame) != c.lastFrame ==> |c2.data| == 1)
          && (FrameOf(ctxFrame) == c.lastFrame ==> |c2.data| == |c.data| + 1)))
  {
  }

  /** The intended property: within a frame, every address handed out earlier stays live and keeps its binding. */
  lemma AllocateStableKeepsRefs(c: StableCache, base: nat, opts: Option<EmissiveImageOptions>, ctxFrame: Option<int>, r: BindingRef)
    requires FrameOf(ctxFrame) == c.lastFrame && r.block == c.block && r.index < |c.data|
    ensures var c2 := AllocateStable(c, base, opts, ctxFrame).0;
      r.block == c2.block && r.index < |c2.data| && c2.data[r.index] == c.data[r.index]
  {
  }

  /**
   * The cache of the class below: the bindings of the current frame appended
   * to storage that never moves them, and a new block only when the list is
   * cleared for a new frame.
   */
  class EmissiveBindings {
    var bindings: seq<Binding>
    var block: nat
    var lastFrame: int
    /** The frame each binding was made in. */
    ghost var frames: seq<int>

    constructor()
      ensures bindings == [] && block == 0 && lastFrame == -1 && frames == []
      ensures CurrentFrameOnly()
    {
      bindings := [];
      block := 0;
      lastFrame := -1;
      frames := [];
    }

    /** The list holds only bindings made in the last frame seen. */
    ghost predicate CurrentFrameOnly()
      reads this
    {
      |frames| == |bindings| && forall i :: 0 <= i < |frames| ==> frames[i] == lastFrame
    }

    function Cache(): StableCache
      reads this
    {
      StableCache(bindings, block, lastFrame)
    }

    predicate Live(r: BindingRef)
      reads this
    {
      r.block == block && r.index < |bindings|
    }

    /**
     * AllocateEmissiveBinding: no binding, and no change, for disabled
     * options; otherwise the list is first cleared on a new frame, then one
     * binding is appended and its address returned.
     */
    method Allocate(base: nat, opts: Option<EmissiveImageOptions>, ctxFrame: Option<int>) returns (r: Option<BindingRef>)
      requires CurrentFrameOnly()
      modifies this
      ensures CurrentFrameOnly()
      ensures (Cache(), r) == AllocateStable(old(Cache()), base, opts, ctxFrame)
    {
      if !Enabled(opts) {
        return None;
      }
      var frame := FrameOf(ctxFrame);
      if frame != lastFrame {
        bindings := [];
        frames := [];
        block := block + 1;
        lastFrame := frame;
      }
      bindings := bindings + [MakeBinding(base, opts.value)];
      frames := frames + [frame];
      r := Some(BindingRef(block, |bindings| - 1));
    }

    /**
     * The substitution in ImageRounded and ImageWithCustomBorder: the draw
     * command gets the binding's address exactly when a binding is
     * returned, and the texture id otherwise.
     */
    method ResolveTexture(textureId: nat, opts: Option<EmissiveImageOptions>, ctxFrame: Option<int>) returns (t: TextureRef)
      requires CurrentFrameOnly()
      modifies this
      ensures CurrentFrameOnly()
      ensures t.Bound? <==> Enabled(opts)
      ensures t.Plain? ==> t.id == textureId
      ensures t.Bound? ==> Live(t.binding) && bindings[t.binding.index] == MakeBinding(textureId, opts.value)
    {
      var binding := Allocate(textureId, opts, ctxFrame);
      AllocateStableResult(old(Cache()), textureId, opts, ctxFrame);
      if binding.Some? {
        t := Bound(binding.value);
      } else {
        t := Plain(textureId);
      }
    }
  }
}
