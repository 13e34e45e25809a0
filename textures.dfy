/**
 * TextureLoader in texhelper.cpp: the texture record the loaders fill in,
 * its release, the emissive companion path, the DX11 and DX12 loaders
 * (with the image decoder and the Direct3D calls as oracles) and the
 * frame-cycling counter of the loading animation.
 *
 * Object pointers and descriptor handles are `nat`, with 0 for null.
 */
module Textures {
  import opened DescriptorHeap
  import opened Backend

  /** HVKTexture, with the fields texhelper.cpp uses. */
  datatype Texture = Texture(
    id: nat, emissiveId: nat, width: int, height: int,
    baseSrv: nat, emissiveSrv: nat,
    baseCpu: nat, baseGpu: nat, emissiveCpu: nat, emissiveGpu: nat,
    baseResource: nat, emissiveResource: nat, baseUpload: nat, emissiveUpload: nat)

  /** `tex = {}`. */
  const EmptyTexture := Texture(0, 0, 0, 0, 0, 0, 0, 0, 0, 0, 0, 0, 0, 0)

  /** The non-null entries of a list of object pointers, in order. */
  function NonNull(ps: seq<nat>): (r: seq<nat>)
    ensures forall i :: 0 <= i < |r| ==> r[i] != 0
    ensures forall p :: p in r <==> p in ps && p != 0
  {
    if ps == [] then []
    else (if ps[0] != 0 then [ps[0]] else []) + NonNull(ps[1..])
  }

  // ---------------------------------------------------------------- release

  /** Handles of a heap with this layout are never null: its start handles are non-zero. */
  predicate NonNullGeometry(g: Geometry)
  {
    g.increment > 0 && g.startCpu > 0 && g.startGpu > 0
  }

  /** A handle pair the allocator's Free accepts: both lie in the heap and name the same slot. */
  predicate InHeap(g: Geometry, cpu: nat, gpu: nat)
  {
    g.increment > 0 && g.startCpu <= cpu && g.startGpu <= gpu
    && SlotOf(g.startCpu, g.increment, cpu) == SlotOf(g.startGpu, g.increment, gpu)
  }

  /**
   * A descriptor pair FreeTexture may hand to the allocator: either both
   * handles are null (it is skipped) or Free accepts it.
   */
  predicate PairFreeable(g: Geometry, cpu: nat, gpu: nat)
  {
    (cpu == 0 && gpu == 0) || InHeap(g, cpu, gpu)
  }

  predicate TextureFreeable(g: Geometry, tex: Texture)
  {
    PairFreeable(g, tex.baseCpu, tex.baseGpu) && PairFreeable(g, tex.emissiveCpu, tex.emissiveGpu)
  }

  /** The slot `freeHandle` returns for one pair: none when both handles are null. */
  function PairSlot(g: Geometry, cpu: nat, gpu: nat): (r: seq<nat>)
    requires PairFreeable(g, cpu, gpu)
    ensures |r| <= 1
  {
    if cpu != 0 || gpu != 0 then [SlotOf(g.startCpu, g.increment, cpu)] else []
  }

  /** The slot indices of a texture's two descriptor pairs, base first. */
  function FreedSlots(g: Geometry, tex: Texture): (r: seq<nat>)
    requires TextureFreeable(g, tex)
    ensures |r| <= 2
  {
    PairSlot(g, tex.baseCpu, tex.baseGpu) + PairSlot(g, tex.emissiveCpu, tex.emissiveGpu)
  }

  /** The slots FreeTexture returns to the allocator: none when both ids are null or on DX11. */
  function ReleaseSlots(g: Geometry, tex: Texture, backend: RenderBackend): (r: seq<nat>)
    requires backend == DX12 ==> TextureFreeable(g, tex)
    ensures |r| <= 2
    ensures (tex.id == 0 && tex.emissiveId == 0) || backend == DX11 ==> r == []
  {
    if (tex.id == 0 && tex.emissiveId == 0) || backend == DX11 then [] else FreedSlots(g, tex)
  }

  /** Nothing of the allocator but its free list changes. */
  twostate predicate OnlyFreeListChanged(heap: DescriptorHeapAllocator)
    reads heap
  {
    heap.Geom() == old(heap.Geom()) && heap.heapPresent == old(heap.heapPresent)
    && heap.capacity == old(heap.capacity)
  }

  /** `freeHandle`: frees one descriptor pair unless both of its handles are null. */
  method FreePair(cpu: nat, gpu: nat, heap: DescriptorHeapAllocator)
    requires PairFreeable(heap.Geom(), cpu, gpu)
    modifies heap
    ensures heap.freeIndices == old(heap.freeIndices) + PairSlot(old(heap.Geom()), cpu, gpu)
    ensures OnlyFreeListChanged(heap)
  {
    if cpu != 0 || gpu != 0 {
      heap.Free(cpu, gpu);
    }
  }

  /** The DX12 half of FreeTexture: `freeHandle` on the base pair, then on the emissive pair. */
  method FreeDescriptorPairs(tex: Texture, heap: DescriptorHeapAllocator)
    requires TextureFreeable(heap.Geom(), tex)
    modifies heap
    ensures heap.freeIndices == old(heap.freeIndices) + FreedSlots(old(heap.Geom()), tex)
    ensures OnlyFreeListChanged(heap)
  {
    ghost var free0 := heap.freeIndices;
    FreePair(tex.baseCpu, tex.baseGpu, heap);
    FreePair(tex.emissiveCpu, tex.emissiveGpu, heap);
    assert free0 + PairSlot(heap.Geom(), tex.baseCpu, tex.baseGpu) + PairSlot(heap.Geom(), tex.emissiveCpu, tex.emissiveGpu)
        == free0 + FreedSlots(heap.Geom(), tex);
  }

  /**
   * The objects FreeTexture releases, in order: none when both ids are
   * null, the two views on DX11, the four resources on DX12.
   */
  function ReleasedObjects(tex: Texture, backend: RenderBackend): (r: seq<nat>)
    ensures forall p :: p in r ==> p != 0
    ensures tex.id == 0 && tex.emissiveId == 0 ==> r == []
    ensures backend == DX11 && (tex.id != 0 || tex.emissiveId != 0) ==>
      forall p :: p in r <==> p != 0 && (p == tex.baseSrv || p == tex.emissiveSrv)
  {
    if tex.id == 0 && tex.emissiveId == 0 then []
    else if backend == DX11 then NonNull([tex.baseSrv, tex.emissiveSrv])
    else NonNull([tex.baseResource, tex.emissiveResource, tex.baseUpload, tex.emissiveUpload])
  }

  /**
   * FreeTexture: nothing happens when both ids are null. Otherwise DX11
   * releases the two views; DX12 frees the base and then the emissive
   * descriptor pair, each only when one of its handles is non-zero, and
   * releases the four resources. The texture is then reset. The result is
   * the new value of `tex` and the objects released, in order.
   */
  method FreeTexture(tex: Texture, backend: RenderBackend, heap: DescriptorHeapAllocator)
      returns (t: Texture, released: seq<nat>)
    requires backend == DX12 ==> TextureFreeable(heap.Geom(), tex)
    modifies heap
    ensures heap.freeIndices == old(heap.freeIndices) + ReleaseSlots(old(heap.Geom()), tex, backend)
    ensures OnlyFreeListChanged(heap)
    ensures t == if tex.id == 0 && tex.emissiveId == 0 then tex else EmptyTexture
    ensures released == ReleasedObjects(tex, backend)
  {
    if tex.id == 0 && tex.emissiveId == 0 {
      return tex, [];
    }
    if backend == DX11 {
      released := NonNull([tex.baseSrv, tex.emissiveSrv]);
    } else {
      FreeDescriptorPairs(tex, heap);
      released := NonNull([tex.baseResource, tex.emissiveResource, tex.baseUpload, tex.emissiveUpload]);
    }
    t := EmptyTexture;
  }

  // ------------------------------------------------------------ emissive path

  const EmissiveSuffix: string := "_emissive"

  /** find_last_of: the index of the last `c` in `s`, or -1 when there is none. */
  function LastIndexOf(s: string, c: char): (r: int)
    ensures -1 <= r < |s|
    ensures r >= 0 ==> s[r] == c
    ensures forall k :: r < k < |s| ==> s[k] != c
  {
    if |s| == 0 then -1
    else if s[|s| - 1] == c then |s| - 1
    else LastIndexOf(s[..|s| - 1], c)
  }

  /** `r` is `base` with "_emissive" inserted at position `d`. */
  ghost predicate InsertedAt(base: string, r: string, d: nat)
  {
    d <= |base| && |r| == |base| + |EmissiveSuffix|
    && r[..d] == base[..d] && r[d..d + |EmissiveSuffix|] == EmissiveSuffix
    && r[d + |EmissiveSuffix|..] == base[d..]
  }

  /**
   * BuildEmissivePath: "_emissive" goes immediately before the last '.' of
   * the whole path (which may lie in a directory name), or at the end when
   * the path has no '.' (EmissivePathInserted).
   */
  function BuildEmissivePath(base: string): string
  {
    var dot := LastIndexOf(base, '.');
    if dot < 0 then base + EmissiveSuffix
    else base[..dot] + EmissiveSuffix + base[dot..]
  }

  /** `d` is where the suffix belongs: the last '.' of the path, or its end when it has none. */
  predicate IsLastDot(base: string, d: nat)
  {
    ('.' in base ==> d < |base| && base[d] == '.' && '.' !in base[d + 1..])
    && ('.' !in base ==> d == |base|)
  }

  /** Where BuildEmissivePath puts the suffix: before the last '.', else at the end. */
  lemma EmissivePathInserted(base: string, d: nat)
    requires IsLastDot(base, d)
    ensures InsertedAt(base, BuildEmissivePath(base), d)
  {
    var r := BuildEmissivePath(base);
    var dot := LastIndexOf(base, '.');
    if dot < 0 {
      assert '.' !in base by {
        forall k | 0 <= k < |base| ensures base[k] != '.' {
        }
      }
      assert r[..|base|] == base;
    } else {
      assert base[dot] == '.';
      assert r[..dot] == base[..dot];
      assert r[dot..dot + |EmissiveSuffix|] == EmissiveSuffix;
      assert r[dot + |EmissiveSuffix|..] == base[dot..];
      forall e | 0 <= e < |base| && base[e] == '.' && '.' !in base[e + 1..]
        ensures e == dot
      {
      }
    }
  }

  /** Removing the nine inserted characters recovers the original path. */
  lemma EmissivePathRemovable(base: string, d: nat)
    requires IsLastDot(base, d)
    ensures var r := BuildEmissivePath(base);
      |r| == |base| + 9 && r[..d] + r[d + 9..] == base
  {
    EmissivePathInserted(base, d);
    var r := BuildEmissivePath(base);
    assert base == base[..d] + base[d..];
  }

  // ------------------------------------------------------------- DX11 loader

  /** What CreateSrvFromFile yields for one path: failure, or a view and the image size. */
  datatype SrvOutcome = SrvFailed | SrvCreated(srv: nat, width: int, height: int)

  /**
   * LoadTextureDX11FromFile: resets the texture, loads the base image (the
   * size is written only when the view was created) and fails exactly when
   * no base view exists; then tries the emissive companion and sets
   * emissiveId exactly when its view exists. `load` stands for
   * CreateSrvFromFile on a path.
   */
  function LoadTextureDX11FromFile(path: string, load: string -> SrvOutcome): (bool, Texture)
  {
    var base := load(path);
    var t0 := if base.SrvCreated? then EmptyTexture.(baseSrv := base.srv, width := base.width, height := base.height)
              else EmptyTexture;
    if t0.baseSrv == 0 then (false, t0)
    else
      var t1 := t0.(id := t0.baseSrv);
      var e := load(BuildEmissivePath(path));
      var t2 := t1.(emissiveSrv := if e.SrvCreated? then e.srv else 0);
      (true, if t2.emissiveSrv != 0 then t2.(emissiveId := t2.emissiveSrv) else t2)
  }

  /** The texture LoadTextureDX11FromFile yields: the views created, the size, and no descriptor handles. */
  lemma LoadTextureDX11Shape(path: string, load: string -> SrvOutcome)
    ensures var (ok, t) := LoadTextureDX11FromFile(path, load);
      && (ok <==> load(path).SrvCreated? && load(path).srv != 0)
      && (!load(path).SrvCreated? ==> t == EmptyTexture)
      && (load(path).SrvCreated? ==> t.width == load(path).width && t.height == load(path).height)
      && (ok ==> t.id == t.baseSrv == load(path).srv)
      && (ok ==> var e := load(BuildEmissivePath(path));
            t.emissiveSrv == (if e.SrvCreated? then e.srv else 0)
            && (t.emissiveId != 0 <==> e.SrvCreated? && e.srv != 0))
      && (!ok ==> t.id == 0 && t.emissiveId == 0 && t.emissiveSrv == 0)
      && t.baseCpu == 0 && t.baseGpu == 0 && t.emissiveCpu == 0 && t.emissiveGpu == 0
  {
  }

  // ------------------------------------------------------------- DX12 loader

  /** Descriptor handles of slot `idx` form a pair Free accepts, naming that slot. */
  lemma HandlesInHeap(g: Geometry, idx: nat)
    requires NonNullGeometry(g)
    ensures var cpu := HandleAt(g.startCpu, g.increment, idx);
      var gpu := HandleAt(g.startGpu, g.increment, idx);
      && cpu != 0 && gpu != 0 && InHeap(g, cpu, gpu) && SlotOf(g.startCpu, g.increment, cpu) == idx
  {
    HandleIndex(g.startCpu, g.increment, idx);
    HandleIndex(g.startGpu, g.increment, idx);
  }

  /**
   * What the WIC decoder and the two CreateCommittedResource calls of
   * loadSingle yield for one path: either decoding failed (decoder, frame,
   * converter, Initialize or CopyPixels), or the image decoded to the given
   * size and each creation call reported success or failure and handed back
   * an object pointer, possibly null.
   */
  datatype LoadOutcome =
    | DecodeFailed
    | Decoded(width: int, height: int, textureOk: bool, texture: nat, uploadOk: bool, upload: nat)

  /** Whether loadSingle reaches alloc.Alloc: both creations succeeded with non-null objects. */
  predicate TakesSlot(o: LoadOutcome)
  {
    o.Decoded? && o.textureOk && o.texture != 0 && o.uploadOk && o.upload != 0
  }

  /** What loadSingle returns: whether a texture resource is left in place. */
  predicate SingleSucceeds(o: LoadOutcome)
  {
    o.Decoded? && o.textureOk && o.texture != 0 && o.uploadOk
  }

  /**
   * What loadSingle writes for one image: whether a texture resource is
   * left in place, the descriptor pair, the texture and upload objects and
   * the size, plus the objects its cleanup released and the free list it
   * leaves.
   */
  datatype SingleLoaded = SingleLoaded(ok: bool, cpu: nat, gpu: nat, texture: nat, upload: nat,
                                       width: int, height: int, released: seq<nat>, free: seq<nat>)

  /**
   * loadSingle for one image. It takes a descriptor slot, the last one on
   * the free list, only after decoding and both resource creations have
   * succeeded with non-null objects. A creation that reports failure makes
   * the cleanup release what was created.
   */
  function SingleLoad(g: Geometry, free: seq<nat>, o: LoadOutcome): (r: SingleLoaded)
    requires TakesSlot(o) ==> |free| > 0
    ensures r.ok == SingleSucceeds(o) && (r.ok <==> r.texture != 0)
    ensures r.free == if TakesSlot(o) then free[..|free| - 1] else free
  {
    if o.DecodeFailed? then SingleLoaded(false, 0, 0, 0, 0, 0, 0, [], free)
    else if !o.textureOk then SingleLoaded(false, 0, 0, 0, 0, 0, 0, NonNull([o.texture]), free)
    else if o.texture == 0 then SingleLoaded(false, 0, 0, 0, 0, 0, 0, [], free)
    else if !o.uploadOk then SingleLoaded(false, 0, 0, 0, 0, 0, 0, NonNull([o.upload, o.texture]), free)
    else if o.upload == 0 then SingleLoaded(true, 0, 0, o.texture, 0, 0, 0, [], free)
    else
      var idx := free[|free| - 1];
      SingleLoaded(true, HandleAt(g.startCpu, g.increment, idx), HandleAt(g.startGpu, g.increment, idx),
                   o.texture, o.upload, o.width, o.height, [], free[..|free| - 1])
  }

  /**
   * On a heap with non-null handles, loadSingle holds a descriptor pair
   * exactly when it took a slot, and the pair names the slot that left the
   * free list.
   */
  lemma SingleLoadSlots(g: Geometry, free: seq<nat>, o: LoadOutcome)
    requires NonNullGeometry(g) && (TakesSlot(o) ==> |free| > 0)
    ensures var r := SingleLoad(g, free, o);
      && PairFreeable(g, r.cpu, r.gpu) && (r.gpu != 0 <==> TakesSlot(o))
      && multiset(free) == multiset(r.free) + multiset(PairSlot(g, r.cpu, r.gpu))
  {
    if TakesSlot(o) {
      HandlesInHeap(g, free[|free| - 1]);
      assert free == free[..|free| - 1] + [free[|free| - 1]];
    }
  }

  /** loadSingle on the heap: the allocator's free list follows SingleLoad. */
  method LoadSingle(o: LoadOutcome, heap: DescriptorHeapAllocator)
      returns (ok: bool, cpu: nat, gpu: nat, texture: nat, upload: nat, w: int, h: int, released: seq<nat>)
    requires TakesSlot(o) ==> |heap.freeIndices| > 0
    modifies heap
    ensures SingleLoaded(ok, cpu, gpu, texture, upload, w, h, released, heap.freeIndices)
      == SingleLoad(old(heap.Geom()), old(heap.freeIndices), o)
    ensures OnlyFreeListChanged(heap)
  {
    cpu, gpu, texture, upload, w, h, released := 0, 0, 0, 0, 0, 0, [];
    if o.DecodeFailed? {
      return false, cpu, gpu, texture, upload, w, h, released;
    }
    texture := o.texture;
    if !o.textureOk {
      released := NonNull([texture]);
      texture := 0;
    } else if texture != 0 {
      if !o.uploadOk {
        released := NonNull([o.upload, texture]);
        texture := 0;
      } else if o.upload != 0 {
        cpu, gpu := heap.Alloc();
        w, h := o.width, o.height;
        upload := o.upload;
      }
    }
    ok := texture != 0;
  }

  /**
   * The emissive half of LoadTexture: loadSingle on the companion path; a
   * non-zero GPU handle sets emissiveId and fills a zero width or height
   * from the companion's positive size. The result is the texture, the
   * objects released and the free list after it.
   */
  function EmissiveAttach(g: Geometry, free: seq<nat>, t0: Texture, o: LoadOutcome): (r: (Texture, seq<nat>, seq<nat>))
    requires TakesSlot(o) ==> |free| > 0
    ensures r.0.id == t0.id && r.0.baseCpu == t0.baseCpu && r.0.baseGpu == t0.baseGpu
    ensures r.2 == SingleLoad(g, free, o).free
  {
    var e := SingleLoad(g, free, o);
    var t := t0.(emissiveCpu := e.cpu, emissiveGpu := e.gpu, emissiveResource := e.texture, emissiveUpload := e.upload);
    var t' := if t.emissiveGpu == 0 then t
      else t.(emissiveId := t.emissiveGpu,
              width := if t.width == 0 && e.width > 0 then e.width else t.width,
              height := if t.height == 0 && e.height > 0 then e.height else t.height);
    (t', e.released, e.free)
  }

  /** AttachEmissive on the heap: the texture and the free list follow EmissiveAttach. */
  method AttachEmissive(t0: Texture, o: LoadOutcome, heap: DescriptorHeapAllocator)
      returns (t: Texture, released: seq<nat>)
    requires TakesSlot(o) ==> |heap.freeIndices| > 0
    modifies heap
    ensures (t, released, heap.freeIndices) == EmissiveAttach(old(heap.Geom()), old(heap.freeIndices), t0, o)
    ensures OnlyFreeListChanged(heap)
  {
    var _, eCpu, eGpu, eTex, eUp, ew, eh, rel := LoadSingle(o, heap);
    released := rel;
    t := t0.(emissiveCpu := eCpu, emissiveGpu := eGpu, emissiveResource := eTex, emissiveUpload := eUp);
    if t.emissiveGpu != 0 {
      t := t.(emissiveId := t.emissiveGpu);
      if t.width == 0 && ew > 0 {
        t := t.(width := ew);
      }
      if t.height == 0 && eh > 0 {
        t := t.(height := eh);
      }
    }
  }

  /**
   * On a heap with non-null handles, EmissiveAttach on a texture with no
   * emissive pair yet moves the slot it takes (if any) from the free list
   * to the texture, and sets emissiveId to the emissive GPU handle.
   */
  lemma EmissiveAttachSlots(g: Geometry, free: seq<nat>, t0: Texture, o: LoadOutcome)
    requires NonNullGeometry(g) && (TakesSlot(o) ==> |free| > 0)
    requires PairFreeable(g, t0.baseCpu, t0.baseGpu) && t0.emissiveId == 0
    ensures var r := EmissiveAttach(g, free, t0, o);
      && TextureFreeable(g, r.0) && r.0.emissiveId == r.0.emissiveGpu
      && multiset(free) + multiset(PairSlot(g, t0.baseCpu, t0.baseGpu)) == multiset(r.2) + multiset(FreedSlots(g, r.0))
  {
    SingleLoadSlots(g, free, o);
  }

  /**
   * The free slots LoadTexture needs: one for the base image when it takes
   * a slot, and one more for the companion when the base succeeds and the
   * companion takes a slot. The source's Alloc asserts them.
   */
  predicate LoadReserved(free: seq<nat>, path: string, comOk: bool, factoryOk: bool, load: string -> LoadOutcome)
  {
    && (comOk && factoryOk && TakesSlot(load(path)) ==> |free| > 0)
    && (comOk && factoryOk && SingleSucceeds(load(path)) && TakesSlot(load(BuildEmissivePath(path)))
        ==> |free| > (if TakesSlot(load(path)) then 1 else 0))
  }

  /**
   * LoadTexture (DX12): resets the texture; fails when COM or the WIC
   * factory cannot be initialised, or when the base image fails. The id is
   * the base GPU handle; the emissive companion may fail without effect.
   * `load` gives the outcome of loadSingle per path. The result is whether
   * it succeeded, the texture, the objects released and the free list.
   */
  function TextureLoad(g: Geometry, free: seq<nat>, path: string, comOk: bool, factoryOk: bool,
                       load: string -> LoadOutcome): (r: (bool, Texture, seq<nat>, seq<nat>))
    requires LoadReserved(free, path, comOk, factoryOk, load)
    ensures r.0 <==> comOk && factoryOk && SingleSucceeds(load(path))
    ensures !r.0 ==> r.3 == free
    ensures |r.3| + 2 >= |free|
  {
    if !comOk || !factoryOk then (false, EmptyTexture, [], free)
    else
      var b := SingleLoad(g, free, load(path));
      var t := EmptyTexture.(baseCpu := b.cpu, baseGpu := b.gpu, baseResource := b.texture, baseUpload := b.upload,
                             width := b.width, height := b.height);
      if !b.ok then (false, t, b.released, b.free)
      else
        var e := EmissiveAttach(g, b.free, t.(id := t.baseGpu), load(BuildEmissivePath(path)));
        (true, e.0, b.released + e.1, e.2)
  }

  /**
   * On a heap with non-null handles, the loaded texture owns exactly the
   * slots that left the free list, its id is its base GPU handle and its
   * emissiveId its emissive GPU handle.
   */
  lemma TextureLoadSlots(g: Geometry, free: seq<nat>, path: string, comOk: bool, factoryOk: bool,
                         load: string -> LoadOutcome)
    requires NonNullGeometry(g) && LoadReserved(free, path, comOk, factoryOk, load)
    ensures var r := TextureLoad(g, free, path, comOk, factoryOk, load);
      && TextureFreeable(g, r.1)
      && multiset(free) == multiset(r.3) + multiset(FreedSlots(g, r.1))
      && (r.0 ==> r.1.id == r.1.baseGpu && r.1.emissiveId == r.1.emissiveGpu)
  {
    if comOk && factoryOk {
      var o := load(path);
      var b := SingleLoad(g, free, o);
      SingleLoadSlots(g, free, o);
      var t := EmptyTexture.(baseCpu := b.cpu, baseGpu := b.gpu, baseResource := b.texture, baseUpload := b.upload,
                             width := b.width, height := b.height);
      if b.ok {
        EmissiveAttachSlots(g, b.free, t.(id := t.baseGpu), load(BuildEmissivePath(path)));
      } else {
        assert FreedSlots(g, t) == PairSlot(g, b.cpu, b.gpu);
      }
    }
  }


  /** LoadTexture on the heap: the result and the free list follow TextureLoad. */
  method LoadTexture(path: string, comOk: bool, factoryOk: bool, load: string -> LoadOutcome,
                     heap: DescriptorHeapAllocator)
      returns (ok: bool, t: Texture, released: seq<nat>)
    requires LoadReserved(heap.freeIndices, path, comOk, factoryOk, load)
    modifies heap
    ensures (ok, t, released, heap.freeIndices)
      == TextureLoad(old(heap.Geom()), old(heap.freeIndices), path, comOk, factoryOk, load)
    ensures OnlyFreeListChanged(heap)
  {
    t, released := EmptyTexture, [];
    if !comOk || !factoryOk {
      return false, t, released;
    }
    var baseOk, bCpu, bGpu, bTex, bUp, bw, bh, rel1 := LoadSingle(load(path), heap);
    released := rel1;
    t := t.(baseCpu := bCpu, baseGpu := bGpu, baseResource := bTex, baseUpload := bUp, width := bw, height := bh);
    if !baseOk {
      ok := false;
      return;
    }
    t := t.(id := t.baseGpu);
    var rel2;
    t, rel2 := AttachEmissive(t, load(BuildEmissivePath(path)), heap);
    released := released + rel2;
    ok := true;
  }

  // ------------------------------------------------------------ frame cycling

  /** The new value of CycleFrames' persistent counter. */
  function NextCounter(current: int, start: int, end: int): (r: int)
    ensures start <= end ==> start <= r <= end
    ensures start <= current < end ==> r == current + 1
    ensures current == end || current < start || current > end ==> r == start
  {
    var c := if current < start || current > end then start else current + 1;
    if c > end then start else c
  }

  /** The counter after k calls. */
  function CounterAfter(current: int, start: int, end: int, k: nat): int
    decreases k
  {
    if k == 0 then current else NextCounter(CounterAfter(current, start, end, k - 1), start, end)
  }

  /** Incrementing a number moves its remainder one step round the cycle. */
  lemma ModSucc(a: nat, n: nat)
    requires n > 0
    ensures (a + 1) % n == if a % n + 1 < n then a % n + 1 else 0
  {
    var q, r := a / n, a % n;
    if r + 1 < n {
      DivUnique(a + 1, n, q, r + 1);
    } else {
      assert n * q + n == n * (q + 1);
      DivUnique(a + 1, n, q + 1, 0);
    }
  }

  /** From inside [start, end], the counter runs through the range cyclically. */
  lemma {:induction false} CounterCycles(current: int, start: int, end: int, k: nat)
    requires start <= current <= end
    decreases k
    ensures CounterAfter(current, start, end, k) == start + (current - start + k) % (end - start + 1)
  {
    var n := end - start + 1;
    if k == 0 {
      DivUnique(current - start, n, 0, current - start);
    } else {
      CounterCycles(current, start, end, k - 1);
      ModSucc(current - start + k - 1, n);
    }
  }

  /** CycleFrames' `static int currentFrame = -1`. */
  class FrameCycler {
    var currentFrame: int

    constructor ()
      ensures currentFrame == -1
    {
      currentFrame := -1;
    }

    /**
     * CycleFrames: null for an empty vector (the counter is untouched);
     * otherwise advances the counter and returns the id of that frame, or
     * null when the counter lies outside the vector.
     */
    method CycleFrames(frames: seq<Texture>, start: int, end: int) returns (id: nat)
      modifies this
      ensures |frames| == 0 ==> id == 0 && currentFrame == old(currentFrame)
      ensures |frames| > 0 ==> currentFrame == NextCounter(old(currentFrame), start, end)
      ensures |frames| > 0 ==> id == if 0 <= currentFrame < |frames| then frames[currentFrame].id else 0
    {
      if |frames| == 0 {
        return 0;
      }
      if currentFrame < start || currentFrame > end {
        currentFrame := start;
      } else {
        currentFrame := currentFrame + 1;
      }
      if currentFrame > end {
        currentFrame := start;
      }
      if currentFrame < 0 || currentFrame >= |frames| {
        return 0;
      }
      id := frames[currentFrame].id;
    }
  }
}
