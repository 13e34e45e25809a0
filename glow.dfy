/**
 * The glow (bloom) post-process of glow_pipeline.cpp, for both back ends.
 *
 * Each pipeline object owns nullable GPU handles (0 is null) that
 * Shutdown releases and nulls, Resize rebuilds and the Create functions
 * fill in under their guards; what the device hands back is a parameter.
 * Render is modelled by the commands it records: the model keeps the
 * commands that decide which target a pass draws into, with which shader,
 * reading which input, under which constants and blend state, and the
 * resource barriers. Interp reads a recorded sequence back as the passes
 * it draws and the state each DX12 target is left in.
 */
module Glow {

  import Textures

  /** The two D3D12 resource states the glow targets move between. */
  datatype ResourceState = PixelShaderResource | RenderTarget

  /** The three DX12 glow textures, named by the field that holds them. */
  datatype Target = EmissiveTarget | BlurATarget | BlurBTarget

  /** A transition barrier: the resource and its declared before and after states. */
  datatype Barrier = Barrier(resource: Target, before: ResourceState, after: ResourceState)

  /** The state each target is actually in. */
  datatype Tracked = Tracked(emissive: ResourceState, blurA: ResourceState, blurB: ResourceState)

  /** CreateCommittedResource creates all three targets PIXEL_SHADER_RESOURCE. */
  const AllShaderResource := Tracked(PixelShaderResource, PixelShaderResource, PixelShaderResource)

  function StateOf(t: Tracked, r: Target): ResourceState
  {
    match r
    case EmissiveTarget => t.emissive
    case BlurATarget => t.blurA
    case BlurBTarget => t.blurB
  }

  function WithState(t: Tracked, r: Target, s: ResourceState): (t': Tracked)
    ensures StateOf(t', r) == s
    ensures forall q :: q != r ==> StateOf(t', q) == StateOf(t, q)
  {
    match r
    case EmissiveTarget => t.(emissive := s)
    case BlurATarget => t.(blurA := s)
    case BlurBTarget => t.(blurB := s)
  }

  /** The states after a batch of barriers, applied in order. */
  function ApplyBatch(t: Tracked, batch: seq<Barrier>): Tracked
    decreases |batch|
  {
    if batch == [] then t
    else ApplyBatch(WithState(t, batch[0].resource, batch[0].after), batch[1..])
  }

  /** The barriers of a batch whose declared before-state is not the resource's state. */
  function BatchMismatches(t: Tracked, batch: seq<Barrier>): seq<Barrier>
    decreases |batch|
  {
    if batch == [] then []
    else
      (if batch[0].before != StateOf(t, batch[0].resource) then [batch[0]] else [])
      + BatchMismatches(WithState(t, batch[0].resource, batch[0].after), batch[1..])
  }

  /** A batch of two barriers, one after the other. */
  lemma PairBatch(t: Tracked, a: Barrier, b: Barrier)
    ensures ApplyBatch(t, [a, b]) == WithState(WithState(t, a.resource, a.after), b.resource, b.after)
    ensures BatchMismatches(t, [a, b])
         == (if a.before != StateOf(t, a.resource) then [a] else [])
          + (if b.before != StateOf(WithState(t, a.resource, a.after), b.resource) then [b] else [])
  {
    var t1 := WithState(t, a.resource, a.after);
    var t2 := WithState(t1, b.resource, b.after);
    assert [a, b][1..] == [b];
    assert [b][1..] == [];
    assert ApplyBatch(t1, [b]) == ApplyBatch(t2, []) == t2;
    assert BatchMismatches(t1, [b]) == (if b.before != StateOf(t1, b.resource) then [b] else []) + BatchMismatches(t2, []);
  }

  /** GlowConstants: Direction[2], Radius and Intensity, the four 32-bit root constants. */
  datatype GlowConstants = GlowConstants(dirX: real, dirY: real, radius: real, intensity: real)

  /** GlowSettings, with its defaults Radius = 4 and Intensity = 1. */
  datatype GlowSettings = GlowSettings(radius: real, intensity: real)

  /** The constants a pass uploads for a direction. */
  function Packed(dirX: real, dirY: real, s: GlowSettings): (c: GlowConstants)
    ensures c.dirX == dirX && c.dirY == dirY
    ensures c.radius == s.radius && c.intensity == s.intensity
  {
    GlowConstants(dirX, dirY, s.radius, s.intensity)
  }

  /**
   * The recorded commands. SetPipeline is the DX12 pipeline state object
   * or the DX11 pixel shader, SetSource the shader resource the pixel
   * shader reads (a DX12 descriptor table or a DX11 SRV), SetBlend the DX11
   * blend state (0 is the default, opaque state).
   */
  datatype Command =
    | ResourceBarrier(batch: seq<Barrier>)
    | SetRenderTarget(rtv: nat)
    | ClearTarget(rtv: nat)
    | SetDescriptorHeap(heap: nat)
    | SetPipeline(pipeline: nat)
    | SetConstants(constants: GlowConstants)
    | SetSource(srv: nat)
    | SetBlend(blend: nat)
    | DrawUi
    | DrawFullscreen

  /** What the next draw reads. */
  datatype Bound = Bound(target: nat, pipeline: nat, constants: GlowConstants, source: nat, blend: nat)

  const Unbound := Bound(0, 0, GlowConstants(0.0, 0.0, 0.0, 0.0), 0, 0)

  /**
   * A pass: the ImGui draw lists rendered into a target, or a fullscreen
   * triangle drawn into a target with a shader reading a source.
   */
  datatype Pass =
    | UiPass(target: nat)
    | FullscreenPass(target: nat, pipeline: nat, source: nat, constants: GlowConstants, blend: nat)

  /** A recorded sequence read back: the passes drawn, the bindings now, the target states and the wrong barriers. */
  datatype Reading = Reading(passes: seq<Pass>, bound: Bound, tracked: Tracked, mismatches: seq<Barrier>)

  const Start := Reading([], Unbound, AllShaderResource, [])

  /**
   * One command's effect. The ImGui renderers leave the glow bindings as
   * they were: the DX11 one restores the state it changes and every glow
   * pass rebinds everything it reads.
   */
  function Step(i: Reading, c: Command): Reading
  {
    match c
    case ResourceBarrier(batch) =>
      i.(tracked := ApplyBatch(i.tracked, batch), mismatches := i.mismatches + BatchMismatches(i.tracked, batch))
    case SetRenderTarget(rtv) => i.(bound := i.bound.(target := rtv))
    case ClearTarget(_) => i
    case SetDescriptorHeap(_) => i
    case SetPipeline(p) => i.(bound := i.bound.(pipeline := p))
    case SetConstants(k) => i.(bound := i.bound.(constants := k))
    case SetSource(srv) => i.(bound := i.bound.(source := srv))
    case SetBlend(b) => i.(bound := i.bound.(blend := b))
    case DrawUi => i.(passes := i.passes + [UiPass(i.bound.target)])
    case DrawFullscreen =>
      var b := i.bound;
      i.(passes := i.passes + [FullscreenPass(b.target, b.pipeline, b.source, b.constants, b.blend)])
  }

  /** A recorded sequence read from the start of a frame. */
  function Interp(cmds: seq<Command>): Reading
    decreases |cmds|
  {
    if cmds == [] then Start else Step(Interp(cmds[..|cmds| - 1]), cmds[|cmds| - 1])
  }

  /** Appending a command to the command list. */
  method Record(recorded: seq<Command>, c: Command) returns (r: seq<Command>)
    ensures r == recorded + [c]
    ensures Interp(r) == Step(Interp(recorded), c)
  {
    r := recorded + [c];
    assert r[..|r| - 1] == recorded;
  }

  /** The effect of one fullscreen pass on a reading. */
  function FullscreenEffect(i: Reading, target: nat, pipeline: nat, source: nat, k: GlowConstants): Reading
  {
    i.(passes := i.passes + [FullscreenPass(target, pipeline, source, k, i.bound.blend)],
       bound := i.bound.(target := target, pipeline := pipeline, constants := k, source := source))
  }

  /** The effect of a batch of barriers on a reading. */
  function BarrierEffect(i: Reading, batch: seq<Barrier>): Reading
  {
    i.(tracked := ApplyBatch(i.tracked, batch), mismatches := i.mismatches + BatchMismatches(i.tracked, batch))
  }

  /** What a device hands back when the DX12 pipeline creates its objects (0 for a failure). */
  datatype Device12 = Device12(
    emissiveRT: nat, blurATex: nat, blurBTex: nat,
    rtvHeap: nat, rtvStart: nat, rtvInc: nat,
    srvHeap: nat, srvCpuStart: nat, srvGpuStart: nat, srvInc: nat,
    rootSignature: nat, blurPso: nat, compositePso: nat)

  /** What a device hands back when the DX11 pipeline creates its objects (0 for a failure). */
  datatype Device11 = Device11(
    emissiveRT: nat, blurATex: nat, blurBTex: nat,
    emissiveRTV: nat, blurARTV: nat, blurBRTV: nat,
    emissiveSRV: nat, blurASRV: nat, blurBSRV: nat,
    vsCompiled: bool, blurCompiled: bool, compositeCompiled: bool,
    fullscreenVS: nat, blurPS: nat, compositePS: nat,
    sampler: nat, blend: nat, constantBuffer: nat)

  /** The passes of a frame with glow: emissive UI, horizontal and vertical blur, main UI, composite. */
  function GlowPasses(emissiveRtv: nat, mainRtv: nat, horizontal: seq<Pass>, vertical: seq<Pass>, composite: seq<Pass>): seq<Pass>
  {
    [UiPass(emissiveRtv)] + horizontal + vertical + [UiPass(mainRtv)] + composite
  }

  class GlowPipelineDX12 {
    var Width: int
    var Height: int
    var EmissiveRT: nat
    var EmissiveRTV: nat
    var BlurARTV: nat
    var BlurBRTV: nat
    var EmissiveCPU: nat
    var EmissiveGPU: nat
    var BlurACPU: nat
    var BlurAGPU: nat
    var BlurBCPU: nat
    var BlurBGPU: nat
    var BlurATex: nat
    var BlurBTex: nat
    var RTVHeap: nat
    var SRVHeap: nat
    var RootSignature: nat
    var BlurPSO: nat
    var CompositePSO: nat

    /** The objects Shutdown releases, in its order. */
    function Owned(): seq<nat>
      reads this
    {
      [EmissiveRT, BlurATex, BlurBTex, RTVHeap, SRVHeap, RootSignature, BlurPSO, CompositePSO]
    }

    /** Every object Shutdown releases is null. */
    predicate Released()
      reads this
    {
      EmissiveRT == 0 && BlurATex == 0 && BlurBTex == 0 && RTVHeap == 0 && SRVHeap == 0
      && RootSignature == 0 && BlurPSO == 0 && CompositePSO == 0
    }

    /** The descriptor handles, which Shutdown leaves as they are. */
    function Handles(): seq<nat>
      reads this
    {
      [EmissiveRTV, BlurARTV, BlurBRTV, EmissiveCPU, EmissiveGPU, BlurACPU, BlurAGPU, BlurBCPU, BlurBGPU]
    }

    /** The member initialisers: every handle null and a 0 × 0 size. */
    constructor ()
      ensures Width == 0 && Height == 0
      ensures Released()
      ensures EmissiveRTV == 0 && BlurARTV == 0 && BlurBRTV == 0
      ensures EmissiveCPU == 0 && EmissiveGPU == 0 && BlurACPU == 0 && BlurAGPU == 0 && BlurBCPU == 0 && BlurBGPU == 0
    {
      Width, Height := 0, 0;
      EmissiveRT, BlurATex, BlurBTex, RTVHeap, SRVHeap, RootSignature, BlurPSO, CompositePSO := 0, 0, 0, 0, 0, 0, 0, 0;
      EmissiveRTV, BlurARTV, BlurBRTV := 0, 0, 0;
      EmissiveCPU, EmissiveGPU, BlurACPU, BlurAGPU, BlurBCPU, BlurBGPU := 0, 0, 0, 0, 0, 0;
    }

    /** Initialize: a 0 × 0 size and the pipeline objects. */
    method Initialize(dev: Device12)
      modifies this`Width, this`Height, this`RootSignature, this`BlurPSO, this`CompositePSO
      ensures Width == 0 && Height == 0
      ensures old(RootSignature) != 0 ==> RootSignature == old(RootSignature) && BlurPSO == old(BlurPSO) && CompositePSO == old(CompositePSO)
      ensures old(RootSignature) == 0 ==> RootSignature == dev.rootSignature && BlurPSO == dev.blurPso && CompositePSO == dev.compositePso
    {
      Width, Height := 0, 0;
      CreatePipeline(dev);
    }

    /**
     * Shutdown releases every non-null object and nulls it, and zeroes the
     * size; a second Shutdown therefore releases nothing.
     */
    method Shutdown() returns (released: seq<nat>)
      modifies this`Width, this`Height, this`EmissiveRT, this`BlurATex, this`BlurBTex, this`RTVHeap, this`SRVHeap,
        this`RootSignature, this`BlurPSO, this`CompositePSO
      ensures released == Textures.NonNull(old(Owned()))
      ensures Released()
      ensures Width == 0 && Height == 0
      ensures Handles() == old(Handles())
    {
      // each non-null object is released in turn, then nulled
      released := Textures.NonNull(Owned());
      NullTargets();
      NullPipeline();
      Width, Height := 0, 0;
    }

    method NullTargets()
      modifies this`EmissiveRT, this`BlurATex, this`BlurBTex, this`RTVHeap, this`SRVHeap
      ensures EmissiveRT == 0 && BlurATex == 0 && BlurBTex == 0 && RTVHeap == 0 && SRVHeap == 0
    {
      EmissiveRT, BlurATex, BlurBTex, RTVHeap, SRVHeap := 0, 0, 0, 0, 0;
    }

    method NullPipeline()
      modifies this`RootSignature, this`BlurPSO, this`CompositePSO
      ensures RootSignature == 0 && BlurPSO == 0 && CompositePSO == 0
    {
      RootSignature, BlurPSO, CompositePSO := 0, 0, 0;
    }

    /** CreateTargets: nothing for a non-positive size; otherwise three targets and RTVs one increment apart. */
    method CreateTargets(dev: Device12, width: int, height: int)
      modifies this`EmissiveRT, this`BlurATex, this`BlurBTex, this`RTVHeap, this`EmissiveRTV, this`BlurARTV, this`BlurBRTV
      ensures width <= 0 || height <= 0 ==>
        EmissiveRT == old(EmissiveRT) && BlurATex == old(BlurATex) && BlurBTex == old(BlurBTex)
        && RTVHeap == old(RTVHeap) && EmissiveRTV == old(EmissiveRTV) && BlurARTV == old(BlurARTV) && BlurBRTV == old(BlurBRTV)
      ensures width > 0 && height > 0 ==>
        EmissiveRT == dev.emissiveRT && BlurATex == dev.blurATex && BlurBTex == dev.blurBTex && RTVHeap == dev.rtvHeap
        && EmissiveRTV == dev.rtvStart && BlurARTV == dev.rtvStart + dev.rtvInc && BlurBRTV == dev.rtvStart + 2 * dev.rtvInc
    {
      if width <= 0 || height <= 0 {
        return;
      }
      EmissiveRT, BlurATex, BlurBTex := dev.emissiveRT, dev.blurATex, dev.blurBTex;
      RTVHeap := dev.rtvHeap;
      var rtvInc := dev.rtvInc;
      EmissiveRTV := dev.rtvStart;
      BlurARTV := EmissiveRTV + rtvInc;
      BlurBRTV := EmissiveRTV + rtvInc * 2;
    }

    /** CreateDescriptors: nothing unless all three targets exist; otherwise SRVs one increment apart. */
    method CreateDescriptors(dev: Device12)
      modifies this`SRVHeap, this`EmissiveCPU, this`BlurACPU, this`BlurBCPU, this`EmissiveGPU, this`BlurAGPU, this`BlurBGPU
      ensures EmissiveRT == 0 || BlurATex == 0 || BlurBTex == 0 ==>
        SRVHeap == old(SRVHeap) && EmissiveCPU == old(EmissiveCPU) && BlurACPU == old(BlurACPU) && BlurBCPU == old(BlurBCPU)
        && EmissiveGPU == old(EmissiveGPU) && BlurAGPU == old(BlurAGPU) && BlurBGPU == old(BlurBGPU)
      ensures EmissiveRT != 0 && BlurATex != 0 && BlurBTex != 0 ==>
        SRVHeap == dev.srvHeap
        && EmissiveCPU == dev.srvCpuStart && BlurACPU == dev.srvCpuStart + dev.srvInc && BlurBCPU == dev.srvCpuStart + 2 * dev.srvInc
        && EmissiveGPU == dev.srvGpuStart && BlurAGPU == dev.srvGpuStart + dev.srvInc && BlurBGPU == dev.srvGpuStart + 2 * dev.srvInc
    {
      if EmissiveRT == 0 || BlurATex == 0 || BlurBTex == 0 {
        return;
      }
      SRVHeap := dev.srvHeap;
      var descriptorSize := dev.srvInc;
      EmissiveCPU := dev.srvCpuStart;
      BlurACPU := EmissiveCPU + descriptorSize;
      BlurBCPU := EmissiveCPU + descriptorSize * 2;
      EmissiveGPU := dev.srvGpuStart;
      BlurAGPU := EmissiveGPU + descriptorSize;
      BlurBGPU := EmissiveGPU + descriptorSize * 2;
    }

    /** CreatePipeline returns at once when the root signature exists. */
    method CreatePipeline(dev: Device12)
      modifies this`RootSignature, this`BlurPSO, this`CompositePSO
      ensures old(RootSignature) != 0 ==> RootSignature == old(RootSignature) && BlurPSO == old(BlurPSO) && CompositePSO == old(CompositePSO)
      ensures old(RootSignature) == 0 ==> RootSignature == dev.rootSignature && BlurPSO == dev.blurPso && CompositePSO == dev.compositePso
    {
      if RootSignature != 0 {
        return;
      }
      RootSignature := dev.rootSignature;
      BlurPSO := dev.blurPso;
      CompositePSO := dev.compositePso;
    }

    /**
     * Resize does nothing when the size is unchanged and the emissive target
     * exists; otherwise it shuts down and rebuilds at the new size, and a
     * non-positive size leaves no targets and no SRV heap.
     */
    method Resize(dev: Device12, width: int, height: int) returns (released: seq<nat>)
      modifies this`Width, this`Height, this`EmissiveRT, this`BlurATex, this`BlurBTex, this`RTVHeap, this`SRVHeap,
        this`RootSignature, this`BlurPSO, this`CompositePSO, this`EmissiveRTV, this`BlurARTV, this`BlurBRTV,
        this`EmissiveCPU, this`BlurACPU, this`BlurBCPU, this`EmissiveGPU, this`BlurAGPU, this`BlurBGPU
      ensures old(width == Width && height == Height && EmissiveRT != 0) ==> released == [] && unchanged(this)
      ensures !old(width == Width && height == Height && EmissiveRT != 0) ==>
        released == Textures.NonNull(old(Owned()))
        && Width == width && Height == height
        && RootSignature == dev.rootSignature && BlurPSO == dev.blurPso && CompositePSO == dev.compositePso
      ensures !old(width == Width && height == Height && EmissiveRT != 0) && (width <= 0 || height <= 0) ==>
        EmissiveRT == 0 && BlurATex == 0 && BlurBTex == 0 && RTVHeap == 0 && SRVHeap == 0
      ensures !old(width == Width && height == Height && EmissiveRT != 0) && width > 0 && height > 0 ==>
        EmissiveRT == dev.emissiveRT && BlurATex == dev.blurATex && BlurBTex == dev.blurBTex && RTVHeap == dev.rtvHeap
        && EmissiveRTV == dev.rtvStart && BlurARTV == dev.rtvStart + dev.rtvInc && BlurBRTV == dev.rtvStart + 2 * dev.rtvInc
        && SRVHeap == (if dev.emissiveRT != 0 && dev.blurATex != 0 && dev.blurBTex != 0 then dev.srvHeap else 0)
    {
      if width == Width && height == Height && EmissiveRT != 0 {
        return [];
      }
      released := Shutdown();
      Rebuild(dev, width, height);
    }

    /** The part of Resize after Shutdown: the new size, then the pipeline, the targets and the descriptors. */
    method Rebuild(dev: Device12, width: int, height: int)
      requires Released()
      modifies this`Width, this`Height, this`EmissiveRT, this`BlurATex, this`BlurBTex, this`RTVHeap, this`SRVHeap,
        this`RootSignature, this`BlurPSO, this`CompositePSO, this`EmissiveRTV, this`BlurARTV, this`BlurBRTV,
        this`EmissiveCPU, this`BlurACPU, this`BlurBCPU, this`EmissiveGPU, this`BlurAGPU, this`BlurBGPU
      ensures Width == width && Height == height
      ensures RootSignature == dev.rootSignature && BlurPSO == dev.blurPso && CompositePSO == dev.compositePso
      ensures width <= 0 || height <= 0 ==>
        EmissiveRT == 0 && BlurATex == 0 && BlurBTex == 0 && RTVHeap == 0 && SRVHeap == 0
      ensures width > 0 && height > 0 ==>
        EmissiveRT == dev.emissiveRT && BlurATex == dev.blurATex && BlurBTex == dev.blurBTex && RTVHeap == dev.rtvHeap
        && EmissiveRTV == dev.rtvStart && BlurARTV == dev.rtvStart + dev.rtvInc && BlurBRTV == dev.rtvStart + 2 * dev.rtvInc
        && SRVHeap == (if dev.emissiveRT != 0 && dev.blurATex != 0 && dev.blurBTex != 0 then dev.srvHeap else 0)
    {
      Width := width;
      Height := height;
      CreatePipeline(dev);
      CreateSized(dev, width, height);
    }

    /** CreateTargets then CreateDescriptors, from released targets. */
    method CreateSized(dev: Device12, width: int, height: int)
      requires EmissiveRT == 0 && BlurATex == 0 && BlurBTex == 0 && RTVHeap == 0 && SRVHeap == 0
      modifies this`EmissiveRT, this`BlurATex, this`BlurBTex, this`RTVHeap, this`SRVHeap, this`EmissiveRTV, this`BlurARTV, this`BlurBRTV,
        this`EmissiveCPU, this`BlurACPU, this`BlurBCPU, this`EmissiveGPU, this`BlurAGPU, this`BlurBGPU
      ensures width <= 0 || height <= 0 ==>
        EmissiveRT == 0 && BlurATex == 0 && BlurBTex == 0 && RTVHeap == 0 && SRVHeap == 0
      ensures width > 0 && height > 0 ==>
        EmissiveRT == dev.emissiveRT && BlurATex == dev.blurATex && BlurBTex == dev.blurBTex && RTVHeap == dev.rtvHeap
        && EmissiveRTV == dev.rtvStart && BlurARTV == dev.rtvStart + dev.rtvInc && BlurBRTV == dev.rtvStart + 2 * dev.rtvInc
        && SRVHeap == (if dev.emissiveRT != 0 && dev.blurATex != 0 && dev.blurBTex != 0 then dev.srvHeap else 0)
    {
      CreateTargets(dev, width, height);
      CreateDescriptors(dev);
    }

    /** RunBlurPass: nothing without an input or a blur pipeline; otherwise one fullscreen pass. */
    method RunBlurPass(recorded: seq<Command>, input: nat, outputRtv: nat, inputSrv: nat, dirX: real, dirY: real, settings: GlowSettings)
      returns (r: seq<Command>)
      ensures input == 0 || BlurPSO == 0 ==> r == recorded
      ensures input != 0 && BlurPSO != 0 ==>
        Interp(r) == FullscreenEffect(Interp(recorded), outputRtv, BlurPSO, inputSrv, Packed(dirX, dirY, settings))
    {
      if input == 0 || BlurPSO == 0 {
        return recorded;
      }
      r := Record(recorded, SetPipeline(BlurPSO));
      r := Record(r, SetRenderTarget(outputRtv));
      var constants := GlowConstants(dirX, dirY, settings.radius, settings.intensity);
      r := Record(r, SetConstants(constants));
      r := Record(r, SetSource(inputSrv));
      r := Record(r, DrawFullscreen);
    }

    /** Composite: nothing without a composite pipeline; otherwise a pass with direction (0, 0). */
    method Composite(recorded: seq<Command>, targetRtv: nat, bloomSrv: nat, settings: GlowSettings)
      returns (r: seq<Command>)
      ensures CompositePSO == 0 ==> r == recorded
      ensures CompositePSO != 0 ==>
        Interp(r) == FullscreenEffect(Interp(recorded), targetRtv, CompositePSO, bloomSrv, Packed(0.0, 0.0, settings))
    {
      if CompositePSO == 0 {
        return recorded;
      }
      r := Record(recorded, SetPipeline(CompositePSO));
      r := Record(r, SetRenderTarget(targetRtv));
      var constants := GlowConstants(0.0, 0.0, settings.radius, settings.intensity);
      r := Record(r, SetConstants(constants));
      r := Record(r, SetSource(bloomSrv));
      r := Record(r, DrawFullscreen);
    }

    /** The UI drawn into a target, optionally cleared first, through a descriptor heap. */
    static method DrawUiInto(recorded: seq<Command>, rtv: nat, clear: bool, heap: nat) returns (r: seq<Command>)
      ensures Interp(r) == var i := Interp(recorded); i.(passes := i.passes + [UiPass(rtv)], bound := i.bound.(target := rtv))
    {
      r := Record(recorded, SetRenderTarget(rtv));
      if clear {
        r := Record(r, ClearTarget(rtv));
      }
      r := Record(r, SetDescriptorHeap(heap));
      r := Record(r, DrawUi);
    }

    /** The horizontal blur pass, from the emissive SRV into blur A, when the blur pipeline exists. */
    function HorizontalPasses(settings: GlowSettings): seq<Pass>
      reads this
    {
      if BlurPSO != 0 then [FullscreenPass(BlurARTV, BlurPSO, EmissiveGPU, Packed(1.0, 0.0, settings), 0)] else []
    }

    /** The vertical blur pass, from blur A into blur B, when blur A and the blur pipeline exist. */
    function VerticalPasses(settings: GlowSettings): seq<Pass>
      reads this
    {
      if BlurATex != 0 && BlurPSO != 0 then [FullscreenPass(BlurBRTV, BlurPSO, BlurAGPU, Packed(0.0, 1.0, settings), 0)] else []
    }

    /** The passes Render draws when it draws at all. */
    function RenderPasses(mainRtv: nat, settings: GlowSettings): seq<Pass>
      reads this
    {
      GlowPasses(EmissiveRTV, mainRtv, HorizontalPasses(settings), VerticalPasses(settings),
        if CompositePSO != 0 then [FullscreenPass(mainRtv, CompositePSO, BlurBGPU, Packed(0.0, 0.0, settings), 0)] else [])
    }

    /**
     * A blur stage of Render: a batch of two barriers written into Render's
     * array, the glow SRV heap bound, then the blur pass.
     */
    method BlurStage(recorded: seq<Command>, barriers: array<Barrier>, first: Barrier, second: Barrier,
                     input: nat, outputRtv: nat, inputSrv: nat, dirX: real, dirY: real, settings: GlowSettings)
      returns (r: seq<Command>)
      requires barriers.Length == 2
      modifies barriers
      ensures var i := BarrierEffect(Interp(recorded), [first, second]);
        Interp(r) == if input == 0 || BlurPSO == 0 then i else FullscreenEffect(i, outputRtv, BlurPSO, inputSrv, Packed(dirX, dirY, settings))
    {
      barriers[0] := first;
      barriers[1] := second;
      r := Record(recorded, ResourceBarrier(barriers[..]));
      assert barriers[..] == [first, second];
      r := Record(r, SetDescriptorHeap(SRVHeap));
      r := RunBlurPass(r, input, outputRtv, inputSrv, dirX, dirY, settings);
    }

    /** The last stage of Render: blur B back to a shader resource, the main UI, then the composite. */
    method CompositeStage(recorded: seq<Command>, imguiHeap: nat, mainRtv: nat, settings: GlowSettings) returns (r: seq<Command>)
      ensures var i0 := BarrierEffect(Interp(recorded), [Barrier(BlurBTarget, RenderTarget, PixelShaderResource)]);
        var i := i0.(passes := i0.passes + [UiPass(mainRtv)], bound := i0.bound.(target := mainRtv));
        Interp(r) == if CompositePSO == 0 then i else FullscreenEffect(i, mainRtv, CompositePSO, BlurBGPU, Packed(0.0, 0.0, settings))
    {
      var blurBToSrv := Barrier(BlurBTarget, RenderTarget, PixelShaderResource);
      r := Record(recorded, ResourceBarrier([blurBToSrv]));
      r := DrawUiInto(r, mainRtv, false, imguiHeap);
      r := Record(r, SetDescriptorHeap(SRVHeap));
      r := Composite(r, mainRtv, BlurBGPU, settings);
    }

    /** The emissive UI and the horizontal blur, which leaves blur A as the render target. */
    method HorizontalStage(recorded: seq<Command>, barriers: array<Barrier>, imguiHeap: nat, settings: GlowSettings)
      returns (r: seq<Command>)
      requires barriers.Length == 2 && EmissiveRT != 0
      requires Interp(recorded).passes == [] && Interp(recorded).bound == Unbound
      requires Interp(recorded).tracked.emissive == RenderTarget && Interp(recorded).tracked.blurB == PixelShaderResource
      modifies barriers
      ensures Interp(r).passes == [UiPass(EmissiveRTV)] + HorizontalPasses(settings)
      ensures Interp(r).bound.blend == 0
      ensures Interp(r).tracked == Tracked(PixelShaderResource, RenderTarget, PixelShaderResource)
      ensures Interp(r).mismatches == Interp(recorded).mismatches
        + (if Interp(recorded).tracked.blurA == PixelShaderResource then [] else [Barrier(BlurATarget, PixelShaderResource, RenderTarget)])
    {
      var t0 := Interp(recorded).tracked;
      r := DrawUiInto(recorded, EmissiveRTV, true, imguiHeap);
      var a1 := Barrier(EmissiveTarget, RenderTarget, PixelShaderResource);
      var b1 := Barrier(BlurATarget, PixelShaderResource, RenderTarget);
      PairBatch(t0, a1, b1);
      r := BlurStage(r, barriers, a1, b1, EmissiveRT, BlurARTV, EmissiveGPU, 1.0, 0.0, settings);
    }

    /** The vertical blur, from blur A into blur B, which leaves blur B as the render target. */
    method VerticalStage(recorded: seq<Command>, barriers: array<Barrier>, settings: GlowSettings)
      returns (r: seq<Command>)
      requires barriers.Length == 2
      requires Interp(recorded).tracked == Tracked(PixelShaderResource, RenderTarget, PixelShaderResource)
      requires Interp(recorded).bound.blend == 0
      modifies barriers
      ensures Interp(r).passes == Interp(recorded).passes + VerticalPasses(settings)
      ensures Interp(r).bound.blend == 0
      ensures Interp(r).tracked == Tracked(PixelShaderResource, PixelShaderResource, RenderTarget)
      ensures Interp(r).mismatches == Interp(recorded).mismatches
    {
      var t1 := Interp(recorded).tracked;
      var a2 := Barrier(BlurATarget, RenderTarget, PixelShaderResource);
      var b2 := Barrier(BlurBTarget, PixelShaderResource, RenderTarget);
      PairBatch(t1, a2, b2);
      r := BlurStage(recorded, barriers, a2, b2, BlurATex, BlurBRTV, BlurAGPU, 0.0, 1.0, settings);
    }

    /**
     * Everything Render records after its first barrier batch: the
     * emissive UI, the two blur stages, the main UI and the composite.
     * `barriers` is Render's two-element array.
     */
    method RecordPasses(recorded: seq<Command>, barriers: array<Barrier>, imguiHeap: nat, mainRtv: nat, settings: GlowSettings)
      returns (r: seq<Command>)
      requires barriers.Length == 2 && EmissiveRT != 0
      requires Interp(recorded).passes == [] && Interp(recorded).bound == Unbound
      requires Interp(recorded).tracked.emissive == RenderTarget && Interp(recorded).tracked.blurB == PixelShaderResource
      modifies barriers
      ensures Interp(r).passes == RenderPasses(mainRtv, settings)
      ensures Interp(r).tracked == AllShaderResource
      ensures Interp(r).mismatches == Interp(recorded).mismatches
        + (if Interp(recorded).tracked.blurA == PixelShaderResource then [] else [Barrier(BlurATarget, PixelShaderResource, RenderTarget)])
    {
      r := HorizontalStage(recorded, barriers, imguiHeap, settings);
      r := VerticalStage(r, barriers, settings);
      r := CompositeStage(r, imguiHeap, mainRtv, settings);
    }

    /**
     * Render as written: nothing unless the emissive target, the draw data
     * and the SRV heap exist; otherwise the glow passes in order, leaving
     * every target PIXEL_SHADER_RESOURCE. Its first batch already moves
     * BlurATex to RENDER_TARGET, so the barrier that later declares
     * BlurATex PIXEL_SHADER_RESOURCE is wrong, and it is the only one.
     */
    method Render(hasDrawData: bool, imguiHeap: nat, mainRtv: nat, settings: GlowSettings) returns (recorded: seq<Command>)
      ensures !(EmissiveRT != 0 && hasDrawData && SRVHeap != 0) ==> recorded == []
      ensures EmissiveRT != 0 && hasDrawData && SRVHeap != 0 ==>
        Interp(recorded).passes == RenderPasses(mainRtv, settings)
        && Interp(recorded).tracked == AllShaderResource
        && Interp(recorded).mismatches == [Barrier(BlurATarget, PixelShaderResource, RenderTarget)]
    {
      recorded := [];
      if EmissiveRT == 0 || !hasDrawData || SRVHeap == 0 {
        return;
      }
      var barriers := new Barrier[2](_ => Barrier(EmissiveTarget, PixelShaderResource, RenderTarget));
      barriers[0] := Barrier(EmissiveTarget, PixelShaderResource, RenderTarget);
      barriers[1] := barriers[0];
      barriers[1] := barriers[1].(resource := BlurATarget);
      recorded := Record(recorded, ResourceBarrier(barriers[..]));
      assert barriers[..] == [Barrier(EmissiveTarget, PixelShaderResource, RenderTarget), Barrier(BlurATarget, PixelShaderResource, RenderTarget)];
      PairBatch(AllShaderResource, barriers[0], barriers[1]);
      recorded := RecordPasses(recorded, barriers, imguiHeap, mainRtv, settings);
    }

    /**
     * Render with its first batch transitioning only the emissive target,
     * so that BlurATex moves to RENDER_TARGET at the barrier that declares
     * it PIXEL_SHADER_RESOURCE: every barrier then declares the state its
     * resource is in.
     */
    method RenderCorrected(hasDrawData: bool, imguiHeap: nat, mainRtv: nat, settings: GlowSettings) returns (recorded: seq<Command>)
      ensures !(EmissiveRT != 0 && hasDrawData && SRVHeap != 0) ==> recorded == []
      ensures EmissiveRT != 0 && hasDrawData && SRVHeap != 0 ==>
        Interp(recorded).passes == RenderPasses(mainRtv, settings)
        && Interp(recorded).tracked == AllShaderResource
        && Interp(recorded).mismatches == []
    {
      recorded := [];
      if EmissiveRT == 0 || !hasDrawData || SRVHeap == 0 {
        return;
      }
      var barriers := new Barrier[2](_ => Barrier(EmissiveTarget, PixelShaderResource, RenderTarget));
      barriers[0] := Barrier(EmissiveTarget, PixelShaderResource, RenderTarget);
      recorded := Record(recorded, ResourceBarrier(barriers[..1]));
      assert barriers[..1] == [Barrier(EmissiveTarget, PixelShaderResource, RenderTarget)];
      assert [Barrier(EmissiveTarget, PixelShaderResource, RenderTarget)][1..] == [];
      recorded := RecordPasses(recorded, barriers, imguiHeap, mainRtv, settings);
    }
  }

  class GlowPipelineDX11 {
    var Width: int
    var Height: int
    var EmissiveRT: nat
    var EmissiveRTV: nat
    var EmissiveSRV: nat
    var BlurATex: nat
    var BlurARTV: nat
    var BlurASRV: nat
    var BlurBTex: nat
    var BlurBRTV: nat
    var BlurBSRV: nat
    var FullscreenVS: nat
    var BlurPS: nat
    var CompositePS: nat
    var LinearSampler: nat
    var AdditiveBlend: nat
    var ConstantBuffer: nat

    /** The objects Shutdown releases, in its order. */
    function Owned(): seq<nat>
      reads this
    {
      [EmissiveRT, EmissiveRTV, EmissiveSRV, BlurATex, BlurARTV, BlurASRV, BlurBTex, BlurBRTV, BlurBSRV,
       FullscreenVS, BlurPS, CompositePS, LinearSampler, AdditiveBlend, ConstantBuffer]
    }

    /** Every object Shutdown releases is null. */
    predicate Released()
      reads this
    {
      EmissiveRT == 0 && EmissiveRTV == 0 && EmissiveSRV == 0 && BlurATex == 0 && BlurARTV == 0 && BlurASRV == 0
      && BlurBTex == 0 && BlurBRTV == 0 && BlurBSRV == 0 && FullscreenVS == 0 && BlurPS == 0 && CompositePS == 0
      && LinearSampler == 0 && AdditiveBlend == 0 && ConstantBuffer == 0
    }

    /** The member initialisers: every handle null and a 0 × 0 size. */
    constructor ()
      ensures Width == 0 && Height == 0
      ensures Released()
    {
      Width, Height := 0, 0;
      EmissiveRT, EmissiveRTV, EmissiveSRV := 0, 0, 0;
      BlurATex, BlurARTV, BlurASRV := 0, 0, 0;
      BlurBTex, BlurBRTV, BlurBSRV := 0, 0, 0;
      FullscreenVS, BlurPS, CompositePS := 0, 0, 0;
      LinearSampler, AdditiveBlend, ConstantBuffer := 0, 0, 0;
    }

    /** Shutdown releases every non-null object and nulls it, and zeroes the size. */
    method Shutdown() returns (released: seq<nat>)
      modifies this`Width, this`Height, this`EmissiveRT, this`EmissiveRTV, this`EmissiveSRV, this`BlurATex, this`BlurARTV, this`BlurASRV,
        this`BlurBTex, this`BlurBRTV, this`BlurBSRV, this`FullscreenVS, this`BlurPS, this`CompositePS,
        this`LinearSampler, this`AdditiveBlend, this`ConstantBuffer
      ensures released == Textures.NonNull(old(Owned()))
      ensures Released()
      ensures Width == 0 && Height == 0
    {
      // each non-null object is released in turn, then nulled
      released := Textures.NonNull(Owned());
      NullTargets();
      NullShaders();
      Width, Height := 0, 0;
    }

    method NullTargets()
      modifies this`EmissiveRT, this`EmissiveRTV, this`EmissiveSRV, this`BlurATex, this`BlurARTV, this`BlurASRV,
        this`BlurBTex, this`BlurBRTV, this`BlurBSRV
      ensures EmissiveRT == 0 && EmissiveRTV == 0 && EmissiveSRV == 0 && BlurATex == 0 && BlurARTV == 0 && BlurASRV == 0
      ensures BlurBTex == 0 && BlurBRTV == 0 && BlurBSRV == 0
    {
      EmissiveRT, EmissiveRTV, EmissiveSRV := 0, 0, 0;
      BlurATex, BlurARTV, BlurASRV := 0, 0, 0;
      BlurBTex, BlurBRTV, BlurBSRV := 0, 0, 0;
    }

    method NullShaders()
      modifies this`FullscreenVS, this`BlurPS, this`CompositePS, this`LinearSampler, this`AdditiveBlend, this`ConstantBuffer
      ensures FullscreenVS == 0 && BlurPS == 0 && CompositePS == 0 && LinearSampler == 0 && AdditiveBlend == 0 && ConstantBuffer == 0
    {
      FullscreenVS, BlurPS, CompositePS := 0, 0, 0;
      LinearSampler, AdditiveBlend, ConstantBuffer := 0, 0, 0;
    }

    /** CreateTargets: no size check; three textures, their RTVs and their SRVs. */
    method CreateTargets(dev: Device11)
      modifies this`EmissiveRT, this`BlurATex, this`BlurBTex, this`EmissiveRTV, this`BlurARTV, this`BlurBRTV,
        this`EmissiveSRV, this`BlurASRV, this`BlurBSRV
      ensures EmissiveRT == dev.emissiveRT && BlurATex == dev.blurATex && BlurBTex == dev.blurBTex
      ensures EmissiveRTV == dev.emissiveRTV && BlurARTV == dev.blurARTV && BlurBRTV == dev.blurBRTV
      ensures EmissiveSRV == dev.emissiveSRV && BlurASRV == dev.blurASRV && BlurBSRV == dev.blurBSRV
    {
      EmissiveRT, BlurATex, BlurBTex := dev.emissiveRT, dev.blurATex, dev.blurBTex;
      EmissiveRTV, BlurARTV, BlurBRTV := dev.emissiveRTV, dev.blurARTV, dev.blurBRTV;
      EmissiveSRV, BlurASRV, BlurBSRV := dev.emissiveSRV, dev.blurASRV, dev.blurBSRV;
    }

    /**
     * CreateShaders: each shader whose source compiled is created anew; the
     * sampler, the blend state and the constant buffer only when null.
     */
    method CreateShaders(dev: Device11)
      modifies this`FullscreenVS, this`BlurPS, this`CompositePS, this`LinearSampler, this`AdditiveBlend, this`ConstantBuffer
      ensures FullscreenVS == (if dev.vsCompiled then dev.fullscreenVS else old(FullscreenVS))
      ensures BlurPS == (if dev.blurCompiled then dev.blurPS else old(BlurPS))
      ensures CompositePS == (if dev.compositeCompiled then dev.compositePS else old(CompositePS))
      ensures LinearSampler == (if old(LinearSampler) == 0 then dev.sampler else old(LinearSampler))
      ensures AdditiveBlend == (if old(AdditiveBlend) == 0 then dev.blend else old(AdditiveBlend))
      ensures ConstantBuffer == (if old(ConstantBuffer) == 0 then dev.constantBuffer else old(ConstantBuffer))
    {
      if dev.vsCompiled {
        FullscreenVS := dev.fullscreenVS;
      }
      if dev.blurCompiled {
        BlurPS := dev.blurPS;
      }
      if dev.compositeCompiled {
        CompositePS := dev.compositePS;
      }
      if LinearSampler == 0 {
        LinearSampler := dev.sampler;
      }
      if AdditiveBlend == 0 {
        AdditiveBlend := dev.blend;
      }
      if ConstantBuffer == 0 {
        ConstantBuffer := dev.constantBuffer;
      }
    }

    /** Initialize: the shaders and their state objects. */
    method Initialize(dev: Device11)
      modifies this`FullscreenVS, this`BlurPS, this`CompositePS, this`LinearSampler, this`AdditiveBlend, this`ConstantBuffer
      ensures FullscreenVS == (if dev.vsCompiled then dev.fullscreenVS else old(FullscreenVS))
      ensures BlurPS == (if dev.blurCompiled then dev.blurPS else old(BlurPS))
      ensures CompositePS == (if dev.compositeCompiled then dev.compositePS else old(CompositePS))
      ensures LinearSampler == (if old(LinearSampler) == 0 then dev.sampler else old(LinearSampler))
      ensures AdditiveBlend == (if old(AdditiveBlend) == 0 then dev.blend else old(AdditiveBlend))
      ensures ConstantBuffer == (if old(ConstantBuffer) == 0 then dev.constantBuffer else old(ConstantBuffer))
    {
      CreateShaders(dev);
    }

    /**
     * Resize does nothing when the size is unchanged and the emissive
     * texture exists; otherwise it shuts down and rebuilds everything at the
     * new size.
     */
    method Resize(dev: Device11, width: int, height: int) returns (released: seq<nat>)
      modifies this`Width, this`Height, this`EmissiveRT, this`EmissiveRTV, this`EmissiveSRV, this`BlurATex, this`BlurARTV, this`BlurASRV,
        this`BlurBTex, this`BlurBRTV, this`BlurBSRV, this`FullscreenVS, this`BlurPS, this`CompositePS,
        this`LinearSampler, this`AdditiveBlend, this`ConstantBuffer
      ensures old(width == Width && height == Height && EmissiveRT != 0) ==> released == [] && unchanged(this)
      ensures !old(width == Width && height == Height && EmissiveRT != 0) ==>
        released == Textures.NonNull(old(Owned()))
        && Width == width && Height == height
        && EmissiveRT == dev.emissiveRT && BlurATex == dev.blurATex && BlurBTex == dev.blurBTex
        && EmissiveRTV == dev.emissiveRTV && BlurARTV == dev.blurARTV && BlurBRTV == dev.blurBRTV
        && EmissiveSRV == dev.emissiveSRV && BlurASRV == dev.blurASRV && BlurBSRV == dev.blurBSRV
        && FullscreenVS == (if dev.vsCompiled then dev.fullscreenVS else 0)
        && BlurPS == (if dev.blurCompiled then dev.blurPS else 0)
        && CompositePS == (if dev.compositeCompiled then dev.compositePS else 0)
        && LinearSampler == dev.sampler && AdditiveBlend == dev.blend && ConstantBuffer == dev.constantBuffer
    {
      if width == Width && height == Height && EmissiveRT != 0 {
        return [];
      }
      released := Shutdown();
      Rebuild(dev, width, height);
    }

    /** The part of Resize after Shutdown: the new size, then the targets and the shaders. */
    method Rebuild(dev: Device11, width: int, height: int)
      requires Released()
      modifies this`Width, this`Height, this`EmissiveRT, this`EmissiveRTV, this`EmissiveSRV, this`BlurATex, this`BlurARTV, this`BlurASRV,
        this`BlurBTex, this`BlurBRTV, this`BlurBSRV, this`FullscreenVS, this`BlurPS, this`CompositePS,
        this`LinearSampler, this`AdditiveBlend, this`ConstantBuffer
      ensures Width == width && Height == height
      ensures EmissiveRT == dev.emissiveRT && BlurATex == dev.blurATex && BlurBTex == dev.blurBTex
      ensures EmissiveRTV == dev.emissiveRTV && BlurARTV == dev.blurARTV && BlurBRTV == dev.blurBRTV
      ensures EmissiveSRV == dev.emissiveSRV && BlurASRV == dev.blurASRV && BlurBSRV == dev.blurBSRV
      ensures FullscreenVS == (if dev.vsCompiled then dev.fullscreenVS else 0)
      ensures BlurPS == (if dev.blurCompiled then dev.blurPS else 0)
      ensures CompositePS == (if dev.compositeCompiled then dev.compositePS else 0)
      ensures LinearSampler == dev.sampler && AdditiveBlend == dev.blend && ConstantBuffer == dev.constantBuffer
    {
      Width := width;
      Height := height;
      CreateTargets(dev);
      CreateShaders(dev);
    }

    /**
     * Map, write and unmap the constant buffer: the constants are recorded
     * when Map succeeds. `mapOk` is Map's outcome on a buffer that exists;
     * on a null buffer Map fails.
     */
    method WriteConstants(recorded: seq<Command>, k: GlowConstants, mapOk: bool) returns (r: seq<Command>)
      ensures var i := Interp(recorded);
        Interp(r) == if ConstantBuffer != 0 && mapOk then i.(bound := i.bound.(constants := k)) else i
    {
      r := recorded;
      if ConstantBuffer != 0 && mapOk {
        r := Record(r, SetConstants(k));
      }
    }

    /** The target, the pixel shader and its input bound, the fullscreen triangle drawn, the input unbound. */
    static method DrawFullscreenInto(recorded: seq<Command>, targetRtv: nat, shader: nat, inputSrv: nat) returns (r: seq<Command>)
      ensures var i := Interp(recorded);
        Interp(r) == i.(passes := i.passes + [FullscreenPass(targetRtv, shader, inputSrv, i.bound.constants, i.bound.blend)],
                        bound := i.bound.(target := targetRtv, pipeline := shader, source := 0))
    {
      r := Record(recorded, SetRenderTarget(targetRtv));
      r := Record(r, SetPipeline(shader));
      r := Record(r, SetSource(inputSrv));
      r := Record(r, DrawFullscreen);
      r := Record(r, SetSource(0));
    }

    /**
     * RunBlurPass: the constants when the constant buffer can be mapped,
     * then one fullscreen pass, then the input unbound.
     */
    method RunBlurPass(recorded: seq<Command>, inputSrv: nat, outputRtv: nat, dirX: real, dirY: real, settings: GlowSettings,
                       mapOk: bool)
      returns (r: seq<Command>)
      ensures var i := Interp(recorded);
        var k := if ConstantBuffer != 0 && mapOk then Packed(dirX, dirY, settings) else i.bound.constants;
        Interp(r) == i.(passes := i.passes + [FullscreenPass(outputRtv, BlurPS, inputSrv, k, i.bound.blend)],
                         bound := i.bound.(target := outputRtv, pipeline := BlurPS, constants := k, source := 0))
    {
      var constants := GlowConstants(dirX, dirY, settings.radius, settings.intensity);
      r := WriteConstants(recorded, constants, mapOk);
      r := DrawFullscreenInto(r, outputRtv, BlurPS, inputSrv);
    }

    /**
     * Composite: the constants with direction (0, 0) when the buffer can be
     * mapped, then the bloom drawn with the additive blend state, which is
     * reset to the default afterwards.
     */
    method Composite(recorded: seq<Command>, targetRtv: nat, bloomSrv: nat, settings: GlowSettings, mapOk: bool)
      returns (r: seq<Command>)
      ensures var i := Interp(recorded);
        var k := if ConstantBuffer != 0 && mapOk then Packed(0.0, 0.0, settings) else i.bound.constants;
        Interp(r) == i.(passes := i.passes + [FullscreenPass(targetRtv, CompositePS, bloomSrv, k, AdditiveBlend)],
                         bound := i.bound.(target := targetRtv, pipeline := CompositePS, constants := k, source := 0, blend := 0))
    {
      var constants := GlowConstants(0.0, 0.0, settings.radius, settings.intensity);
      r := WriteConstants(recorded, constants, mapOk);
      r := Record(r, SetBlend(AdditiveBlend));
      r := DrawFullscreenInto(r, targetRtv, CompositePS, bloomSrv);
      r := Record(r, SetBlend(0));
    }

    /**
     * Render: nothing without the emissive RTV; otherwise the emissive UI,
     * the horizontal blur from the emissive SRV into blur A, the vertical
     * blur from blur A into blur B, the main UI and the additive composite
     * of blur B onto the main target, after which the default blend state
     * is bound again. `mapH`, `mapV` and `mapC` are the outcomes of the
     * three Maps of the constant buffer.
     */
    method Render(mainRtv: nat, settings: GlowSettings, mapH: bool, mapV: bool, mapC: bool) returns (recorded: seq<Command>)
      ensures EmissiveRTV == 0 ==> recorded == []
      ensures EmissiveRTV != 0 && ConstantBuffer != 0 && mapH && mapV && mapC ==>
        Interp(recorded).passes == GlowPasses(EmissiveRTV, mainRtv,
          [FullscreenPass(BlurARTV, BlurPS, EmissiveSRV, Packed(1.0, 0.0, settings), 0)],
          [FullscreenPass(BlurBRTV, BlurPS, BlurASRV, Packed(0.0, 1.0, settings), 0)],
          [FullscreenPass(mainRtv, CompositePS, BlurBSRV, Packed(0.0, 0.0, settings), AdditiveBlend)])
      ensures EmissiveRTV != 0 ==> Interp(recorded).bound.blend == 0 && Interp(recorded).bound.source == 0
    {
      recorded := [];
      if EmissiveRTV == 0 {
        return;
      }
      recorded := Record(recorded, SetRenderTarget(EmissiveRTV));
      recorded := Record(recorded, ClearTarget(EmissiveRTV));
      recorded := Record(recorded, DrawUi);
      recorded := RunBlurPass(recorded, EmissiveSRV, BlurARTV, 1.0, 0.0, settings, mapH);
      recorded := RunBlurPass(recorded, BlurASRV, BlurBRTV, 0.0, 1.0, settings, mapV);
      recorded := Record(recorded, SetRenderTarget(mainRtv));
      recorded := Record(recorded, DrawUi);
      recorded := Composite(recorded, mainRtv, BlurBSRV, settings, mapC);
    }
  }
}
