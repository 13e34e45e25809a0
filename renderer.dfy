/**
 * The texture and background-reload bookkeeping of main.cpp on the DX12
 * path: the background-reload job and its front-end settings, the deferred
 * texture frees gated by the fence, the loading-icon slots of
 * PumpTexturesToGPU and SwapLoadingIconTheme, and shutdown.
 *
 * Every descriptor slot is accounted for: the free list plus the slots the
 * renderer's records own never count an index more often than the heap
 * has it (`Renderer.Consistent`). Leaks are allowed; a double free is not.
 */
module Renderer {
  import opened DescriptorHeap
  import opened Backend
  import opened FrameSync
  import opened Textures

  datatype Option<T> = None | Some(value: T)

  // ------------------------------------------------------ front-end settings

  /** The settings RequestBackgroundReload overrides: vsync, render.target_fps and isLoading. */
  datatype FrontEnd = FrontEnd(vsync: bool, targetFps: int, isLoading: bool)

  /** g_App.Lcache: the values restored when the reload ends. */
  datatype SettingsCache = SettingsCache(vsync: bool, targetFps: int)

  /** The values forced while a reload is in progress. */
  const LoadingFront := FrontEnd(false, 60, true)

  /** RequestBackgroundReload as written: the cache always takes the current values. */
  function RequestSettingsAsWritten(f: FrontEnd, c: SettingsCache): (FrontEnd, SettingsCache)
  {
    (LoadingFront, SettingsCache(f.vsync, f.targetFps))
  }

  /**
   * RequestBackgroundReload, corrected: while a reload is already in
   * progress the current values are the forced ones, so the cache is kept.
   */
  function RequestSettings(f: FrontEnd, c: SettingsCache): (FrontEnd, SettingsCache)
  {
    (LoadingFront, if f.isLoading then c else SettingsCache(f.vsync, f.targetFps))
  }

  /** The restore at the end of FinalizeBgUploadIfReady and ApplyBgReloadDX11IfReady. */
  function RestoreSettings(c: SettingsCache): FrontEnd
  {
    FrontEnd(c.vsync, c.targetFps, false)
  }

  /**
   * As written, a second request before the first one finishes caches the
   * forced values: the restore then yields vsync off and 60 fps, which
   * gives back the user's settings only when those were the forced values.
   */
  lemma {:induction false} SecondRequestLosesSettings(f: FrontEnd, c: SettingsCache)
    ensures var (f1, c1) := RequestSettingsAsWritten(f, c);
      var (f2, c2) := RequestSettingsAsWritten(f1, c1);
      && RestoreSettings(c2) == FrontEnd(false, 60, false)
      && (RestoreSettings(c2) == FrontEnd(f.vsync, f.targetFps, false) <==> !f.vsync && f.targetFps == 60)
  {
  }

  /** The settings after `k` requests in a row, corrected. */
  function Requests(f: FrontEnd, c: SettingsCache, k: nat): (FrontEnd, SettingsCache)
    decreases k
  {
    if k == 0 then (f, c) else var (f1, c1) := Requests(f, c, k - 1); RequestSettings(f1, c1)
  }

  /**
   * Corrected, any number of requests made while the user's own settings
   * are in place is undone by the restore: it gives back exactly the
   * values from before the first request.
   */
  lemma {:induction false} RequestsRestoreUserSettings(f: FrontEnd, c: SettingsCache, k: nat)
    requires !f.isLoading && k >= 1
    decreases k
    ensures Requests(f, c, k).0 == LoadingFront
    ensures Requests(f, c, k).1 == SettingsCache(f.vsync, f.targetFps)
    ensures RestoreSettings(Requests(f, c, k).1) == FrontEnd(f.vsync, f.targetFps, false)
  {
    if k > 1 {
      RequestsRestoreUserSettings(f, c, k - 1);
    }
  }

  // ------------------------------------------------------- background job

  /** g_bgJob: the three flags and the fields of the job. */
  datatype BgJob = BgJob(
    requested: bool, bytesReady: bool, uploadSubmitted: bool,
    path: string, bytes: seq<bv8>,
    newTex: nat, fenceValue: nat, newTextureRes: nat, newUploadRes: nat, newCpu: nat, newGpu: nat)

  /** The zero-initialised g_bgJob. */
  const IdleJob := BgJob(false, false, false, [], [], 0, 0, 0, 0, 0, 0)

  /** The job right after RequestBackgroundReload(path). */
  function RequestedJob(path: string): BgJob
  {
    BgJob(true, false, false, path, [], 0, 0, 0, 0, 0, 0)
  }

  /** SubmitBgUploadDX12 gets past its flag checks. */
  predicate SubmitReady(j: BgJob, backend: RenderBackend)
  {
    IsDX12(backend) && j.requested && j.bytesReady && !j.uploadSubmitted
  }

  /** FinalizeBgUploadIfReady gets past its checks: the upload's fence value is reached. */
  predicate FinalizeReady(j: BgJob, backend: RenderBackend, completed: nat)
  {
    IsDX12(backend) && j.uploadSubmitted && completed >= j.fenceValue
  }

  /** ApplyBgReloadDX11IfReady gets past its flag checks. */
  predicate ApplyReady(j: BgJob, backend: RenderBackend)
  {
    IsDX11(backend) && j.requested && j.bytesReady
  }

  /**
   * BgReloadWorker as written, as one step of the environment: nothing
   * unless a reload was requested; `read` is the file's contents, or None
   * when fopen fails, in which case it returns without a trace.
   */
  function WorkerStepAsWritten(j: BgJob, read: Option<seq<bv8>>): BgJob
  {
    if !j.requested || read.None? then j else j.(bytes := read.value, bytesReady := true)
  }

  /**
   * As written, a file that cannot be opened leaves the job as Request left
   * it, and then none of the three frame-loop steps that end the loading
   * state (and clear isLoading) is enabled, whatever the back end and
   * however far the GPU has got.
   */
  lemma {:induction false} FailedOpenLeavesLoadingStuck(path: string, backend: RenderBackend, completed: nat)
    ensures var j := WorkerStepAsWritten(RequestedJob(path), None);
      && j == RequestedJob(path)
      && !SubmitReady(j, backend) && !FinalizeReady(j, backend, completed) && !ApplyReady(j, backend)
  {
  }

  /** BgReloadWorker, corrected: a failed open still reports, with no bytes. */
  function WorkerStep(j: BgJob, read: Option<seq<bv8>>): BgJob
  {
    if !j.requested then j
    else j.(bytes := if read.Some? then read.value else [], bytesReady := true)
  }

  /**
   * Corrected, after a failed open the DX11 apply step is enabled, and on
   * DX12 the submit step is enabled with no bytes, which makes it abandon
   * the job and restore the settings (Renderer.SubmitBgUploadDX12).
   */
  lemma {:induction false} FailedOpenEnablesCompletion(path: string, backend: RenderBackend)
    ensures var j := WorkerStep(RequestedJob(path), None);
      && (backend == DX12 ==> SubmitReady(j, backend) && j.bytes == [])
      && (backend == DX11 ==> ApplyReady(j, backend))
  {
  }

  // ------------------------------------------------------ deferred frees

  /** DeferredTextureFree: a texture and the fence value after which it may go. */
  datatype DeferredFree = DeferredFree(tex: Texture, fenceValue: nat)

  /** The entries ProcessDeferredTextureFrees frees: fence value reached. */
  function Ready(q: seq<DeferredFree>, completed: nat): (r: seq<DeferredFree>)
    decreases |q|
    ensures |r| <= |q|
    ensures forall i :: 0 <= i < |r| ==> r[i].fenceValue <= completed
  {
    if q == [] then []
    else Ready(q[..|q| - 1], completed) + (if q[|q| - 1].fenceValue <= completed then [q[|q| - 1]] else [])
  }

  /** The entries ProcessDeferredTextureFrees keeps: fence value not reached. */
  function Pending(q: seq<DeferredFree>, completed: nat): (r: seq<DeferredFree>)
    decreases |q|
    ensures |r| <= |q|
    ensures forall i :: 0 <= i < |r| ==> r[i].fenceValue > completed
  {
    if q == [] then []
    else Pending(q[..|q| - 1], completed) + (if q[|q| - 1].fenceValue > completed then [q[|q| - 1]] else [])
  }

  /** Every entry is freed or kept, never both: the two lists split the queue. */
  lemma {:induction false} ReadyPendingSplit(q: seq<DeferredFree>, completed: nat)
    decreases |q|
    ensures multiset(Ready(q, completed)) + multiset(Pending(q, completed)) == multiset(q)
    ensures |Ready(q, completed)| + |Pending(q, completed)| == |q|
  {
    if q != [] {
      var init, e := q[..|q| - 1], q[|q| - 1];
      ReadyPendingSplit(init, completed);
      assert q == init + [e];
      ReadyPendingSnoc(init, e, completed);
    }
  }

  /** Appending one entry extends exactly one of the two lists. */
  lemma {:induction false} ReadyPendingSnoc(q: seq<DeferredFree>, e: DeferredFree, completed: nat)
    ensures Ready(q + [e], completed) == Ready(q, completed) + (if e.fenceValue <= completed then [e] else [])
    ensures Pending(q + [e], completed) == Pending(q, completed) + (if e.fenceValue > completed then [e] else [])
  {
    assert (q + [e])[..|q|] == q;
  }

  /** One more entry of the queue's prefix extends exactly one of the two lists. */
  lemma ReadyPendingPrefix(q: seq<DeferredFree>, j: nat, completed: nat)
    requires j < |q|
    ensures Ready(q[..j + 1], completed) == Ready(q[..j], completed) + (if q[j].fenceValue <= completed then [q[j]] else [])
    ensures Pending(q[..j + 1], completed) == Pending(q[..j], completed) + (if q[j].fenceValue > completed then [q[j]] else [])
  {
    assert q[..j + 1] == q[..j] + [q[j]];
    ReadyPendingSnoc(q[..j], q[j], completed);
  }

  /** Every texture of a deferred queue is one FreeTexture may release on DX12. */
  ghost predicate QueueFreeable(g: Geometry, q: seq<DeferredFree>)
    decreases |q|
  {
    q == [] || (QueueFreeable(g, q[..|q| - 1]) && TextureFreeable(g, q[|q| - 1].tex))
  }

  lemma {:induction false} QueueFreeableSnoc(g: Geometry, q: seq<DeferredFree>, e: DeferredFree)
    ensures QueueFreeable(g, q + [e]) <==> QueueFreeable(g, q) && TextureFreeable(g, e.tex)
  {
    assert (q + [e])[..|q|] == q;
  }

  /** Every entry of a freeable queue is freeable. */
  lemma {:induction false} QueueFreeableAt(g: Geometry, q: seq<DeferredFree>, i: nat)
    requires QueueFreeable(g, q) && i < |q|
    decreases |q|
    ensures TextureFreeable(g, q[i].tex)
  {
    if i < |q| - 1 {
      QueueFreeableAt(g, q[..|q| - 1], i);
    }
  }

  /** Both lists keep only entries of the queue. */
  lemma {:induction false} ReadyPendingFreeable(g: Geometry, q: seq<DeferredFree>, completed: nat)
    requires QueueFreeable(g, q)
    decreases |q|
    ensures QueueFreeable(g, Ready(q, completed)) && QueueFreeable(g, Pending(q, completed))
  {
    if q != [] {
      var init, e := q[..|q| - 1], q[|q| - 1];
      ReadyPendingFreeable(g, init, completed);
      assert q == init + [e];
      ReadyPendingSnoc(init, e, completed);
      QueueFreeableSnoc(g, Ready(init, completed), e);
      QueueFreeableSnoc(g, Pending(init, completed), e);
      assert TextureFreeable(g, e.tex);
      if e.fenceValue <= completed {
        assert Ready(q, completed) == Ready(init, completed) + [e];
        assert Pending(q, completed) == Pending(init, completed);
      } else {
        assert Ready(q, completed) == Ready(init, completed);
        assert Pending(q, completed) == Pending(init, completed) + [e];
      }
    }
  }

  /** The slots FreeTexture returns for each entry of the queue, in order. */
  function DeferredSlots(g: Geometry, q: seq<DeferredFree>, backend: RenderBackend): seq<nat>
    requires QueueFreeable(g, q)
    decreases |q|
  {
    if q == [] then []
    else DeferredSlots(g, q[..|q| - 1], backend) + ReleaseSlots(g, q[|q| - 1].tex, backend)
  }

  /** Freeing the ready entries and keeping the rest neither loses nor duplicates a slot. */
  lemma {:induction false} DeferredSlotsSplit(g: Geometry, q: seq<DeferredFree>, backend: RenderBackend, completed: nat)
    requires QueueFreeable(g, q)
    decreases |q|
    ensures QueueFreeable(g, Ready(q, completed)) && QueueFreeable(g, Pending(q, completed))
    ensures Bag(DeferredSlots(g, Ready(q, completed), backend)) + Bag(DeferredSlots(g, Pending(q, completed), backend))
      == Bag(DeferredSlots(g, q, backend))
  {
    if q != [] {
      var init, e := q[..|q| - 1], q[|q| - 1];
      assert q == init + [e];
      DeferredSlotsSplit(g, init, backend, completed);
      DeferredSlotsSplitStep(g, init, e, backend, completed);
    }
  }

  /** The step of DeferredSlotsSplit: one more entry goes to exactly one side. */
  lemma {:induction false} DeferredSlotsSplitStep(g: Geometry, init: seq<DeferredFree>, e: DeferredFree, backend: RenderBackend,
                               completed: nat)
    requires QueueFreeable(g, init) && TextureFreeable(g, e.tex)
    requires QueueFreeable(g, Ready(init, completed)) && QueueFreeable(g, Pending(init, completed))
    requires Bag(DeferredSlots(g, Ready(init, completed), backend)) + Bag(DeferredSlots(g, Pending(init, completed), backend))
      == Bag(DeferredSlots(g, init, backend))
    ensures QueueFreeable(g, Ready(init + [e], completed)) && QueueFreeable(g, Pending(init + [e], completed))
    ensures Bag(DeferredSlots(g, Ready(init + [e], completed), backend))
      + Bag(DeferredSlots(g, Pending(init + [e], completed), backend))
      == Bag(DeferredSlots(g, init + [e], backend))
  {
    var r, p := Ready(init, completed), Pending(init, completed);
    var x := ReleaseSlots(g, e.tex, backend);
    ReadyPendingSnoc(init, e, completed);
    DeferredSlotsAppend(g, init, e, backend);
    BagAppend(DeferredSlots(g, init, backend), x);
    var rb, pb, xb := Bag(DeferredSlots(g, r, backend)), Bag(DeferredSlots(g, p, backend)), Bag(x);
    if e.fenceValue <= completed {
      assert Ready(init + [e], completed) == r + [e] && Pending(init + [e], completed) == p;
      DeferredSlotsAppend(g, r, e, backend);
      BagAppend(DeferredSlots(g, r, backend), x);
      assert Bag(DeferredSlots(g, Ready(init + [e], completed), backend)) == rb + xb;
      GrowOneSide(rb, pb, Bag(DeferredSlots(g, init, backend)), xb);
    } else {
      assert Ready(init + [e], completed) == r && Pending(init + [e], completed) == p + [e];
      DeferredSlotsAppend(g, p, e, backend);
      BagAppend(DeferredSlots(g, p, backend), x);
      assert Bag(DeferredSlots(g, Pending(init + [e], completed), backend)) == pb + xb;
      GrowOneSide(pb, rb, Bag(DeferredSlots(g, init, backend)), xb);
    }
  }

  lemma {:induction false} GrowOneSide(a: multiset<nat>, b: multiset<nat>, whole: multiset<nat>, x: multiset<nat>)
    requires a + b == whole || b + a == whole
    ensures (a + x) + b == whole + x && b + (a + x) == whole + x
  {
  }

  /** Adding one entry at the back adds its slots at the back. */
  lemma {:induction false} DeferredSlotsAppend(g: Geometry, q: seq<DeferredFree>, e: DeferredFree, backend: RenderBackend)
    requires QueueFreeable(g, q) && TextureFreeable(g, e.tex)
    ensures QueueFreeable(g, q + [e])
    ensures DeferredSlots(g, q + [e], backend) == DeferredSlots(g, q, backend) + ReleaseSlots(g, e.tex, backend)
  {
    assert (q + [e])[..|q|] == q;
  }

  // ------------------------------------------------------ loading-icon slots

  /** DX12LoadingSrv: the descriptor pair of one loading-icon frame. */
  datatype LoadingSrv = LoadingSrv(cpu: nat, gpu: nat)

  ghost predicate SrvsInHeap(g: Geometry, s: seq<LoadingSrv>)
    decreases |s|
  {
    s == [] || (SrvsInHeap(g, s[..|s| - 1]) && InHeap(g, s[|s| - 1].cpu, s[|s| - 1].gpu))
  }

  /** The slots of g_dx12LoadingSrvs, in order. */
  function LoadingSlots(g: Geometry, s: seq<LoadingSrv>): seq<nat>
    requires SrvsInHeap(g, s)
    decreases |s|
  {
    if s == [] then []
    else LoadingSlots(g, s[..|s| - 1]) + [SlotOf(g.startCpu, g.increment, s[|s| - 1].cpu)]
  }

  lemma {:induction false} LoadingSlotsAppend(g: Geometry, s: seq<LoadingSrv>, e: LoadingSrv)
    requires SrvsInHeap(g, s) && InHeap(g, e.cpu, e.gpu)
    ensures SrvsInHeap(g, s + [e])
    ensures LoadingSlots(g, s + [e]) == LoadingSlots(g, s) + [SlotOf(g.startCpu, g.increment, e.cpu)]
  {
    assert (s + [e])[..|s|] == s;
  }

  /**
   * One frame of PumpTexturesToGPU as written, on slot indices: the slot is
   * popped and recorded in g_dx12LoadingSrvs before the load, and a failed
   * load also pushes it back onto the free list.
   */
  function PumpItemAsWritten(free: seq<nat>, loading: seq<nat>, loadOk: bool): (seq<nat>, seq<nat>)
    requires |free| > 0
  {
    var idx := free[|free| - 1];
    (if loadOk then free[..|free| - 1] else free[..|free| - 1] + [idx], loading + [idx])
  }

  /** SwapLoadingIconTheme on slot indices: every recorded slot goes back, the record is cleared. */
  function SwapReleaseAsWritten(free: seq<nat>, loading: seq<nat>): (seq<nat>, seq<nat>)
  {
    (free + loading, [])
  }

  /**
   * However sound the state was, a failed frame load followed by a theme
   * swap puts the frame's slot on the free list twice, which no heap of any
   * size can hold: two later Allocs hand out the same descriptor.
   */
  lemma {:induction false} FailedLoadThenSwapFreesTwice(free: seq<nat>, loading: seq<nat>, n: nat)
    requires |free| > 0 && multiset(free) + multiset(loading) <= SlotRange(n)
    ensures var (f1, l1) := PumpItemAsWritten(free, loading, false);
      var (f2, _) := SwapReleaseAsWritten(f1, l1);
      && multiset(f2)[free[|free| - 1]] == 2
      && !(multiset(f2) <= SlotRange(n))
  {
    var idx := free[|free| - 1];
    var init := free[..|free| - 1];
    assert free == init + [idx];
    SlotRangeCount(n, idx);
    assert multiset(free)[idx] == multiset(init)[idx] + 1;
    assert multiset(init)[idx] == 0 && multiset(loading)[idx] == 0;
    var (f1, l1) := PumpItemAsWritten(free, loading, false);
    assert f1 + l1 == init + [idx] + loading + [idx];
    assert multiset(f1 + l1)[idx] == multiset(init)[idx] + 1 + multiset(loading)[idx] + 1;
  }

  /**
   * FinalizeBgUploadIfReady as written, on slot indices: the slot of the
   * id in BgTexture, which is the base slot of `bg`, goes back to the free
   * list while `bg` keeps both of its slots.
   */
  function FinalizeBgSlotsAsWritten(free: seq<nat>, bgSlots: seq<nat>): (seq<nat>, seq<nat>)
    requires |bgSlots| > 0
  {
    (free + [bgSlots[0]], bgSlots)
  }

  /** The end of main on slot indices: FreeTexture(bg) returns the slots `bg` holds. */
  function ShutdownBgSlots(free: seq<nat>, bgSlots: seq<nat>): seq<nat>
  {
    free + bgSlots
  }

  /**
   * However sound the state was, finalize followed by shutdown puts the
   * old background's base slot on the free list twice.
   */
  lemma {:induction false} FinalizeThenShutdownFreesTwice(free: seq<nat>, bgSlots: seq<nat>, n: nat)
    requires |bgSlots| > 0 && multiset(free) + multiset(bgSlots) <= SlotRange(n)
    ensures var (f1, b1) := FinalizeBgSlotsAsWritten(free, bgSlots);
      var f2 := ShutdownBgSlots(f1, b1);
      && multiset(f2)[bgSlots[0]] == 2
      && !(multiset(f2) <= SlotRange(n))
  {
    var idx := bgSlots[0];
    SlotRangeCount(n, idx);
    assert bgSlots == [idx] + bgSlots[1..];
    assert multiset(bgSlots)[idx] == 1 + multiset(bgSlots[1..])[idx];
    assert multiset(free)[idx] == 0 && multiset(bgSlots[1..])[idx] == 0;
    var f2 := free + [idx] + bgSlots;
    assert multiset(f2)[idx] == multiset(free)[idx] + 1 + multiset(bgSlots)[idx];
  }

  // ------------------------------------------------------------- uploads

  /** What LoadTextureFromMemory yields for one frame's bytes: failure, or a resource and the image size. */
  datatype FrameUpload = FrameUploadFailed | FrameUploaded(texRes: nat, width: int, height: int)

  /** What DX12_CreateTextureFromImageBytes yields for the job's bytes. */
  datatype BgUpload = BgUploadFailed | BgUploaded(texRes: nat, uploadRes: nat)

  /** The frames LoadTextureFromMemory accepts, in order. */
  function Uploaded(work: seq<seq<bv8>>, upload: seq<bv8> -> FrameUpload): (r: seq<FrameUpload>)
    decreases |work|
    ensures |r| <= |work|
    ensures forall u :: u in r ==> u.FrameUploaded?
  {
    if work == [] then []
    else
      var last := upload(work[|work| - 1]);
      Uploaded(work[..|work| - 1], upload) + (if last.FrameUploaded? then [last] else [])
  }

  /** The descriptor pair of slot `idx`, as Alloc hands it out. */
  function SrvAt(g: Geometry, idx: nat): LoadingSrv
  {
    LoadingSrv(HandleAt(g.startCpu, g.increment, idx), HandleAt(g.startGpu, g.increment, idx))
  }

  function SrvsAt(g: Geometry, idxs: seq<nat>): (r: seq<LoadingSrv>)
    ensures |r| == |idxs| && forall j :: 0 <= j < |idxs| ==> r[j] == SrvAt(g, idxs[j])
  {
    seq(|idxs|, j requires 0 <= j < |idxs| => SrvAt(g, idxs[j]))
  }

  /** The loading frames PumpTexturesToGPU builds: the GPU handle as id, and the image size. */
  function FramesAt(g: Geometry, idxs: seq<nat>, ups: seq<FrameUpload>): (r: seq<Texture>)
    requires |idxs| == |ups| && forall u :: u in ups ==> u.FrameUploaded?
    ensures |r| == |idxs|
  {
    seq(|idxs|, j requires 0 <= j < |idxs| =>
      EmptyTexture.(id := HandleAt(g.startGpu, g.increment, idxs[j]), width := ups[j].width, height := ups[j].height))
  }

  /** A texture with no descriptor handles: FreeTexture returns no slot for it. */
  predicate NoDescriptors(t: Texture)
  {
    t.baseCpu == 0 && t.baseGpu == 0 && t.emissiveCpu == 0 && t.emissiveGpu == 0
  }

  /** No texture of the list has a descriptor handle. */
  ghost predicate AllBare(ts: seq<Texture>)
    decreases |ts|
  {
    ts == [] || (AllBare(ts[..|ts| - 1]) && NoDescriptors(ts[|ts| - 1]))
  }

  lemma {:induction false} AllBareIff(ts: seq<Texture>)
    decreases |ts|
    ensures AllBare(ts) <==> forall i :: 0 <= i < |ts| ==> NoDescriptors(ts[i])
  {
    if ts != [] {
      var init := ts[..|ts| - 1];
      AllBareIff(init);
      assert forall i :: 0 <= i < |init| ==> init[i] == ts[i];
    }
  }

  /** The slots `bg` owns: those FreeTexture(bg) returns, which the shutdown path runs only while BgTexture is set. */
  function BgSlots(g: Geometry, bgTexture: nat, bg: Texture, backend: RenderBackend): seq<nat>
    requires TextureFreeable(g, bg)
  {
    if bgTexture != 0 then ReleaseSlots(g, bg, backend) else []
  }

  /** The slot a submitted upload owns until finalize. */
  function JobSlots(g: Geometry, job: BgJob): seq<nat>
    requires job.uploadSubmitted ==> InHeap(g, job.newCpu, job.newGpu)
  {
    if job.uploadSubmitted then [SlotOf(g.startCpu, g.increment, job.newCpu)] else []
  }

  // ------------------------------------------------------ slot ownership

  /** The renderer's records that own descriptor slots. */
  datatype Records = Records(
    loadingSrvs: seq<LoadingSrv>, bgTexture: nat, bg: Texture, job: BgJob, deferred: seq<DeferredFree>)

  /** Every record holds handles the allocator accepts back; `bg` is the texture BgTexture names. */
  ghost predicate RecordsShaped(g: Geometry, r: Records)
  {
    && r.bgTexture == r.bg.id
    && TextureFreeable(g, r.bg)
    && SrvsInHeap(g, r.loadingSrvs)
    && QueueFreeable(g, r.deferred)
    && (r.job.uploadSubmitted ==> InHeap(g, r.job.newCpu, r.job.newGpu) && r.job.newTex == r.job.newGpu)
  }

  /** The slots the records own: the loading icons, the background, a submitted upload and the queue. */
  ghost function OwnedSlots(g: Geometry, backend: RenderBackend, r: Records): multiset<nat>
    requires RecordsShaped(g, r)
  {
    Bag(LoadingSlots(g, r.loadingSrvs)) + Bag(BgSlots(g, r.bgTexture, r.bg, backend))
    + Bag(JobSlots(g, r.job)) + Bag(DeferredSlots(g, r.deferred, backend))
  }

  /** Replacing the job swaps its slots for the new job's and leaves the other owners alone. */
  lemma {:induction false} OwnedReplaceJob(g: Geometry, backend: RenderBackend, r: Records, j: BgJob)
    requires RecordsShaped(g, r)
    requires j.uploadSubmitted ==> InHeap(g, j.newCpu, j.newGpu) && j.newTex == j.newGpu
    ensures RecordsShaped(g, r.(job := j))
    ensures OwnedSlots(g, backend, r.(job := j)) + Bag(JobSlots(g, r.job))
      == OwnedSlots(g, backend, r) + Bag(JobSlots(g, j))
  {
  }

  /** Replacing the background swaps its slots for the new one's. */
  lemma {:induction false} OwnedReplaceBg(g: Geometry, backend: RenderBackend, r: Records, bgTexture: nat, bg: Texture)
    requires RecordsShaped(g, r)
    requires bgTexture == bg.id && TextureFreeable(g, bg)
    ensures RecordsShaped(g, r.(bgTexture := bgTexture, bg := bg))
    ensures OwnedSlots(g, backend, r.(bgTexture := bgTexture, bg := bg)) + Bag(BgSlots(g, r.bgTexture, r.bg, backend))
      == OwnedSlots(g, backend, r) + Bag(BgSlots(g, bgTexture, bg, backend))
  {
  }

  /** Replacing the loading-icon records swaps their slots for the new ones'. */
  lemma {:induction false} OwnedReplaceLoading(g: Geometry, backend: RenderBackend, r: Records, s: seq<LoadingSrv>)
    requires RecordsShaped(g, r) && SrvsInHeap(g, s)
    ensures RecordsShaped(g, r.(loadingSrvs := s))
    ensures OwnedSlots(g, backend, r.(loadingSrvs := s)) + Bag(LoadingSlots(g, r.loadingSrvs))
      == OwnedSlots(g, backend, r) + Bag(LoadingSlots(g, s))
  {
  }

  /** Replacing the queue swaps its slots for the new queue's. */
  lemma {:induction false} OwnedReplaceDeferred(g: Geometry, backend: RenderBackend, r: Records, q: seq<DeferredFree>)
    requires RecordsShaped(g, r) && QueueFreeable(g, q)
    ensures RecordsShaped(g, r.(deferred := q))
    ensures OwnedSlots(g, backend, r.(deferred := q)) + Bag(DeferredSlots(g, r.deferred, backend))
      == OwnedSlots(g, backend, r) + Bag(DeferredSlots(g, q, backend))
  {
  }

  /** An owner grows by `extra` and nothing else changes. */
  lemma {:induction false} AddOwned(own0: multiset<nat>, own1: multiset<nat>, c0: multiset<nat>, extra: multiset<nat>)
    requires own1 + c0 == own0 + (c0 + extra)
    ensures own1 == own0 + extra
  {
    forall x
      ensures own1[x] == (own0 + extra)[x]
    {
      assert (own1 + c0)[x] == (own0 + (c0 + extra))[x];
    }
  }

  /**
   * The accounting step of every operation: an owner's slots `c0` become
   * `c1`, and the free list gives up at most what the owner gains.
   */
  lemma {:induction false} Rebalance(free0: multiset<nat>, free1: multiset<nat>, own0: multiset<nat>, own1: multiset<nat>,
                  c0: multiset<nat>, c1: multiset<nat>, range: multiset<nat>)
    requires free0 + own0 <= range
    requires own1 + c0 == own0 + c1
    requires free1 + c1 <= free0 + c0
    ensures free1 + own1 <= range
  {
    forall x
      ensures (free1 + own1)[x] <= range[x]
    {
      assert (own1 + c0)[x] == (own0 + c1)[x];
      assert (free1 + c1)[x] <= (free0 + c0)[x];
      assert (free0 + own0)[x] <= range[x];
    }
  }

  /**
   * The renderer's invariant on values: the heap's handles are not null,
   * every record holds handles the allocator accepts back, the loading
   * frames hold none, and no slot is free or owned more often than the
   * heap has it, so nothing is freed twice.
   */
  ghost predicate Consistent(g: Geometry, backend: RenderBackend, r: Records, frames: seq<Texture>,
                             free: seq<nat>, capacity: nat)
  {
    && NonNullGeometry(g)
    && RecordsShaped(g, r)
    && AllBare(frames)
    && Bag(free) + OwnedSlots(g, backend, r) <= SlotRange(capacity)
  }

  /** The start-up state over a free list that holds no slot too often. */
  lemma {:induction false} ConsistentInitially(g: Geometry, backend: RenderBackend, free: seq<nat>, capacity: nat)
    requires NonNullGeometry(g) && multiset(free) <= SlotRange(capacity)
    ensures Consistent(g, backend, Records([], 0, EmptyTexture, IdleJob, []), [], free, capacity)
  {
    BagIsMultiset(free);
    assert OwnedSlots(g, backend, Records([], 0, EmptyTexture, IdleJob, [])) == multiset{};
  }

  /** Queueing a texture whose slots are handed over keeps the invariant. */
  lemma {:induction false} ConsistentDefer(g: Geometry, backend: RenderBackend, r: Records, frames: seq<Texture>,
                        free: seq<nat>, capacity: nat, e: DeferredFree)
    requires Consistent(g, backend, r, frames, free, capacity) && TextureFreeable(g, e.tex)
    requires Bag(free) + OwnedSlots(g, backend, r) + Bag(ReleaseSlots(g, e.tex, backend)) <= SlotRange(capacity)
    ensures Consistent(g, backend, r.(deferred := r.deferred + [e]), frames, free, capacity)
  {
    DeferredSlotsAppend(g, r.deferred, e, backend);
    OwnedReplaceDeferred(g, backend, r, r.deferred + [e]);
    BagAppend(DeferredSlots(g, r.deferred, backend), ReleaseSlots(g, e.tex, backend));
    AddOwned(OwnedSlots(g, backend, r), OwnedSlots(g, backend, r.(deferred := r.deferred + [e])),
      Bag(DeferredSlots(g, r.deferred, backend)), Bag(ReleaseSlots(g, e.tex, backend)));
  }

  /** Freeing the ready entries and keeping the pending ones keeps the invariant. */
  lemma {:induction false} ConsistentProcess(g: Geometry, backend: RenderBackend, r: Records, frames: seq<Texture>,
                          free: seq<nat>, capacity: nat, completed: nat)
    requires Consistent(g, backend, r, frames, free, capacity)
    ensures QueueFreeable(g, Ready(r.deferred, completed))
    ensures Consistent(g, backend, r.(deferred := Pending(r.deferred, completed)), frames,
      free + DeferredSlots(g, Ready(r.deferred, completed), backend), capacity)
  {
    var kept := Pending(r.deferred, completed);
    DeferredSlotsSplit(g, r.deferred, backend, completed);
    OwnedReplaceDeferred(g, backend, r, kept);
    var ready := DeferredSlots(g, Ready(r.deferred, completed), backend);
    BagAppend(free, ready);
    Rebalance(Bag(free), Bag(free + ready), OwnedSlots(g, backend, r), OwnedSlots(g, backend, r.(deferred := kept)),
      Bag(DeferredSlots(g, r.deferred, backend)), Bag(DeferredSlots(g, kept, backend)), SlotRange(capacity));
  }

  /**
   * A new job keeps the invariant when the free list stays as it is and
   * the new job owns no slot or the old job's, or when the free list gives
   * up exactly the slot of a job that replaces one owning none.
   */
  lemma {:induction false} ConsistentJob(g: Geometry, backend: RenderBackend, r: Records, frames: seq<Texture>,
                      free0: seq<nat>, free1: seq<nat>, capacity: nat, j: BgJob)
    requires Consistent(g, backend, r, frames, free0, capacity)
    requires j.uploadSubmitted ==> InHeap(g, j.newCpu, j.newGpu) && j.newTex == j.newGpu
    requires || (free1 == free0 && (JobSlots(g, j) == [] || JobSlots(g, j) == JobSlots(g, r.job)))
             || (free0 == free1 + JobSlots(g, j) && JobSlots(g, r.job) == [])
    ensures Consistent(g, backend, r.(job := j), frames, free1, capacity)
  {
    OwnedReplaceJob(g, backend, r, j);
    BagAppend(free1, JobSlots(g, j));
    Rebalance(Bag(free0), Bag(free1), OwnedSlots(g, backend, r), OwnedSlots(g, backend, r.(job := j)),
      Bag(JobSlots(g, r.job)), Bag(JobSlots(g, j)), SlotRange(capacity));
  }

  /**
   * A new background keeps the invariant when the old one's slots go back
   * to the free list and the new one owns none, or when the old one owns
   * none and the free list gives up the slots `taken`, which the new one
   * owns (or leaks, when BgTexture stays null).
   */
  lemma {:induction false} ConsistentBg(g: Geometry, backend: RenderBackend, r: Records, frames: seq<Texture>,
                     free0: seq<nat>, free1: seq<nat>, capacity: nat, bgTexture: nat, bg: Texture, taken: seq<nat>)
    requires Consistent(g, backend, r, frames, free0, capacity)
    requires bgTexture == bg.id && TextureFreeable(g, bg)
    requires || (free1 == free0 + BgSlots(g, r.bgTexture, r.bg, backend) && BgSlots(g, bgTexture, bg, backend) == [])
             || (&& Bag(free0) == Bag(free1) + Bag(taken)
                 && BgSlots(g, r.bgTexture, r.bg, backend) == []
                 && (BgSlots(g, bgTexture, bg, backend) == taken || BgSlots(g, bgTexture, bg, backend) == []))
    ensures Consistent(g, backend, r.(bgTexture := bgTexture, bg := bg), frames, free1, capacity)
  {
    OwnedReplaceBg(g, backend, r, bgTexture, bg);
    BagAppend(free0, BgSlots(g, r.bgTexture, r.bg, backend));
    Rebalance(Bag(free0), Bag(free1), OwnedSlots(g, backend, r),
      OwnedSlots(g, backend, r.(bgTexture := bgTexture, bg := bg)),
      Bag(BgSlots(g, r.bgTexture, r.bg, backend)), Bag(BgSlots(g, bgTexture, bg, backend)), SlotRange(capacity));
  }

  /**
   * Finalizing hands the job's slot to the new background, which holds only
   * the job's descriptor pair, and gives the old background's slots back.
   */
  lemma {:induction false} ConsistentFinalize(g: Geometry, backend: RenderBackend, r: Records, frames: seq<Texture>,
                           free: seq<nat>, capacity: nat, j: BgJob, bg: Texture)
    requires Consistent(g, backend, r, frames, free, capacity)
    requires backend == DX12 && r.job.uploadSubmitted && !j.uploadSubmitted
    requires bg == EmptyTexture.(id := r.job.newTex, baseCpu := r.job.newCpu, baseGpu := r.job.newGpu)
    ensures Consistent(g, backend, r.(bgTexture := bg.id, bg := bg, job := j), frames,
      free + BgSlots(g, r.bgTexture, r.bg, backend), capacity)
  {
    var r1 := r.(job := j);
    var r2 := r1.(bgTexture := bg.id, bg := bg);
    assert r2 == r.(bgTexture := bg.id, bg := bg, job := j);
    OwnedReplaceJob(g, backend, r, j);
    OwnedReplaceBg(g, backend, r1, bg.id, bg);
    assert BgSlots(g, bg.id, bg, backend) == JobSlots(g, r.job);
    var old0 := BgSlots(g, r.bgTexture, r.bg, backend);
    BagAppend(free, old0);
    Rebalance(Bag(free), Bag(free + old0), OwnedSlots(g, backend, r), OwnedSlots(g, backend, r2),
      Bag(old0), multiset{}, SlotRange(capacity));
  }

  /**
   * New loading-icon records and loading frames without descriptors keep
   * the invariant when the old records' slots all go back and the new list
   * is empty, or when the free list and the records together keep their slots.
   */
  lemma {:induction false} ConsistentLoading(g: Geometry, backend: RenderBackend, r: Records, frames0: seq<Texture>, frames1: seq<Texture>,
                          free0: seq<nat>, free1: seq<nat>, capacity: nat, s: seq<LoadingSrv>)
    requires Consistent(g, backend, r, frames0, free0, capacity)
    requires SrvsInHeap(g, s) && AllBare(frames1)
    requires || (free1 == free0 + LoadingSlots(g, r.loadingSrvs) && s == [])
             || Bag(free0) + Bag(LoadingSlots(g, r.loadingSrvs)) == Bag(free1) + Bag(LoadingSlots(g, s))
    ensures Consistent(g, backend, r.(loadingSrvs := s), frames1, free1, capacity)
  {
    OwnedReplaceLoading(g, backend, r, s);
    BagAppend(free0, LoadingSlots(g, r.loadingSrvs));
    Rebalance(Bag(free0), Bag(free1), OwnedSlots(g, backend, r), OwnedSlots(g, backend, r.(loadingSrvs := s)),
      Bag(LoadingSlots(g, r.loadingSrvs)), Bag(LoadingSlots(g, s)), SlotRange(capacity));
  }

  // ------------------------------------------------- one lemma per operation

  /** RequestBackgroundReload drops any upload in flight with its slot (a leak, never a double free). */
  lemma {:induction false} ConsistentRequest(g: Geometry, backend: RenderBackend, r: Records, frames: seq<Texture>,
                          free: seq<nat>, capacity: nat, path: string)
    requires Consistent(g, backend, r, frames, free, capacity)
    ensures Consistent(g, backend, r.(job := RequestedJob(path)), frames, free, capacity)
  {
    ConsistentJob(g, backend, r, frames, free, free, capacity, RequestedJob(path));
  }

  /** The worker's delivery changes no flag a slot depends on. */
  lemma {:induction false} ConsistentWorker(g: Geometry, backend: RenderBackend, r: Records, frames: seq<Texture>,
                         free: seq<nat>, capacity: nat, read: Option<seq<bv8>>)
    requires Consistent(g, backend, r, frames, free, capacity)
    ensures Consistent(g, backend, r.(job := WorkerStep(r.job, read)), frames, free, capacity)
  {
    ConsistentJob(g, backend, r, frames, free, free, capacity, WorkerStep(r.job, read));
  }

  /** The job after a successful submit of slot `idx` with the fence value `fv`. */
  function SubmittedJob(j: BgJob, g: Geometry, idx: nat, up: BgUpload, fv: nat): BgJob
    requires up.BgUploaded?
  {
    var gpu := HandleAt(g.startGpu, g.increment, idx);
    j.(uploadSubmitted := true, newTex := gpu, fenceValue := fv, newTextureRes := up.texRes,
       newUploadRes := up.uploadRes, newCpu := HandleAt(g.startCpu, g.increment, idx), newGpu := gpu)
  }

  /**
   * SubmitBgUploadDX12 as written, on the job alone: nothing unless the
   * job is ready, a return that leaves the job when it holds no bytes
   * (main.cpp:1000-1004), and otherwise the job SubmittedJob records when
   * the upload succeeds.
   */
  function SubmitJobAsWritten(j: BgJob, backend: RenderBackend, g: Geometry, idx: nat, up: BgUpload, fv: nat): (r: BgJob)
    ensures r.uploadSubmitted <==> j.uploadSubmitted || (SubmitReady(j, backend) && j.bytes != [] && up.BgUploaded?)
    ensures j.bytes == [] ==> r == j
  {
    if !SubmitReady(j, backend) || j.bytes == [] || !up.BgUploaded? then j else SubmittedJob(j, g, idx, up, fv)
  }

  /**
   * As written, a file of zero bytes is read as an empty buffer with
   * bytes_ready set (main.cpp:743-758). On DX12 the submit step is then
   * enabled on every frame and returns leaving the job as it is, so
   * finalize is never enabled and isLoading stays set.
   */
  lemma {:induction false} EmptyFileLeavesLoadingStuck(path: string, g: Geometry, idx: nat, up: BgUpload, fv: nat,
                                                      completed: nat)
    ensures var j := WorkerStepAsWritten(RequestedJob(path), Some([]));
      && SubmitReady(j, DX12) && j.bytes == []
      && SubmitJobAsWritten(j, DX12, g, idx, up, fv) == j
      && !FinalizeReady(j, DX12, completed)
  {
  }

  /** A submit with no bytes abandons the job; no slot moves. */
  lemma {:induction false} ConsistentAbandon(g: Geometry, backend: RenderBackend, r: Records, frames: seq<Texture>,
                          free: seq<nat>, capacity: nat)
    requires Consistent(g, backend, r, frames, free, capacity) && SubmitReady(r.job, backend)
    ensures Consistent(g, backend, r.(job := r.job.(requested := false, bytesReady := false)), frames, free, capacity)
  {
    ConsistentJob(g, backend, r, frames, free, free, capacity, r.job.(requested := false, bytesReady := false));
  }

  /** A successful submit moves the slot at the back of the free list to the job. */
  lemma {:induction false} ConsistentSubmit(g: Geometry, backend: RenderBackend, r: Records, frames: seq<Texture>,
                         free: seq<nat>, capacity: nat, up: BgUpload, fv: nat)
    requires Consistent(g, backend, r, frames, free, capacity) && SubmitReady(r.job, backend)
    requires |free| > 0 && up.BgUploaded?
    ensures Consistent(g, backend, r.(job := SubmittedJob(r.job, g, free[|free| - 1], up, fv)), frames,
      free[..|free| - 1], capacity)
  {
    var idx := free[|free| - 1];
    var j := SubmittedJob(r.job, g, idx, up, fv);
    HandleIndex(g.startCpu, g.increment, idx);
    HandleIndex(g.startGpu, g.increment, idx);
    assert JobSlots(g, j) == [idx];
    assert free == free[..|free| - 1] + [idx];
    ConsistentJob(g, backend, r, frames, free, free[..|free| - 1], capacity, j);
  }

  /**
   * The DX11 apply step: the old background owns no slot on DX11, the new
   * one (a loaded texture, or none) holds no descriptor, and the job ends.
   */
  lemma {:induction false} ConsistentApplyDX11(g: Geometry, backend: RenderBackend, r: Records, frames: seq<Texture>,
                            free: seq<nat>, capacity: nat, bgTexture: nat, bg: Texture)
    requires Consistent(g, backend, r, frames, free, capacity) && backend == DX11
    requires bgTexture == bg.id && TextureFreeable(g, bg)
    ensures Consistent(g, backend, r.(bgTexture := bgTexture, bg := bg, job := r.job.(requested := false, bytesReady := false)),
      frames, free, capacity)
  {
    assert free + BgSlots(g, r.bgTexture, r.bg, backend) == free;
    ConsistentBg(g, backend, r, frames, free, free, capacity, bgTexture, bg, []);
    var r1 := r.(bgTexture := bgTexture, bg := bg);
    ConsistentJob(g, backend, r1, frames, free, free, capacity, r.job.(requested := false, bytesReady := false));
    assert r1.(job := r.job.(requested := false, bytesReady := false))
      == r.(bgTexture := bgTexture, bg := bg, job := r.job.(requested := false, bytesReady := false));
  }

  /** SwapLoadingIconTheme: on DX12 every record's slot goes back; the frames are dropped. */
  lemma {:induction false} ConsistentSwap(g: Geometry, backend: RenderBackend, r: Records, frames: seq<Texture>,
                       free: seq<nat>, capacity: nat)
    requires Consistent(g, backend, r, frames, free, capacity)
    ensures backend == DX12 ==>
      Consistent(g, backend, r.(loadingSrvs := []), [], free + LoadingSlots(g, r.loadingSrvs), capacity)
    ensures backend == DX11 ==> Consistent(g, backend, r, [], free, capacity)
  {
    if backend == DX12 {
      ConsistentLoading(g, backend, r, frames, [], free, free + LoadingSlots(g, r.loadingSrvs), capacity, []);
    } else {
      assert Bag(free) + Bag(LoadingSlots(g, r.loadingSrvs)) == Bag(free) + Bag(LoadingSlots(g, r.loadingSrvs));
      ConsistentLoading(g, backend, r, frames, [], free, free, capacity, r.loadingSrvs);
      assert r.(loadingSrvs := r.loadingSrvs) == r;
    }
  }

  /** Shutdown: the loading frames free nothing and the background's slots go back. */
  lemma {:induction false} ConsistentShutdown(g: Geometry, backend: RenderBackend, r: Records, frames: seq<Texture>,
                           free: seq<nat>, capacity: nat)
    requires Consistent(g, backend, r, frames, free, capacity)
    ensures Consistent(g, backend, r.(bgTexture := 0, bg := if r.bgTexture != 0 then EmptyTexture else r.bg), [],
      free + BgSlots(g, r.bgTexture, r.bg, backend), capacity)
  {
    var bg := if r.bgTexture != 0 then EmptyTexture else r.bg;
    ConsistentBg(g, backend, r, frames, free, free + BgSlots(g, r.bgTexture, r.bg, backend), capacity, 0, bg, []);
    var r1 := r.(bgTexture := 0, bg := bg);
    assert Bag(free + BgSlots(g, r.bgTexture, r.bg, backend)) + Bag(LoadingSlots(g, r1.loadingSrvs))
      == Bag(free + BgSlots(g, r.bgTexture, r.bg, backend)) + Bag(LoadingSlots(g, r1.loadingSrvs));
    ConsistentLoading(g, backend, r1, frames, [], free + BgSlots(g, r.bgTexture, r.bg, backend),
      free + BgSlots(g, r.bgTexture, r.bg, backend), capacity, r1.loadingSrvs);
    assert r1.(loadingSrvs := r1.loadingSrvs) == r1;
  }

  /**
   * The slots of PumpTexturesToGPU: the free list, the loading-icon records
   * and the background together hold no slot more often than before.
   */
  ghost predicate NoSlotGained(g: Geometry, backend: RenderBackend,
                               free0: seq<nat>, s0: seq<LoadingSrv>, bgTexture0: nat, bg0: Texture,
                               free1: seq<nat>, s1: seq<LoadingSrv>, bgTexture1: nat, bg1: Texture)
    requires SrvsInHeap(g, s0) && SrvsInHeap(g, s1) && TextureFreeable(g, bg0) && TextureFreeable(g, bg1)
  {
    Bag(free1) + Bag(LoadingSlots(g, s1)) + Bag(BgSlots(g, bgTexture1, bg1, backend))
      <= Bag(free0) + Bag(LoadingSlots(g, s0)) + Bag(BgSlots(g, bgTexture0, bg0, backend))
  }

  /** PumpTexturesToGPU keeps the invariant: the records and frames PumpEffect builds, over the free list it leaves. */
  lemma {:induction false} ConsistentPump(g: Geometry, r: Records, frames: seq<Texture>, free: seq<nat>, capacity: nat,
                       bgPath: string, comOk: bool, factoryOk: bool, load: string -> LoadOutcome,
                       work: seq<seq<bv8>>, upload: seq<bv8> -> FrameUpload)
    requires Consistent(g, DX12, r, frames, free, capacity)
    requires |free| >= |work| + (if r.bgTexture == 0 then 2 else 0)
    ensures var e := PumpEffect(g, free, r.bgTexture, r.bg, bgPath, comOk, factoryOk, load, work, upload, r.loadingSrvs);
      Consistent(g, DX12, r.(loadingSrvs := e.srvs, bgTexture := e.bgTexture, bg := e.bg), e.frames, e.free, capacity)
  {
    var e := PumpEffect(g, free, r.bgTexture, r.bg, bgPath, comOk, factoryOk, load, work, upload, r.loadingSrvs);
    PumpEffectSound(g, free, r.bgTexture, r.bg, bgPath, comOk, factoryOk, load, work, upload, r.loadingSrvs);
    var r1 := r.(loadingSrvs := e.srvs);
    var r2 := r1.(bgTexture := e.bgTexture, bg := e.bg);
    assert r2 == r.(loadingSrvs := e.srvs, bgTexture := e.bgTexture, bg := e.bg);
    OwnedReplaceLoading(g, DX12, r, e.srvs);
    OwnedReplaceBg(g, DX12, r1, e.bgTexture, e.bg);
    Rebalance2(Bag(free), Bag(e.free), OwnedSlots(g, DX12, r), OwnedSlots(g, DX12, r1), OwnedSlots(g, DX12, r2),
      Bag(LoadingSlots(g, r.loadingSrvs)), Bag(LoadingSlots(g, e.srvs)),
      Bag(BgSlots(g, r.bgTexture, r.bg, DX12)), Bag(BgSlots(g, e.bgTexture, e.bg, DX12)), SlotRange(capacity));
  }

  /** Rebalance over two owners that change at once. */
  lemma {:induction false} Rebalance2(free0: multiset<nat>, free1: multiset<nat>,
                   own0: multiset<nat>, own1: multiset<nat>, own2: multiset<nat>,
                   a0: multiset<nat>, a1: multiset<nat>, b0: multiset<nat>, b1: multiset<nat>, range: multiset<nat>)
    requires free0 + own0 <= range
    requires own1 + a0 == own0 + a1 && own2 + b0 == own1 + b1
    requires free1 + a1 + b1 <= free0 + a0 + b0
    ensures free1 + own2 <= range
  {
    forall x
      ensures (free1 + own2)[x] <= range[x]
    {
      assert (own1 + a0)[x] == (own0 + a1)[x];
      assert (own2 + b0)[x] == (own1 + b1)[x];
      assert (free1 + a1 + b1)[x] <= (free0 + a0 + b0)[x];
      assert (free0 + own0)[x] <= range[x];
    }
  }

  /**
   * The loop of ProcessDeferredTextureFrees over g_deferredFrees: an entry
   * whose fence value `completed` has reached is released with FreeTexture
   * and erased, otherwise the iterator moves on.
   */
  method FreeReadyTextures(q: seq<DeferredFree>, completed: nat, backend: RenderBackend, heap: DescriptorHeapAllocator)
      returns (kept: seq<DeferredFree>)
    requires QueueFreeable(heap.Geom(), q)
    modifies heap
    ensures kept == Pending(q, completed)
    ensures QueueFreeable(old(heap.Geom()), Ready(q, completed))
    ensures heap.freeIndices == old(heap.freeIndices) + DeferredSlots(old(heap.Geom()), Ready(q, completed), backend)
    ensures OnlyFreeListChanged(heap)
  {
    ghost var g := heap.Geom();
    ghost var free0 := heap.freeIndices;
    kept := [];
    for j := 0 to |q|
      invariant kept == Pending(q[..j], completed)
      invariant heap.Geom() == g && OnlyFreeListChanged(heap)
      invariant QueueFreeable(g, Ready(q[..j], completed))
      invariant heap.freeIndices == free0 + DeferredSlots(g, Ready(q[..j], completed), backend)
    {
      kept := VisitDeferred(q, j, completed, backend, heap, g, free0, kept);
    }
    assert q[..|q|] == q;
  }

  /** The body of the loop: entry j is freed when ready and kept otherwise. */
  method VisitDeferred(q: seq<DeferredFree>, j: nat, completed: nat, backend: RenderBackend,
                       heap: DescriptorHeapAllocator, ghost g: Geometry, ghost free0: seq<nat>, kept: seq<DeferredFree>)
      returns (kept': seq<DeferredFree>)
    requires j < |q| && g == heap.Geom() && QueueFreeable(g, q)
    requires kept == Pending(q[..j], completed) && QueueFreeable(g, Ready(q[..j], completed))
    requires heap.freeIndices == free0 + DeferredSlots(g, Ready(q[..j], completed), backend)
    modifies heap
    ensures heap.Geom() == g && OnlyFreeListChanged(heap)
    ensures kept' == Pending(q[..j + 1], completed) && QueueFreeable(g, Ready(q[..j + 1], completed))
    ensures heap.freeIndices == free0 + DeferredSlots(g, Ready(q[..j + 1], completed), backend)
  {
    ReadyPendingPrefix(q, j, completed);
    if completed >= q[j].fenceValue {
      QueueFreeableAt(g, q, j);
      ReleaseReady(q[j], Ready(q[..j], completed), backend, heap, g, free0);
      assert Ready(q[..j + 1], completed) == Ready(q[..j], completed) + [q[j]];
      kept' := kept;
    } else {
      assert Ready(q[..j + 1], completed) == Ready(q[..j], completed);
      kept' := kept + [q[j]];
    }
  }

  /** One ready entry of the queue: FreeTexture appends its slots to the free list. */
  method ReleaseReady(e: DeferredFree, ghost ready: seq<DeferredFree>, backend: RenderBackend,
                      heap: DescriptorHeapAllocator, ghost g: Geometry, ghost free0: seq<nat>)
    requires g == heap.Geom()
    requires QueueFreeable(g, ready) && TextureFreeable(g, e.tex)
    requires heap.freeIndices == free0 + DeferredSlots(g, ready, backend)
    modifies heap
    ensures heap.Geom() == g && OnlyFreeListChanged(heap)
    ensures QueueFreeable(g, ready + [e])
    ensures heap.freeIndices == free0 + DeferredSlots(g, ready + [e], backend)
  {
    DeferredSlotsAppend(g, ready, e, backend);
    QueueFreeableSnoc(g, ready, e);
    var _, _ := FreeTexture(e.tex, backend, heap);
    assert free0 + DeferredSlots(g, ready, backend) + ReleaseSlots(g, e.tex, backend)
      == free0 + (DeferredSlots(g, ready, backend) + ReleaseSlots(g, e.tex, backend));
  }

  // ------------------------------------------------ descriptor work helpers

  /**
   * The descriptor work of SubmitBgUploadDX12: Alloc, then the upload of
   * `bytes`; a failed upload frees the pair again, which leaves the free
   * list as it was.
   */
  method AllocForUpload(bytes: seq<bv8>, create: seq<bv8> -> BgUpload, heap: DescriptorHeapAllocator)
      returns (cpu: nat, gpu: nat, up: BgUpload)
    requires |heap.freeIndices| > 0 && NonNullGeometry(heap.Geom())
    modifies heap
    ensures up == create(bytes) && OnlyFreeListChanged(heap)
    ensures var g, idx := old(heap.Geom()), old(heap.freeIndices[|heap.freeIndices| - 1]);
      && cpu == HandleAt(g.startCpu, g.increment, idx) && gpu == HandleAt(g.startGpu, g.increment, idx)
      && InHeap(g, cpu, gpu) && SlotOf(g.startCpu, g.increment, cpu) == idx
    ensures heap.freeIndices
      == if up.BgUploaded? then old(heap.freeIndices[..|heap.freeIndices| - 1]) else old(heap.freeIndices)
  {
    ghost var free0 := heap.freeIndices;
    ghost var g := heap.Geom();
    cpu, gpu := heap.Alloc();
    HandleIndex(g.startCpu, g.increment, free0[|free0| - 1]);
    HandleIndex(g.startGpu, g.increment, free0[|free0| - 1]);
    up := create(bytes);
    if !up.BgUploaded? {
      heap.Free(cpu, gpu);
      AllocThenFreeRestores(free0, g.startCpu, g.increment);
    }
  }

  /** Every recorded pair of a list in the heap is in the heap. */
  lemma {:induction false} SrvsInHeapAt(g: Geometry, s: seq<LoadingSrv>, i: nat)
    requires SrvsInHeap(g, s) && i < |s|
    decreases |s|
    ensures InHeap(g, s[i].cpu, s[i].gpu)
  {
    if i < |s| - 1 {
      SrvsInHeapAt(g, s[..|s| - 1], i);
    }
  }

  /** The release loop of SwapLoadingIconTheme: Free on every recorded pair, in order. */
  method FreeLoadingSrvs(srvs: seq<LoadingSrv>, heap: DescriptorHeapAllocator)
    requires SrvsInHeap(heap.Geom(), srvs)
    modifies heap
    ensures OnlyFreeListChanged(heap)
    ensures heap.freeIndices == old(heap.freeIndices) + LoadingSlots(heap.Geom(), srvs)
  {
    ghost var g := heap.Geom();
    ghost var free0 := heap.freeIndices;
    for i := 0 to |srvs|
      invariant heap.Geom() == g && OnlyFreeListChanged(heap)
      invariant SrvsInHeap(g, srvs[..i])
      invariant heap.freeIndices == free0 + LoadingSlots(g, srvs[..i])
    {
      FreeLoadingSrv(srvs, i, heap, g, free0);
    }
    assert srvs[..|srvs|] == srvs;
  }

  /** The body of the release loop: Free on record i appends its slot. */
  method FreeLoadingSrv(srvs: seq<LoadingSrv>, i: nat, heap: DescriptorHeapAllocator,
                        ghost g: Geometry, ghost free0: seq<nat>)
    requires i < |srvs| && g == heap.Geom() && SrvsInHeap(g, srvs) && SrvsInHeap(g, srvs[..i])
    requires heap.freeIndices == free0 + LoadingSlots(g, srvs[..i])
    modifies heap
    ensures heap.Geom() == g && OnlyFreeListChanged(heap)
    ensures SrvsInHeap(g, srvs[..i + 1])
    ensures heap.freeIndices == free0 + LoadingSlots(g, srvs[..i + 1])
  {
    assert srvs[..i + 1] == srvs[..i] + [srvs[i]];
    SrvsInHeapAt(g, srvs, i);
    LoadingSlotsAppend(g, srvs[..i], srvs[i]);
    heap.Free(srvs[i].cpu, srvs[i].gpu);
  }

  /** Uploading one more frame appends its upload when it succeeds. */
  lemma {:induction false} UploadedSnoc(work: seq<seq<bv8>>, x: seq<bv8>, upload: seq<bv8> -> FrameUpload)
    ensures Uploaded(work + [x], upload)
      == Uploaded(work, upload) + (if upload(x).FrameUploaded? then [upload(x)] else [])
  {
    assert (work + [x])[..|work|] == work;
  }

  /** A prefix of the frames never yields more uploads than the whole list. */
  lemma {:induction false} UploadedPrefix(work: seq<seq<bv8>>, upload: seq<bv8> -> FrameUpload, i: nat)
    requires i <= |work|
    decreases |work|
    ensures |Uploaded(work[..i], upload)| <= |Uploaded(work, upload)|
  {
    if i < |work| {
      var init := work[..|work| - 1];
      assert work[..i] == init[..i];
      UploadedPrefix(init, upload, i);
    } else {
      assert work[..i] == work;
    }
  }

  /** The pair of a slot is in the heap, and Free maps it back to the slot. */
  lemma {:induction false} SrvAtInHeap(g: Geometry, idx: nat)
    requires g.increment > 0
    ensures InHeap(g, SrvAt(g, idx).cpu, SrvAt(g, idx).gpu)
    ensures SlotOf(g.startCpu, g.increment, SrvAt(g, idx).cpu) == idx
  {
    HandleIndex(g.startCpu, g.increment, idx);
    HandleIndex(g.startGpu, g.increment, idx);
  }

  lemma {:induction false} SrvsAtSnoc(g: Geometry, idxs: seq<nat>, idx: nat)
    ensures SrvsAt(g, idxs + [idx]) == SrvsAt(g, idxs) + [SrvAt(g, idx)]
  {
  }

  lemma {:induction false} FramesAtSnoc(g: Geometry, idxs: seq<nat>, idx: nat, ups: seq<FrameUpload>, u: FrameUpload)
    requires |idxs| == |ups| && (forall v :: v in ups ==> v.FrameUploaded?) && u.FrameUploaded?
    ensures forall v :: v in ups + [u] ==> v.FrameUploaded?
    ensures FramesAt(g, idxs + [idx], ups + [u])
      == FramesAt(g, idxs, ups) + [EmptyTexture.(id := HandleAt(g.startGpu, g.increment, idx), width := u.width, height := u.height)]
  {
  }

  /** The k+1 first pops are the k first and the next slot from the back. */
  lemma {:induction false} PopOrderSnoc(free: seq<nat>, k: nat)
    requires k < |free|
    ensures PopOrder(free, k + 1) == PopOrder(free, k) + [free[|free| - 1 - k]]
  {
  }

  /**
   * One frame of UploadFrames, corrected: the frame takes a slot; a failed
   * upload gives it back at once, and only an uploaded frame's pair is
   * recorded, next to a loading frame that names its GPU handle.
   */
  method UploadFrame(bytes: seq<bv8>, upload: seq<bv8> -> FrameUpload, heap: DescriptorHeapAllocator,
                     srvs: seq<LoadingSrv>, frames: seq<Texture>)
      returns (srvs': seq<LoadingSrv>, frames': seq<Texture>)
    requires NonNullGeometry(heap.Geom()) && |heap.freeIndices| > 0
    modifies heap
    ensures OnlyFreeListChanged(heap)
    ensures !upload(bytes).FrameUploaded? ==>
      heap.freeIndices == old(heap.freeIndices) && srvs' == srvs && frames' == frames
    ensures upload(bytes).FrameUploaded? ==>
      var idx := old(heap.freeIndices[|heap.freeIndices| - 1]);
      && heap.freeIndices == old(heap.freeIndices[..|heap.freeIndices| - 1])
      && srvs' == srvs + [SrvAt(heap.Geom(), idx)]
      && frames' == frames + [EmptyTexture.(id := HandleAt(heap.heapStartGpu, heap.increment, idx),
                                            width := upload(bytes).width, height := upload(bytes).height)]
  {
    ghost var g := heap.Geom();
    ghost var free0 := heap.freeIndices;
    var cpu, gpu := heap.Alloc();
    SrvAtInHeap(g, free0[|free0| - 1]);
    var u := upload(bytes);
    if !u.FrameUploaded? {
      heap.Free(cpu, gpu);
      AllocThenFreeRestores(free0, g.startCpu, g.increment);
      return srvs, frames;
    }
    srvs' := srvs + [LoadingSrv(cpu, gpu)];
    frames' := frames + [EmptyTexture.(id := gpu, width := u.width, height := u.height)];
  }

  /**
   * What the frame loop has built after the uploads `done`: the free list
   * lost its |done| back slots, which the new records and loading frames
   * name in pop order.
   */
  ghost predicate UploadInv(g: Geometry, free0: seq<nat>, srvs0: seq<LoadingSrv>, done: seq<FrameUpload>,
                            free: seq<nat>, srvs: seq<LoadingSrv>, frames: seq<Texture>)
  {
    && |done| <= |free0| && (forall u :: u in done ==> u.FrameUploaded?)
    && free == free0[..|free0| - |done|]
    && srvs == srvs0 + SrvsAt(g, PopOrder(free0, |done|))
    && frames == FramesAt(g, PopOrder(free0, |done|), done)
  }

  /** One UploadFrame step keeps UploadInv, with the frame's upload added when it succeeded. */
  lemma {:induction false} UploadInvStep(g: Geometry, free0: seq<nat>, srvs0: seq<LoadingSrv>, done: seq<FrameUpload>,
                      free: seq<nat>, srvs: seq<LoadingSrv>, frames: seq<Texture>, u: FrameUpload,
                      free': seq<nat>, srvs': seq<LoadingSrv>, frames': seq<Texture>)
    requires UploadInv(g, free0, srvs0, done, free, srvs, frames) && |free| > 0
    requires !u.FrameUploaded? ==> free' == free && srvs' == srvs && frames' == frames
    requires u.FrameUploaded? ==>
      && free' == free[..|free| - 1]
      && srvs' == srvs + [SrvAt(g, free[|free| - 1])]
      && frames' == frames + [EmptyTexture.(id := HandleAt(g.startGpu, g.increment, free[|free| - 1]),
                                            width := u.width, height := u.height)]
    ensures UploadInv(g, free0, srvs0, done + (if u.FrameUploaded? then [u] else []), free', srvs', frames')
  {
    if u.FrameUploaded? {
      var k := |done|;
      var idx := free[|free| - 1];
      var pops := PopOrder(free0, k);
      assert k + 1 <= |free0| && free' == free0[..|free0| - (k + 1)] && PopOrder(free0, k + 1) == pops + [idx] by {
        PopStep(free0, k, free);
      }
      assert srvs' == srvs0 + SrvsAt(g, pops + [idx]) by {
        SrvsAtSnoc(g, pops, idx);
        assert srvs' == srvs0 + (SrvsAt(g, pops) + [SrvAt(g, idx)]);
      }
      FramesAtSnoc(g, pops, idx, done, u);
    } else {
      assert done + [] == done;
    }
  }

  /** The next pop takes the slot after the k first ones from the back. */
  lemma {:induction false} PopStep(free0: seq<nat>, k: nat, free: seq<nat>)
    requires k <= |free0| && free == free0[..|free0| - k] && |free| > 0
    ensures k + 1 <= |free0| && free[|free| - 1] == free0[|free0| - 1 - k]
    ensures free[..|free| - 1] == free0[..|free0| - (k + 1)]
    ensures PopOrder(free0, k + 1) == PopOrder(free0, k) + [free[|free| - 1]]
  {
    PopOrderSnoc(free0, k);
  }

  /** The popped slots and the rest of the free list together are the free list. */
  lemma {:induction false} PopSplit(free0: seq<nat>, k: nat)
    requires k <= |free0|
    decreases k
    ensures Bag(free0) == Bag(free0[..|free0| - k]) + Bag(PopOrder(free0, k))
  {
    if k == 0 {
      assert free0[..|free0|] == free0;
      assert PopOrder(free0, 0) == [];
    } else {
      PopSplit(free0, k - 1);
      PopMoves(free0, k);
      MoveOne(Bag(free0), Bag(free0[..|free0| - (k - 1)]), Bag(free0[..|free0| - k]), Bag(PopOrder(free0, k - 1)), Bag(PopOrder(free0, k)), free0[|free0| - k]);
    }
  }

  /** The k-th pop moves free0[|free0| - k] from the rest of the list to the popped slots. */
  lemma PopMoves(free0: seq<nat>, k: nat)
    requires 1 <= k <= |free0|
    ensures Bag(free0[..|free0| - (k - 1)]) == Bag(free0[..|free0| - k]) + multiset{free0[|free0| - k]}
    ensures Bag(PopOrder(free0, k)) == Bag(PopOrder(free0, k - 1)) + multiset{free0[|free0| - k]}
  {
    var rest := free0[..|free0| - (k - 1)];
    var x := free0[|free0| - k];
    assert rest[..|rest| - 1] == free0[..|free0| - k] && rest[|rest| - 1] == x;
    PopOrderSnoc(free0, k - 1);
    BagAppend(PopOrder(free0, k - 1), [x]);
    assert [x][..0] == [];
  }

  /** Records for slots `idxs` are in the heap, and their slots are `idxs`. */
  lemma {:induction false} SrvsAtSlots(g: Geometry, s0: seq<LoadingSrv>, idxs: seq<nat>)
    requires g.increment > 0 && SrvsInHeap(g, s0)
    decreases |idxs|
    ensures SrvsInHeap(g, s0 + SrvsAt(g, idxs))
    ensures LoadingSlots(g, s0 + SrvsAt(g, idxs)) == LoadingSlots(g, s0) + idxs
  {
    if idxs == [] {
      assert s0 + SrvsAt(g, idxs) == s0;
    } else {
      var init, x := idxs[..|idxs| - 1], idxs[|idxs| - 1];
      assert idxs == init + [x];
      SrvsAtSlots(g, s0, init);
      SrvsAtSnoc(g, init, x);
      AppendSnoc(s0, SrvsAt(g, init), SrvAt(g, x));
      SrvAtSlotStep(g, s0 + SrvsAt(g, init), LoadingSlots(g, s0), init, x);
    }
  }

  /** a + (b + [x]) is (a + b) + [x]. */
  lemma AppendSnoc<T>(a: seq<T>, b: seq<T>, x: T)
    ensures a + (b + [x]) == (a + b) + [x]
  {
  }

  /** One more record, for slot x, extends the slots by x. */
  lemma SrvAtSlotStep(g: Geometry, pre: seq<LoadingSrv>, slots0: seq<nat>, init: seq<nat>, x: nat)
    requires g.increment > 0 && SrvsInHeap(g, pre) && LoadingSlots(g, pre) == slots0 + init
    ensures SrvsInHeap(g, pre + [SrvAt(g, x)])
    ensures LoadingSlots(g, pre + [SrvAt(g, x)]) == slots0 + (init + [x])
  {
    SrvAtInHeap(g, x);
    LoadingSlotsAppend(g, pre, SrvAt(g, x));
    assert slots0 + init + [x] == slots0 + (init + [x]);
  }

  /** The loading frames PumpTexturesToGPU builds hold no descriptor handle. */
  lemma {:induction false} FramesAtBare(g: Geometry, idxs: seq<nat>, ups: seq<FrameUpload>)
    requires |idxs| == |ups| && forall u :: u in ups ==> u.FrameUploaded?
    ensures AllBare(FramesAt(g, idxs, ups))
  {
    AllBareIff(FramesAt(g, idxs, ups));
  }

  lemma {:induction false} MoveOne(whole: multiset<nat>, f: multiset<nat>, f': multiset<nat>, o: multiset<nat>, o': multiset<nat>, x: nat)
    requires whole == f + o && f == f' + multiset{x} && o' == o + multiset{x}
    ensures whole == f' + o'
  {
  }

  /**
   * The frame loop of PumpTexturesToGPU, corrected: the k uploaded frames
   * get the slots popped from the back of the free list, in order, and the
   * frames whose upload fails leave no trace (UploadAccounting states
   * what this means for the slots).
   */
  method UploadFrames(work: seq<seq<bv8>>, upload: seq<bv8> -> FrameUpload, srvs0: seq<LoadingSrv>,
                      heap: DescriptorHeapAllocator)
      returns (srvs: seq<LoadingSrv>, frames: seq<Texture>)
    requires NonNullGeometry(heap.Geom()) && SrvsInHeap(heap.Geom(), srvs0)
    requires work != [] ==> |Uploaded(work[..|work| - 1], upload)| < |heap.freeIndices|
    modifies heap
    ensures OnlyFreeListChanged(heap)
    ensures var k, free0 := |Uploaded(work, upload)|, old(heap.freeIndices);
      && k <= |free0|
      && heap.freeIndices == free0[..|free0| - k]
      && srvs == srvs0 + SrvsAt(heap.Geom(), PopOrder(free0, k))
      && frames == FramesAt(heap.Geom(), PopOrder(free0, k), Uploaded(work, upload))
  {
    ghost var g := heap.Geom();
    ghost var free0 := heap.freeIndices;
    srvs, frames := srvs0, [];
    assert free0[..|free0| - 0] == free0;
    assert srvs0 + SrvsAt(g, PopOrder(free0, 0)) == srvs0;
    for i := 0 to |work|
      invariant heap.Geom() == g && OnlyFreeListChanged(heap)
      invariant UploadInv(g, free0, srvs0, Uploaded(work[..i], upload), heap.freeIndices, srvs, frames)
    {
      assert |Uploaded(work[..i], upload)| < |free0| by {
        assert work[..|work| - 1][..i] == work[..i];
        UploadedPrefix(work[..|work| - 1], upload, i);
      }
      srvs, frames := UploadNext(work, i, upload, heap, g, free0, srvs0, srvs, frames);
    }
    assert work[..|work|] == work;
  }

  /** The body of the frame loop: UploadFrame on frame i keeps UploadInv. */
  method UploadNext(work: seq<seq<bv8>>, i: nat, upload: seq<bv8> -> FrameUpload, heap: DescriptorHeapAllocator,
                    ghost g: Geometry, ghost free0: seq<nat>, ghost srvs0: seq<LoadingSrv>,
                    srvs: seq<LoadingSrv>, frames: seq<Texture>)
      returns (srvs': seq<LoadingSrv>, frames': seq<Texture>)
    requires i < |work| && g == heap.Geom() && NonNullGeometry(g)
    requires UploadInv(g, free0, srvs0, Uploaded(work[..i], upload), heap.freeIndices, srvs, frames)
    requires |Uploaded(work[..i], upload)| < |free0|
    modifies heap
    ensures heap.Geom() == g && OnlyFreeListChanged(heap)
    ensures UploadInv(g, free0, srvs0, Uploaded(work[..i + 1], upload), heap.freeIndices, srvs', frames')
  {
    ghost var done := Uploaded(work[..i], upload);
    assert Uploaded(work[..i + 1], upload)
      == done + (if upload(work[i]).FrameUploaded? then [upload(work[i])] else []) by {
      assert work[..i + 1] == work[..i] + [work[i]];
      UploadedSnoc(work[..i], work[i], upload);
    }
    ghost var before := heap.freeIndices;
    srvs', frames' := UploadFrame(work[i], upload, heap, srvs, frames);
    UploadInvStep(g, free0, srvs0, done, before, srvs, frames, upload(work[i]), heap.freeIndices, srvs', frames');
  }

  /**
   * What UploadFrames leaves, in slot terms: the new records are in the
   * heap, the loading frames hold no descriptor, and the slots that left
   * the free list are exactly those of the new records.
   */
  lemma {:induction false} UploadAccounting(g: Geometry, free0: seq<nat>, srvs0: seq<LoadingSrv>, ups: seq<FrameUpload>,
                         free: seq<nat>, srvs: seq<LoadingSrv>, frames: seq<Texture>)
    requires g.increment > 0 && SrvsInHeap(g, srvs0)
    requires |ups| <= |free0| && forall u :: u in ups ==> u.FrameUploaded?
    requires free == free0[..|free0| - |ups|]
    requires srvs == srvs0 + SrvsAt(g, PopOrder(free0, |ups|))
    requires frames == FramesAt(g, PopOrder(free0, |ups|), ups)
    ensures SrvsInHeap(g, srvs) && AllBare(frames)
    ensures Bag(free0) + Bag(LoadingSlots(g, srvs0)) == Bag(free) + Bag(LoadingSlots(g, srvs))
  {
    var pops := PopOrder(free0, |ups|);
    SrvsAtSlots(g, srvs0, pops);
    FramesAtBare(g, pops, ups);
    PopSplit(free0, |ups|);
    BagAppend(LoadingSlots(g, srvs0), pops);
  }

  /** The release loop over g_LoadingFrames at shutdown: frames without descriptors free no slot. */
  method FreeFrames(frames: seq<Texture>, backend: RenderBackend, heap: DescriptorHeapAllocator)
    requires AllBare(frames)
    modifies heap
    ensures OnlyFreeListChanged(heap) && heap.freeIndices == old(heap.freeIndices)
  {
    AllBareIff(frames);
    for i := 0 to |frames|
      invariant OnlyFreeListChanged(heap) && heap.freeIndices == old(heap.freeIndices)
    {
      assert NoDescriptors(frames[i]);
      var _, _ := FreeTexture(frames[i], backend, heap);
    }
  }

  /**
   * The release work of ShutdownTextures: on DX12 a wait for the GPU
   * first, then FreeTexture on every loading frame and, while BgTexture is
   * set, on the background. The result is the background's new value.
   */
  method ReleaseAtShutdown(bgTexture: nat, bg: Texture, frames: seq<Texture>, backend: RenderBackend,
                           heap: DescriptorHeapAllocator, fence: FenceTimeline) returns (bg': Texture)
    requires fence.Valid() && AllBare(frames) && TextureFreeable(heap.Geom(), bg)
    modifies heap, fence
    ensures OnlyFreeListChanged(heap)
    ensures heap.freeIndices == old(heap.freeIndices) + BgSlots(old(heap.Geom()), bgTexture, bg, backend)
    ensures fence.Valid()
    ensures backend == DX12 ==> fence.lastSignaled == old(fence.lastSignaled) + 1 && fence.completed == fence.lastSignaled
    ensures backend == DX11 ==> unchanged(fence)
    ensures bg' == if bgTexture != 0 then EmptyTexture else bg
  {
    if backend == DX12 {
      fence.WaitForPendingOperations();
    }
    FreeFrames(frames, backend, heap);
    bg' := bg;
    if bgTexture != 0 {
      var _, _ := FreeTexture(bg, backend, heap);
      bg' := EmptyTexture;
    }
  }

  // ------------------------------------------------------ pump and assets

  /**
   * The loading frames PumpTexturesToGPU builds over the records it adds
   * after `s0`: one frame per accepted upload, in order, named by its
   * record's GPU handle and sized as the upload reports.
   */
  ghost predicate FramesOver(s0: seq<LoadingSrv>, s: seq<LoadingSrv>, frames: seq<Texture>, ups: seq<FrameUpload>)
    requires forall u :: u in ups ==> u.FrameUploaded?
  {
    && |frames| == |ups| && |s| == |s0| + |ups| && s[..|s0|] == s0
    && forall j :: 0 <= j < |ups| ==>
         frames[j] == EmptyTexture.(id := s[|s0| + j].gpu, width := ups[j].width, height := ups[j].height)
  }

  /**
   * The background step of PumpTexturesToGPU: a set BgTexture stays; a
   * null one is replaced by the loaded texture, named by its base GPU
   * handle, exactly when LoadTexture succeeds.
   */
  predicate BgLoaded(bgTexture: nat, bg: Texture, path: string, comOk: bool, factoryOk: bool,
                     load: string -> LoadOutcome, bgTexture': nat, bg': Texture)
  {
    if bgTexture != 0 then bgTexture' == bgTexture && bg' == bg
    else if comOk && factoryOk && SingleSucceeds(load(path)) then
      bgTexture' == bg'.id == bg'.baseGpu && bg'.emissiveId == bg'.emissiveGpu
    else bgTexture' == 0 && bg' == bg
  }

  /** The records and frames UploadFrames builds stand in the FramesOver relation. */
  lemma {:induction false} FramesOverAt(g: Geometry, s0: seq<LoadingSrv>, idxs: seq<nat>, ups: seq<FrameUpload>)
    requires |idxs| == |ups| && forall u :: u in ups ==> u.FrameUploaded?
    ensures FramesOver(s0, s0 + SrvsAt(g, idxs), FramesAt(g, idxs, ups), ups)
  {
    var s := s0 + SrvsAt(g, idxs);
    assert s[..|s0|] == s0;
    forall j | 0 <= j < |ups|
      ensures FramesAt(g, idxs, ups)[j] == EmptyTexture.(id := s[|s0| + j].gpu, width := ups[j].width, height := ups[j].height)
    {
      assert s[|s0| + j] == SrvAt(g, idxs[j]);
    }
  }

  /**
   * The background step of PumpTexturesToGPU: a set BgTexture stays; a
   * null one takes the texture LoadTexture loads, and its id, when the load
   * succeeds. The result is the new BgTexture, bg and free list.
   */
  function BackgroundLoad(g: Geometry, free: seq<nat>, bgTexture: nat, bg: Texture, path: string, comOk: bool,
                          factoryOk: bool, load: string -> LoadOutcome): (r: (nat, Texture, seq<nat>))
    requires bgTexture == 0 ==> |free| >= 2
    ensures |r.2| + (if bgTexture == 0 then 2 else 0) >= |free|
  {
    if bgTexture != 0 then (bgTexture, bg, free)
    else
      var l := TextureLoad(g, free, path, comOk, factoryOk, load);
      if l.0 then (l.1.id, l.1, l.3) else (0, bg, l.3)
  }

  /**
   * The frame loop of PumpTexturesToGPU, corrected: the frames whose upload
   * succeeds take the back slots of the free list in pop order, get a
   * record each and a loading frame named by the record's GPU handle. The
   * result is the records, the frames and the free list.
   */
  function FramesLoad(g: Geometry, free: seq<nat>, work: seq<seq<bv8>>, upload: seq<bv8> -> FrameUpload,
                      srvs0: seq<LoadingSrv>): (r: (seq<LoadingSrv>, seq<Texture>, seq<nat>))
    requires |free| >= |work|
    ensures |r.1| == |Uploaded(work, upload)|
  {
    var ups := Uploaded(work, upload);
    var pops := PopOrder(free, |ups|);
    (srvs0 + SrvsAt(g, pops), FramesAt(g, pops, ups), free[..|free| - |ups|])
  }

  /** What PumpTexturesToGPU leaves: BgTexture, bg, the loading-icon records, the loading frames and the free list. */
  datatype PumpResult = PumpResult(bgTexture: nat, bg: Texture, srvs: seq<LoadingSrv>, frames: seq<Texture>, free: seq<nat>)

  /** PumpTexturesToGPU, corrected, on values: the background step, then the frame loop. */
  function PumpEffect(g: Geometry, free: seq<nat>, bgTexture: nat, bg: Texture, bgPath: string, comOk: bool,
                      factoryOk: bool, load: string -> LoadOutcome, work: seq<seq<bv8>>,
                      upload: seq<bv8> -> FrameUpload, srvs0: seq<LoadingSrv>): PumpResult
    requires |free| >= |work| + (if bgTexture == 0 then 2 else 0)
  {
    var b := BackgroundLoad(g, free, bgTexture, bg, bgPath, comOk, factoryOk, load);
    var f := FramesLoad(g, b.2, work, upload, srvs0);
    PumpResult(b.0, b.1, f.0, f.1, f.2)
  }

  /** ReleaseSlots of a freeable texture holds no slot that FreedSlots does not. */
  lemma ReleaseWithinFreed(g: Geometry, t: Texture, backend: RenderBackend)
    requires TextureFreeable(g, t)
    ensures Bag(ReleaseSlots(g, t, backend)) <= Bag(FreedSlots(g, t))
  {
    BagIsMultiset(ReleaseSlots(g, t, backend));
    BagIsMultiset(FreedSlots(g, t));
  }

  /**
   * The background step keeps BgTexture the id of bg and bg freeable; it
   * loads exactly when BgTexture is null and LoadTexture succeeds (BgLoaded),
   * and the free list and the background hold no slot more often than before.
   */
  lemma {:induction false} BackgroundLoadSound(g: Geometry, free: seq<nat>, bgTexture: nat, bg: Texture, path: string,
                                               comOk: bool, factoryOk: bool, load: string -> LoadOutcome)
    requires NonNullGeometry(g) && bgTexture == bg.id && TextureFreeable(g, bg)
    requires bgTexture == 0 ==> |free| >= 2
    ensures var r := BackgroundLoad(g, free, bgTexture, bg, path, comOk, factoryOk, load);
      && BgLoaded(bgTexture, bg, path, comOk, factoryOk, load, r.0, r.1)
      && r.0 == r.1.id && TextureFreeable(g, r.1)
      && Bag(r.2) + Bag(BgSlots(g, r.0, r.1, DX12)) <= Bag(free) + Bag(BgSlots(g, bgTexture, bg, DX12))
  {
    if bgTexture == 0 {
      var l := TextureLoad(g, free, path, comOk, factoryOk, load);
      TextureLoadSlots(g, free, path, comOk, factoryOk, load);
      BagIsMultiset(free);
      BagIsMultiset(l.3);
      BagIsMultiset(FreedSlots(g, l.1));
      if l.0 {
        ReleaseWithinFreed(g, l.1, DX12);
      }
    }
  }

  /**
   * The frame loop keeps the records in the heap and the frames bare; the
   * frames stand over the new records (FramesOver), and the slots that left
   * the free list are exactly those of the new records.
   */
  lemma {:induction false} FramesLoadSound(g: Geometry, free: seq<nat>, work: seq<seq<bv8>>, upload: seq<bv8> -> FrameUpload,
                                           srvs0: seq<LoadingSrv>)
    requires NonNullGeometry(g) && SrvsInHeap(g, srvs0) && |free| >= |work|
    ensures var r := FramesLoad(g, free, work, upload, srvs0);
      && SrvsInHeap(g, r.0) && AllBare(r.1)
      && FramesOver(srvs0, r.0, r.1, Uploaded(work, upload))
      && Bag(free) + Bag(LoadingSlots(g, srvs0)) == Bag(r.2) + Bag(LoadingSlots(g, r.0))
  {
    var ups := Uploaded(work, upload);
    var r := FramesLoad(g, free, work, upload, srvs0);
    UploadAccounting(g, free, srvs0, ups, r.2, r.0, r.1);
    FramesOverAt(g, srvs0, PopOrder(free, |ups|), ups);
  }

  /** The slot sums of the pump: the background gains at most what left the free list, the frames move slots to the records. */
  lemma {:induction false} PumpBalance(f0: multiset<nat>, fm: multiset<nat>, f1: multiset<nat>, ls0: multiset<nat>,
                                       ls1: multiset<nat>, b0: multiset<nat>, b1: multiset<nat>)
    requires fm + b1 <= f0 + b0 && fm + ls0 == f1 + ls1
    ensures f1 + ls1 + b1 <= f0 + ls0 + b0
  {
    forall x
      ensures (f1 + ls1 + b1)[x] <= (f0 + ls0 + b0)[x]
    {
      assert (fm + ls0)[x] == (f1 + ls1)[x];
      assert (fm + b1)[x] <= (f0 + b0)[x];
    }
  }

  /**
   * What PumpEffect promises: the background as BgLoaded says, the new
   * records and frames as FramesOver says, every record and the background
   * freeable, the frames bare, and no slot gained (NoSlotGained).
   */
  lemma {:induction false} PumpEffectSound(g: Geometry, free: seq<nat>, bgTexture: nat, bg: Texture, bgPath: string,
                                           comOk: bool, factoryOk: bool, load: string -> LoadOutcome,
                                           work: seq<seq<bv8>>, upload: seq<bv8> -> FrameUpload, srvs0: seq<LoadingSrv>)
    requires NonNullGeometry(g) && SrvsInHeap(g, srvs0) && bgTexture == bg.id && TextureFreeable(g, bg)
    requires |free| >= |work| + (if bgTexture == 0 then 2 else 0)
    ensures var r := PumpEffect(g, free, bgTexture, bg, bgPath, comOk, factoryOk, load, work, upload, srvs0);
      && BgLoaded(bgTexture, bg, bgPath, comOk, factoryOk, load, r.bgTexture, r.bg)
      && r.bgTexture == r.bg.id && TextureFreeable(g, r.bg)
      && SrvsInHeap(g, r.srvs) && AllBare(r.frames)
      && FramesOver(srvs0, r.srvs, r.frames, Uploaded(work, upload))
      && NoSlotGained(g, DX12, free, srvs0, bgTexture, bg, r.free, r.srvs, r.bgTexture, r.bg)
  {
    var b := BackgroundLoad(g, free, bgTexture, bg, bgPath, comOk, factoryOk, load);
    BackgroundLoadSound(g, free, bgTexture, bg, bgPath, comOk, factoryOk, load);
    var f := FramesLoad(g, b.2, work, upload, srvs0);
    FramesLoadSound(g, b.2, work, upload, srvs0);
    PumpBalance(Bag(free), Bag(b.2), Bag(f.2), Bag(LoadingSlots(g, srvs0)), Bag(LoadingSlots(g, f.0)),
      Bag(BgSlots(g, bgTexture, bg, DX12)), Bag(BgSlots(g, b.0, b.1, DX12)));
  }

  /** The background step of the pump on the heap: LoadTexture while BgTexture is null (BackgroundLoad). */
  method PumpBackground(bgTexture: nat, bg: Texture, bgPath: string, comOk: bool, factoryOk: bool,
                        load: string -> LoadOutcome, heap: DescriptorHeapAllocator)
      returns (bgTexture': nat, bg': Texture)
    requires bgTexture == 0 ==> |heap.freeIndices| >= 2
    modifies heap
    ensures OnlyFreeListChanged(heap)
    ensures (bgTexture', bg', heap.freeIndices)
      == BackgroundLoad(old(heap.Geom()), old(heap.freeIndices), bgTexture, bg, bgPath, comOk, factoryOk, load)
  {
    bgTexture', bg' := bgTexture, bg;
    if bgTexture == 0 {
      var ok, t, _ := LoadTexture(bgPath, comOk, factoryOk, load, heap);
      if ok {
        bgTexture', bg' := t.id, t;
      }
    }
  }

  /** The frame loop of the pump on the heap: UploadFrames (FramesLoad). */
  method PumpFrames(work: seq<seq<bv8>>, upload: seq<bv8> -> FrameUpload, srvs0: seq<LoadingSrv>,
                    heap: DescriptorHeapAllocator)
      returns (srvs: seq<LoadingSrv>, frames: seq<Texture>)
    requires NonNullGeometry(heap.Geom()) && SrvsInHeap(heap.Geom(), srvs0)
    requires |heap.freeIndices| >= |work|
    modifies heap
    ensures OnlyFreeListChanged(heap)
    ensures (srvs, frames, heap.freeIndices) == FramesLoad(old(heap.Geom()), old(heap.freeIndices), work, upload, srvs0)
  {
    assert work != [] ==> |Uploaded(work[..|work| - 1], upload)| < |heap.freeIndices|;
    srvs, frames := UploadFrames(work, upload, srvs0, heap);
  }

  /**
   * The slot work of PumpTexturesToGPU, corrected (PumpEffect), then the
   * wait for the GPU. The source's Alloc asserts a free slot for each
   * frame; the precondition reserves one per frame and two for the
   * background.
   */
  method PumpSlots(bgTexture: nat, bg: Texture, bgPath: string, comOk: bool, factoryOk: bool,
                   load: string -> LoadOutcome, work: seq<seq<bv8>>, upload: seq<bv8> -> FrameUpload,
                   srvs0: seq<LoadingSrv>, heap: DescriptorHeapAllocator, fence: FenceTimeline)
      returns (bgTexture': nat, bg': Texture, srvs: seq<LoadingSrv>, frames: seq<Texture>)
    requires fence.Valid() && NonNullGeometry(heap.Geom()) && SrvsInHeap(heap.Geom(), srvs0)
    requires |heap.freeIndices| >= |work| + (if bgTexture == 0 then 2 else 0)
    modifies heap, fence
    ensures OnlyFreeListChanged(heap)
    ensures PumpResult(bgTexture', bg', srvs, frames, heap.freeIndices)
      == PumpEffect(old(heap.Geom()), old(heap.freeIndices), bgTexture, bg, bgPath, comOk, factoryOk, load, work, upload, srvs0)
    ensures fence.Valid() && fence.lastSignaled == old(fence.lastSignaled) + 1 && fence.completed == fence.lastSignaled
  {
    bgTexture', bg' := PumpBackground(bgTexture, bg, bgPath, comOk, factoryOk, load, heap);
    srvs, frames := PumpFrames(work, upload, srvs0, heap);
    fence.WaitForPendingOperations();
  }

  /** The folder of the loading icon's frames under the local application data folder. */
  function LoadingIconFolder(localAppData: string, theme: LoadingTheme): string
  {
    localAppData + (if theme == LIGHTMODE then "\\PSHVK\\assets\\LoadingIconLight\\" else "\\PSHVK\\assets\\LoadingIcon\\")
  }

  /** The number of frames the loader thread looks for. */
  function FrameCount(theme: LoadingTheme): nat
  {
    if theme == LIGHTMODE then 30 else 31
  }

  /** The assets folder of the background images. */
  function AssetsFolder(localAppData: string): string
  {
    localAppData + "\\PSHVK\\assets\\"
  }

  /** The image file of each background theme. */
  function BgFileName(t: BgTheme): string
  {
    match t
    case BLACK => "Galaxy_Black.png"
    case PURPLE => "Galaxy_Purple.png"
    case YELLOW => "Galaxy_Yellow.png"
    case BLUE => "Galaxy_Blue.png"
    case GREEN => "Galaxy_Green.png"
    case RED => "Galaxy_Red.png"
  }

  /** GetBgPath: the theme's image in the assets folder. */
  function GetBgPath(localAppData: string, t: BgTheme): (path: string)
    ensures |path| > |AssetsFolder(localAppData)|
    ensures path[..|AssetsFolder(localAppData)|] == AssetsFolder(localAppData)
  {
    var base := AssetsFolder(localAppData);
    assert (base + BgFileName(t))[..|base|] == base;
    base + BgFileName(t)
  }

  /** Every theme has its own image, and only the themes' image names are produced. */
  lemma {:induction false} BgPathsDistinct(localAppData: string, t1: BgTheme, t2: BgTheme)
    ensures GetBgPath(localAppData, t1) == GetBgPath(localAppData, t2) <==> t1 == t2
  {
    var base := AssetsFolder(localAppData);
    if GetBgPath(localAppData, t1) == GetBgPath(localAppData, t2) {
      assert (base + BgFileName(t1))[|base|..] == BgFileName(t1);
      assert (base + BgFileName(t2))[|base|..] == BgFileName(t2);
    }
  }

  /** The two loading-icon themes read different folders. */
  lemma {:induction false} LoadingIconFoldersDistinct(localAppData: string)
    ensures LoadingIconFolder(localAppData, LIGHTMODE) != LoadingIconFolder(localAppData, DARKMODE)
  {
    assert |LoadingIconFolder(localAppData, LIGHTMODE)| != |LoadingIconFolder(localAppData, DARKMODE)|;
  }

  /**
   * The renderer's globals: the SRV heap allocator, the fence, the back
   * end, BgTexture and `bg`, the loading-icon records, the deferred frees,
   * the kept-alive resources, the reload job and the front-end settings.
   */
  class Renderer {
    /** g_pd3dSrvDescHeapAlloc. */
    const heap: DescriptorHeapAllocator
    /** g_fenceLastSignaledValue, the GPU fence and the frame contexts. */
    const fence: FenceTimeline
    /** g_App.g_RenderBackend. */
    const backend: RenderBackend
    /** BgTexture. */
    var bgTexture: nat
    var bg: Texture
    /** g_dx12LoadingSrvs. */
    var loadingSrvs: seq<LoadingSrv>
    /** g_LoadingFrames. */
    var loadingFrames: seq<Texture>
    /** g_pendingFrames: the bytes the loader thread read. */
    var pendingFrames: seq<seq<bv8>>
    /** g_texturesReady. */
    var texturesReady: bool
    /** g_deferredFrees. */
    var deferred: seq<DeferredFree>
    /** g_dx12LiveTextures. */
    var liveTextures: seq<nat>
    /** g_bgJob. */
    var job: BgJob
    var front: FrontEnd
    /** g_App.Lcache. */
    var lcache: SettingsCache

    /** The records that own slots, as a value. */
    ghost function Rec(): Records
      reads this
    {
      Records(loadingSrvs, bgTexture, bg, job, deferred)
    }

    /** The fence is consistent and the records, the loading frames and the free list are (Consistent). */
    ghost predicate Valid()
      reads this, heap, fence
    {
      fence.Valid() && Consistent(heap.Geom(), backend, Rec(), loadingFrames, heap.freeIndices, heap.capacity)
    }

    /**
     * Valid() from a Consistent fact about the values the fields hold. The
     * requires keeps Consistent whole (`== true`), so that a caller proves
     * it from one lemma's ensures rather than conjunct by conjunct.
     */
    lemma ValidOf(g: Geometry, r: Records, frames: seq<Texture>, free: seq<nat>, capacity: nat)
      requires fence.Valid() && Consistent(g, backend, r, frames, free, capacity) == true
      requires heap.Geom() == g && Rec() == r && loadingFrames == frames && heap.freeIndices == free
      requires heap.capacity == capacity
      ensures Valid()
    {
    }

    /**
     * The globals at start-up, over a created heap whose handles are not
     * null and whose free list holds no slot twice.
     */
    constructor (heap: DescriptorHeapAllocator, fence: FenceTimeline, backend: RenderBackend, front: FrontEnd)
      requires heap.Sound() && NonNullGeometry(heap.Geom()) && fence.Valid()
      ensures Valid()
      ensures this.heap == heap && this.fence == fence && this.backend == backend && this.front == front
      ensures bgTexture == 0 && bg == EmptyTexture && loadingSrvs == [] && loadingFrames == []
      ensures pendingFrames == [] && !texturesReady && deferred == [] && liveTextures == []
      ensures job == IdleJob && lcache == SettingsCache(false, 60)
    {
      this.heap, this.fence, this.backend, this.front := heap, fence, backend, front;
      bgTexture, bg, loadingSrvs, loadingFrames := 0, EmptyTexture, [], [];
      pendingFrames, texturesReady, deferred, liveTextures := [], false, [], [];
      job, lcache := IdleJob, SettingsCache(false, 60);
      new;
      assert multiset(heap.freeIndices) <= multiset(heap.freeIndices) + multiset(heap.held);
      ConsistentInitially(heap.Geom(), backend, heap.freeIndices, heap.capacity);
      assert Rec() == Records([], 0, EmptyTexture, IdleJob, []);
    }

    /**
     * DeferFreeTexture: queues the texture with the last signalled fence
     * value. The caller hands the texture's slots over to the queue: they
     * are neither free nor owned by another record (ConsistentDefer).
     */
    method DeferFreeTexture(tex: Texture)
      requires Valid() && TextureFreeable(heap.Geom(), tex)
      requires Bag(heap.freeIndices) + OwnedSlots(heap.Geom(), backend, Rec()) + Bag(ReleaseSlots(heap.Geom(), tex, backend))
        <= SlotRange(heap.capacity)
      modifies this`deferred
      ensures Valid()
      ensures deferred == old(deferred) + [DeferredFree(tex, fence.lastSignaled)]
    {
      deferred := deferred + [DeferredFree(tex, fence.lastSignaled)];
      assert Rec() == old(Rec()).(deferred := old(deferred) + [DeferredFree(tex, fence.lastSignaled)]);
      ConsistentDefer(heap.Geom(), backend, old(Rec()), loadingFrames, heap.freeIndices, heap.capacity,
        DeferredFree(tex, fence.lastSignaled));
    }

    /**
     * ProcessDeferredTextureFrees: with the GPU's completed fence value,
     * frees and erases exactly the entries whose fence value it has
     * reached, front to back, and keeps the others in their order
     * (ConsistentProcess).
     */
    method ProcessDeferredTextureFrees()
      requires Valid()
      modifies this`deferred, heap
      ensures Valid()
      ensures deferred == Pending(old(deferred), fence.completed)
      ensures OnlyFreeListChanged(heap) && QueueFreeable(heap.Geom(), Ready(old(deferred), fence.completed))
      ensures heap.freeIndices
        == old(heap.freeIndices) + DeferredSlots(heap.Geom(), Ready(old(deferred), fence.completed), backend)
    {
      ReadyPendingFreeable(heap.Geom(), deferred, fence.completed);
      deferred := FreeReadyTextures(deferred, fence.completed, backend, heap);
      assert Rec() == old(Rec()).(deferred := Pending(old(deferred), fence.completed));
      ConsistentProcess(heap.Geom(), backend, old(Rec()), loadingFrames, old(heap.freeIndices), heap.capacity,
        fence.completed);
    }

    /**
     * RequestBackgroundReload: a fresh job for `path` (an upload still in
     * flight is dropped with its slot) and the forced front-end settings,
     * with the cache taken as in RequestSettings (ConsistentRequest).
     */
    method RequestBackgroundReload(path: string)
      requires Valid()
      modifies this`job, this`front, this`lcache
      ensures Valid()
      ensures job == RequestedJob(path)
      ensures (front, lcache) == RequestSettings(old(front), old(lcache))
    {
      var settings := RequestSettings(front, lcache);
      job, front, lcache := RequestedJob(path), settings.0, settings.1;
      assert Rec() == old(Rec()).(job := RequestedJob(path));
      ConsistentRequest(heap.Geom(), backend, old(Rec()), loadingFrames, heap.freeIndices, heap.capacity, path);
    }

    /** BgReloadWorker, corrected, as one environment step: the bytes read from the job's path, or None (ConsistentWorker). */
    method BgReloadWorker(read: Option<seq<bv8>>)
      requires Valid()
      modifies this`job
      ensures Valid()
      ensures job == WorkerStep(old(job), read)
    {
      ConsistentWorker(heap.Geom(), backend, Rec(), loadingFrames, heap.freeIndices, heap.capacity, read);
      job := WorkerStep(job, read);
    }

    /**
     * What SubmitBgUploadDX12, corrected, does: nothing unless the job is
     * ready (SubmitReady); no bytes abandon the job and restore the
     * settings; otherwise Alloc, and a failed upload frees the pair again,
     * while a successful one signals the fence and records the slot at the
     * back of the free list and the new fence value in the job.
     */
    twostate predicate BgUploadSubmitted(create: seq<bv8> -> BgUpload, submitted: bool)
      reads this, heap, fence
    {
      && OnlyFreeListChanged(heap)
      && (!SubmitReady(old(job), backend) || old(job.bytes) == [] || !create(old(job.bytes)).BgUploaded? ==>
        && !submitted && unchanged(fence) && heap.freeIndices == old(heap.freeIndices)
        && (if SubmitReady(old(job), backend) && old(job.bytes) == []
            then job == old(job).(requested := false, bytesReady := false) && front == RestoreSettings(old(lcache))
            else job == old(job) && front == old(front)))
      && (SubmitReady(old(job), backend) && old(job.bytes) != [] && create(old(job.bytes)).BgUploaded? ==>
        && submitted && |old(heap.freeIndices)| > 0
        && fence.lastSignaled == old(fence.lastSignaled) + 1 && fence.completed == old(fence.completed)
        && job == SubmittedJob(old(job), heap.Geom(), old(heap.freeIndices)[|old(heap.freeIndices)| - 1],
                               create(old(job.bytes)), fence.lastSignaled)
        && heap.freeIndices == old(heap.freeIndices)[..|old(heap.freeIndices)| - 1]
        && front == old(front)
        && !FinalizeReady(job, backend, fence.completed))
    }

    /**
     * SubmitBgUploadDX12 keeps Valid(): an abandoned job moves no slot
     * (ConsistentAbandon) and a submitted one takes the slot at the back of
     * the free list (ConsistentSubmit). The source's Alloc asserts a free
     * slot.
     */
    method SubmitBgUploadDX12(create: seq<bv8> -> BgUpload) returns (submitted: bool)
      requires Valid()
      requires SubmitReady(job, backend) && job.bytes != [] ==> |heap.freeIndices| > 0
      modifies this`job, this`front, heap, fence
      ensures Valid() && BgUploadSubmitted(create, submitted)
    {
      submitted := SubmitSteps(create);
      if SubmitReady(old(job), backend) && old(job.bytes) == [] {
        ConsistentAbandon(old(heap.Geom()), backend, old(Rec()), old(loadingFrames), old(heap.freeIndices), old(heap.capacity));
        ValidOf(old(heap.Geom()), old(Rec()).(job := job), old(loadingFrames), old(heap.freeIndices), old(heap.capacity));
      } else if submitted {
        ConsistentSubmit(old(heap.Geom()), backend, old(Rec()), old(loadingFrames), old(heap.freeIndices), old(heap.capacity),
          create(old(job.bytes)), fence.lastSignaled);
        ValidOf(old(heap.Geom()), old(Rec()).(job := job), old(loadingFrames), heap.freeIndices, old(heap.capacity));
      } else {
        ValidOf(old(heap.Geom()), old(Rec()), old(loadingFrames), old(heap.freeIndices), old(heap.capacity));
      }
    }

    /** The steps of SubmitBgUploadDX12, in the source's order. */
    method SubmitSteps(create: seq<bv8> -> BgUpload) returns (submitted: bool)
      requires fence.Valid() && NonNullGeometry(heap.Geom())
      requires SubmitReady(job, backend) && job.bytes != [] ==> |heap.freeIndices| > 0
      modifies this`job, this`front, heap, fence
      ensures fence.Valid() && BgUploadSubmitted(create, submitted)
    {
      if !SubmitReady(job, backend) {
        return false;
      }
      if job.bytes == [] {
        job := job.(requested := false, bytesReady := false);
        front := RestoreSettings(lcache);
        return false;
      }
      var cpu, gpu, up := AllocForUpload(job.bytes, create, heap);
      if !up.BgUploaded? {
        return false;
      }
      var fv := fence.Signal();
      job := job.(uploadSubmitted := true, newTex := gpu, fenceValue := fv, newTextureRes := up.texRes,
                  newUploadRes := up.uploadRes, newCpu := cpu, newGpu := gpu);
      submitted := true;
    }

    /**
     * What FinalizeBgUploadIfReady, corrected, does: nothing until the
     * upload's fence value is reached (FinalizeReady); then the upload
     * buffer is released, the old background is freed with FreeTexture,
     * the new texture is kept alive and becomes the background with the
     * job's descriptor pair, the job is reset and the settings restored.
     * `released` is the objects released, in order.
     */
    twostate predicate BgUploadFinalized(released: seq<nat>)
      requires old(TextureFreeable(heap.Geom(), bg))
      reads this, heap, fence
    {
      && OnlyFreeListChanged(heap)
      && (!FinalizeReady(old(job), backend, fence.completed) ==>
        && released == [] && bgTexture == old(bgTexture) && bg == old(bg) && job == old(job)
        && front == old(front) && liveTextures == old(liveTextures) && heap.freeIndices == old(heap.freeIndices))
      && (FinalizeReady(old(job), backend, fence.completed) ==>
        && bgTexture == old(job.newTex)
        && bg == EmptyTexture.(id := old(job.newTex), baseCpu := old(job.newCpu), baseGpu := old(job.newGpu))
        && job == IdleJob.(path := old(job.path), bytes := old(job.bytes))
        && front == RestoreSettings(lcache) && liveTextures == old(liveTextures) + NonNull([old(job.newTextureRes)])
        && heap.freeIndices == old(heap.freeIndices) + BgSlots(old(heap.Geom()), old(bgTexture), old(bg), backend)
        && released == NonNull([old(job.newUploadRes)])
             + (if old(bgTexture) != 0 then ReleasedObjects(old(bg), backend) else []))
    }

    /**
     * FinalizeBgUploadIfReady keeps Valid(): the job's slot goes to the new
     * background and the old background's slots back to the free list
     * (ConsistentFinalize).
     */
    method FinalizeBgUploadIfReady() returns (released: seq<nat>)
      requires Valid()
      modifies this`liveTextures, this`bg, this`bgTexture, this`job, this`front, heap
      ensures Valid() && BgUploadFinalized(released)
    {
      released := FinalizeSteps();
      if FinalizeReady(old(job), backend, fence.completed) {
        ConsistentFinalize(old(heap.Geom()), backend, old(Rec()), old(loadingFrames), old(heap.freeIndices), old(heap.capacity),
          job, bg);
        ValidOf(old(heap.Geom()), old(Rec()).(bgTexture := bg.id, bg := bg, job := job), old(loadingFrames),
          heap.freeIndices, old(heap.capacity));
      } else {
        ValidOf(old(heap.Geom()), old(Rec()), old(loadingFrames), old(heap.freeIndices), old(heap.capacity));
      }
    }

    /** The steps of FinalizeBgUploadIfReady, in the source's order. */
    method FinalizeSteps() returns (released: seq<nat>)
      requires TextureFreeable(heap.Geom(), bg)
      modifies this`liveTextures, this`bg, this`bgTexture, this`job, this`front, heap
      ensures BgUploadFinalized(released)
    {
      if !FinalizeReady(job, backend, fence.completed) {
        return [];
      }
      released := NonNull([job.newUploadRes]);
      if bgTexture != 0 {
        var t, objs := FreeTexture(bg, backend, heap);
        released := released + objs;
      }
      var j := job;
      liveTextures, bg, bgTexture, job, front :=
        liveTextures + NonNull([j.newTextureRes]), EmptyTexture.(id := j.newTex, baseCpu := j.newCpu, baseGpu := j.newGpu),
        j.newTex, IdleJob.(path := j.path, bytes := j.bytes), RestoreSettings(lcache);
    }

    /**
     * What ApplyBgReloadDX11IfReady does: nothing unless the DX11 job is
     * ready (ApplyReady); then the old background is freed, the job's path
     * is loaded and becomes the background when the load succeeds, the job
     * ends and the settings are restored. `released` is the views released.
     */
    twostate predicate BgReloadAppliedDX11(load: string -> SrvOutcome, released: seq<nat>)
      reads this, heap
    {
      && OnlyFreeListChanged(heap) && heap.freeIndices == old(heap.freeIndices)
      && (!ApplyReady(old(job), backend) ==>
        && released == [] && bgTexture == old(bgTexture) && bg == old(bg) && job == old(job) && front == old(front))
      && (ApplyReady(old(job), backend) ==>
        var (ok, t) := LoadTextureDX11FromFile(old(job.path), load);
        && released == (if old(bgTexture) != 0 then ReleasedObjects(old(bg), backend) else [])
        && bgTexture == (if ok then t.id else 0)
        && bg == (if ok then t else if old(bgTexture) != 0 then EmptyTexture else old(bg))
        && job == old(job).(requested := false, bytesReady := false)
        && front == RestoreSettings(lcache))
    }

    /** ApplyBgReloadDX11IfReady keeps Valid(): on DX11 no slot moves (ConsistentApplyDX11). */
    method ApplyBgReloadDX11IfReady(load: string -> SrvOutcome) returns (released: seq<nat>)
      requires Valid()
      modifies this`bg, this`bgTexture, this`job, this`front, heap
      ensures Valid() && BgReloadAppliedDX11(load, released)
    {
      released := ApplySteps(load);
      if ApplyReady(old(job), backend) {
        ConsistentApplyDX11(old(heap.Geom()), backend, old(Rec()), old(loadingFrames), old(heap.freeIndices), old(heap.capacity),
          bgTexture, bg);
        ValidOf(old(heap.Geom()), old(Rec()).(bgTexture := bgTexture, bg := bg, job := job), old(loadingFrames),
          old(heap.freeIndices), old(heap.capacity));
      } else {
        ValidOf(old(heap.Geom()), old(Rec()), old(loadingFrames), old(heap.freeIndices), old(heap.capacity));
      }
    }

    /** The steps of ApplyBgReloadDX11IfReady, in the source's order. */
    method ApplySteps(load: string -> SrvOutcome) returns (released: seq<nat>)
      modifies this`bg, this`bgTexture, this`job, this`front, heap
      ensures BgReloadAppliedDX11(load, released)
    {
      if !ApplyReady(job, backend) {
        return [];
      }
      released := [];
      var bg', bgTexture' := bg, bgTexture;
      if bgTexture != 0 {
        var _, objs := FreeTexture(bg, backend, heap);
        released := objs;
        bg', bgTexture' := EmptyTexture, 0;
      }
      var (ok, t) := LoadTextureDX11FromFile(job.path, load);
      if ok {
        bg', bgTexture' := t, t.id;
      }
      bg, bgTexture, job, front := bg', bgTexture', job.(requested := false, bytesReady := false), RestoreSettings(lcache);
    }

    /** The DX12 loader thread's delivery, as one environment step: the bytes of the frames it read, in order. */
    method DeliverFrameBytes(bytes: seq<seq<bv8>>)
      requires Valid()
      modifies this`pendingFrames
      ensures Valid()
      ensures pendingFrames == bytes
    {
      pendingFrames := bytes;
    }

    /** PumpTexturesToGPU runs: DX12, textures not ready and frames pending. */
    predicate PumpActive()
      reads this
    {
      backend == DX12 && !texturesReady && pendingFrames != []
    }

    /**
     * What PumpTexturesToGPU, corrected, does: when active, takes the
     * pending frames, loads the background while BgTexture is null,
     * uploads every frame, keeping a record only for those that load,
     * waits for the GPU and publishes the frames: the new state is
     * PumpEffect's.
     */
    twostate predicate TexturesPumped(bgPath: string, comOk: bool, factoryOk: bool, load: string -> LoadOutcome,
                                      upload: seq<bv8> -> FrameUpload)
      requires old(PumpActive()) ==> old(|heap.freeIndices| >= |pendingFrames| + (if bgTexture == 0 then 2 else 0))
      reads this, heap, fence
    {
      && OnlyFreeListChanged(heap)
      && (!old(PumpActive()) ==> unchanged(this) && unchanged(fence) && heap.freeIndices == old(heap.freeIndices))
      && (old(PumpActive()) ==>
        && PumpResult(bgTexture, bg, loadingSrvs, loadingFrames, heap.freeIndices)
           == PumpEffect(old(heap.Geom()), old(heap.freeIndices), old(bgTexture), old(bg), bgPath, comOk, factoryOk, load,
                         old(pendingFrames), upload, old(loadingSrvs))
        && (pendingFrames, texturesReady, fence.lastSignaled, fence.completed)
           == ([], true, old(fence.lastSignaled) + 1, fence.lastSignaled))
    }

    /**
     * PumpTexturesToGPU keeps Valid(): the records and frames PumpEffect
     * builds own the slots it takes (ConsistentPump). The source's Alloc
     * asserts a free slot for each frame; the precondition reserves them
     * up front.
     */
    method PumpTexturesToGPU(bgPath: string, comOk: bool, factoryOk: bool, load: string -> LoadOutcome,
                             upload: seq<bv8> -> FrameUpload)
      requires Valid()
      requires PumpActive() ==> |heap.freeIndices| >= |pendingFrames| + (if bgTexture == 0 then 2 else 0)
      modifies this`bgTexture, this`bg, this`loadingSrvs, this`loadingFrames, this`pendingFrames, this`texturesReady
      modifies heap, fence
      ensures Valid() && TexturesPumped(bgPath, comOk, factoryOk, load, upload)
    {
      PumpSteps(bgPath, comOk, factoryOk, load, upload);
      if old(PumpActive()) {
        ConsistentPump(old(heap.Geom()), old(Rec()), old(loadingFrames), old(heap.freeIndices), old(heap.capacity), bgPath,
          comOk, factoryOk, load, old(pendingFrames), upload);
        ValidOf(old(heap.Geom()), old(Rec()).(loadingSrvs := loadingSrvs, bgTexture := bgTexture, bg := bg), loadingFrames,
          heap.freeIndices, old(heap.capacity));
      } else {
        ValidOf(old(heap.Geom()), old(Rec()), old(loadingFrames), old(heap.freeIndices), old(heap.capacity));
      }
    }

    /** The steps of PumpTexturesToGPU, in the source's order (PumpSlots). */
    method PumpSteps(bgPath: string, comOk: bool, factoryOk: bool, load: string -> LoadOutcome,
                     upload: seq<bv8> -> FrameUpload)
      requires fence.Valid() && NonNullGeometry(heap.Geom()) && SrvsInHeap(heap.Geom(), loadingSrvs)
      requires PumpActive() ==> |heap.freeIndices| >= |pendingFrames| + (if bgTexture == 0 then 2 else 0)
      modifies this`bgTexture, this`bg, this`loadingSrvs, this`loadingFrames, this`pendingFrames, this`texturesReady
      modifies heap, fence
      ensures fence.Valid() && TexturesPumped(bgPath, comOk, factoryOk, load, upload)
    {
      if !PumpActive() {
        return;
      }
      var bgTexture', bg', srvs, frames :=
        PumpSlots(bgTexture, bg, bgPath, comOk, factoryOk, load, pendingFrames, upload, loadingSrvs, heap, fence);
      bgTexture, bg, loadingSrvs, loadingFrames, pendingFrames, texturesReady := bgTexture', bg', srvs, frames, [], true;
    }

    /**
     * The slot handling of SwapLoadingIconTheme: the textures are marked
     * not ready, on DX12 every loading-icon record is freed and dropped,
     * and the frames and pending bytes are cleared (ConsistentSwap). The
     * result is the folder and the frame count the new loader thread uses.
     */
    method SwapLoadingIconTheme(localAppData: string, theme: LoadingTheme) returns (folder: string, frameCount: nat)
      requires Valid()
      modifies this`texturesReady, this`loadingFrames, this`pendingFrames, this`loadingSrvs, heap
      ensures Valid()
      ensures folder == LoadingIconFolder(localAppData, theme) && frameCount == FrameCount(theme)
      ensures !texturesReady && loadingFrames == [] && pendingFrames == []
      ensures OnlyFreeListChanged(heap)
      ensures backend == DX12 ==>
        loadingSrvs == [] && heap.freeIndices == old(heap.freeIndices) + LoadingSlots(heap.Geom(), old(loadingSrvs))
      ensures backend == DX11 ==> loadingSrvs == old(loadingSrvs) && heap.freeIndices == old(heap.freeIndices)
    {
      if backend == DX12 {
        FreeLoadingSrvs(loadingSrvs, heap);
      }
      texturesReady, loadingFrames, pendingFrames := false, [], [];
      loadingSrvs := if backend == DX12 then [] else loadingSrvs;
      assert Rec() == if backend == DX12 then old(Rec()).(loadingSrvs := []) else old(Rec());
      ConsistentSwap(heap.Geom(), backend, old(Rec()), old(loadingFrames), old(heap.freeIndices), heap.capacity);
      folder, frameCount := LoadingIconFolder(localAppData, theme), FrameCount(theme);
    }

    /**
     * The texture release at shutdown: on DX12 a wait for the GPU first,
     * then FreeTexture on every loading frame and, while BgTexture is set,
     * on the background, which is then reset (ConsistentShutdown).
     */
    method ShutdownTextures()
      requires Valid()
      modifies this`loadingFrames, this`bg, this`bgTexture, heap, fence
      ensures Valid() && OnlyFreeListChanged(heap)
      ensures heap.freeIndices == old(heap.freeIndices) + BgSlots(old(heap.Geom()), old(bgTexture), old(bg), backend)
      ensures backend == DX12 ==> fence.lastSignaled == old(fence.lastSignaled) + 1 && fence.completed == fence.lastSignaled
      ensures backend == DX11 ==> unchanged(fence)
      ensures loadingFrames == [] && bgTexture == 0 && bg == (if old(bgTexture) != 0 then EmptyTexture else old(bg))
    {
      var bg' := ReleaseAtShutdown(bgTexture, bg, loadingFrames, backend, heap, fence);
      loadingFrames, bg, bgTexture := [], bg', 0;
      assert Rec() == old(Rec()).(bgTexture := 0, bg := bg');
      ConsistentShutdown(heap.Geom(), backend, old(Rec()), old(loadingFrames), old(heap.freeIndices), heap.capacity);
    }
  }
}
