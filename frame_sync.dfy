/**
 * The DirectX 12 fence bookkeeping of main.cpp: the counter of the last
 * value signalled on the command queue, the two frame contexts with the
 * fence value of the frame last submitted from each, and the two waits.
 *
 * The GPU's completed fence value belongs to the environment. It only
 * grows and never exceeds the last value signalled, and the waits model
 * blocking by the value the GPU has reached when the wait returns.
 */
module FrameSync {

  /** APP_NUM_FRAMES_IN_FLIGHT. */
  const NumFramesInFlight: nat := 2

  /** g_frameIndex is a 32-bit unsigned counter. */
  const FrameIndexModulus: nat := 0x1_0000_0000

  ghost predicate StrictlyIncreasing(s: seq<nat>)
  {
    forall i, j :: 0 <= i < j < |s| ==> s[i] < s[j]
  }

  /** The frame context a frame index selects. */
  function ContextOf(frameIndex: nat): (ctx: nat)
    ensures ctx < NumFramesInFlight
    ensures (frameIndex - ctx) % NumFramesInFlight == 0
  {
    frameIndex % NumFramesInFlight
  }

  /** g_frameIndex++ on the 32-bit counter. */
  function NextFrameIndex(frameIndex: nat): (r: nat)
    requires frameIndex < FrameIndexModulus
    ensures r < FrameIndexModulus
    ensures frameIndex + 1 < FrameIndexModulus ==> r == frameIndex + 1
    ensures frameIndex + 1 == FrameIndexModulus ==> r == 0
  {
    (frameIndex + 1) % FrameIndexModulus
  }

  /**
   * Consecutive frames use different contexts, even when the 32-bit frame
   * counter wraps around, because its modulus is even.
   */
  lemma ContextsAlternate(frameIndex: nat)
    requires frameIndex < FrameIndexModulus
    ensures ContextOf(NextFrameIndex(frameIndex)) != ContextOf(frameIndex)
  {
    if frameIndex + 1 == FrameIndexModulus {
      assert NextFrameIndex(frameIndex) == 0;
    } else {
      assert NextFrameIndex(frameIndex) == frameIndex + 1;
    }
  }

  class FenceTimeline {
    /** g_fenceLastSignaledValue. */
    var lastSignaled: nat
    /** The GPU fence's completed value (environment). */
    var completed: nat
    /** g_frameContext[i].FenceValue. */
    var frameFence: seq<nat>
    /** g_frameIndex. */
    var frameIndex: nat
    /** Every value signalled so far, in order. */
    ghost var signals: seq<nat>

    ghost predicate Valid()
      reads this
    {
      && completed <= lastSignaled
      && |frameFence| == NumFramesInFlight
      && (forall i :: 0 <= i < |frameFence| ==> frameFence[i] <= lastSignaled)
      && frameIndex < FrameIndexModulus
      && StrictlyIncreasing(signals)
      && (forall i :: 0 <= i < |signals| ==> 0 < signals[i] <= lastSignaled)
      && (signals == [] <==> lastSignaled == 0)
      && (signals != [] ==> signals[|signals| - 1] == lastSignaled)
    }

    /** The zero-initialised globals. */
    constructor ()
      ensures Valid()
      ensures lastSignaled == 0 && completed == 0 && frameFence == [0, 0] && frameIndex == 0
      ensures signals == []
    {
      lastSignaled, completed, frameFence, frameIndex := 0, 0, [0, 0], 0;
      signals := [];
    }

    /** Signal(g_fence, ++g_fenceLastSignaledValue): returns the new, strictly larger value. */
    method Signal() returns (fv: nat)
      requires Valid()
      modifies this
      ensures Valid()
      ensures fv == old(lastSignaled) + 1 && lastSignaled == fv
      ensures signals == old(signals) + [fv]
      ensures forall i :: 0 <= i < |old(signals)| ==> old(signals)[i] < fv
      ensures completed == old(completed) && frameFence == old(frameFence)
      ensures frameIndex == old(frameIndex)
    {
      lastSignaled := lastSignaled + 1;
      fv := lastSignaled;
      signals := signals + [fv];
    }

    /** The GPU makes progress: the completed value grows, up to the last value signalled. */
    method GpuProgress(reached: nat)
      requires Valid() && completed <= reached <= lastSignaled
      modifies this
      ensures Valid() && completed == reached
      ensures lastSignaled == old(lastSignaled) && frameFence == old(frameFence)
      ensures frameIndex == old(frameIndex) && signals == old(signals)
    {
      completed := reached;
    }

    /**
     * WaitForPendingOperations: signals a new value and blocks until the GPU
     * has reached it, so afterwards all submitted work is complete.
     */
    method WaitForPendingOperations()
      requires Valid()
      modifies this
      ensures Valid()
      ensures lastSignaled == old(lastSignaled) + 1 && completed == lastSignaled
      ensures signals == old(signals) + [lastSignaled]
      ensures frameFence == old(frameFence) && frameIndex == old(frameIndex)
    {
      var fv := Signal();
      completed := fv;
    }

    /**
     * WaitForNextFrameContext: selects context g_frameIndex mod 2. When the
     * GPU has not reached that context's fence value it also waits on the
     * fence, so on return the work last submitted from this context is
     * complete. `reached` is the GPU's completed value on return.
     */
    method WaitForNextFrameContext(reached: nat) returns (ctx: nat, waitedOnFence: bool)
      requires Valid() && completed <= reached <= lastSignaled
      requires frameFence[ContextOf(frameIndex)] <= reached
      modifies this
      ensures Valid()
      ensures ctx == ContextOf(frameIndex)
      ensures waitedOnFence == (old(completed) < frameFence[ctx])
      ensures completed == reached && completed >= frameFence[ctx]
      ensures lastSignaled == old(lastSignaled) && frameFence == old(frameFence)
      ensures frameIndex == old(frameIndex) && signals == old(signals)
    {
      ctx := frameIndex % NumFramesInFlight;
      waitedOnFence := completed < frameFence[ctx];
      completed := reached;
    }

    /**
     * The end of a DX12 frame: signal ++g_fenceLastSignaledValue, store it
     * as the context's FenceValue, then advance g_frameIndex.
     */
    method EndFrame(ctx: nat)
      requires Valid() && ctx == ContextOf(frameIndex)
      modifies this
      ensures Valid()
      ensures lastSignaled == old(lastSignaled) + 1
      ensures frameFence == old(frameFence)[ctx := lastSignaled]
      ensures frameIndex == NextFrameIndex(old(frameIndex))
      ensures ContextOf(frameIndex) != ctx
      ensures completed == old(completed) && signals == old(signals) + [lastSignaled]
    {
      var fv := Signal();
      frameFence := frameFence[ctx := fv];
      ContextsAlternate(frameIndex);
      frameIndex := (frameIndex + 1) % FrameIndexModulus;
    }
  }
}
