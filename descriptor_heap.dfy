/**
 * The shader-visible SRV descriptor heap of the DirectX 12 back end and its
 * LIFO free-list allocator (ExampleDescriptorHeapAllocator in main.cpp).
 *
 * A descriptor handle is a pointer-sized integer: heap start plus
 * index times the handle increment. Handles are modelled as `nat`, with 0
 * standing for a null handle.
 */
module DescriptorHeap {

  /** Number of descriptors in the application's SRV heap. */
  const SrvHeapSize: nat := 64

  /** The handle of descriptor `idx` in a heap starting at `start`. */
  function HandleAt(start: nat, increment: nat, idx: nat): nat
  {
    start + idx * increment
  }

  /** Euclidean division is unique: used to recover an index from a handle. */
  lemma DivUnique(a: int, d: int, q: int, r: int)
    requires d > 0 && 0 <= r < d && a == d * q + r
    ensures a / d == q && a % d == r
  {
    var k := a / d - q;
    assert d * k == r - a % d;
    assert k > 0 ==> d * k >= d;
    assert k < 0 ==> d * k <= -d;
  }

  /** Free recovers the index Alloc encoded into a handle, from either heap start. */
  lemma HandleIndex(start: nat, increment: nat, idx: nat)
    requires increment > 0
    ensures HandleAt(start, increment, idx) >= start
    ensures (HandleAt(start, increment, idx) - start) / increment == idx
    ensures (HandleAt(start, increment, idx) - start) % increment == 0
  {
    DivUnique(idx * increment, increment, idx, 0);
  }

  /**
   * The free list Create builds for `n` descriptors: it pushes n-1 first and
   * 0 last, so the back of the list, which Alloc pops, is 0.
   */
  function InitialFreeList(n: nat): (r: seq<nat>)
    ensures |r| == n
    ensures forall k :: 0 <= k < n ==> r[k] == n - 1 - k
  {
    if n == 0 then [] else [n - 1] + InitialFreeList(n - 1)
  }

  /** The push loop of Create: n-1 first, down to 0. */
  method PushDown(n: nat) returns (list: seq<nat>)
    ensures list == InitialFreeList(n)
  {
    list := [];
    var i := n;
    while i > 0
      invariant 0 <= i <= n
      invariant |list| == n - i
      invariant forall k :: 0 <= k < |list| ==> list[k] == n - 1 - k
    {
      list := list + [i - 1];
      i := i - 1;
    }
  }

  /** The multiset holding each index 0..n-1 exactly once. */
  ghost function SlotRange(n: nat): multiset<nat>
  {
    if n == 0 then multiset{} else SlotRange(n - 1) + multiset{n - 1}
  }

  /**
   * The multiset of a list of slot indices, built from the back. It is
   * multiset(s) (BagIsMultiset); the renderer's invariant counts slots in
   * this form.
   */
  ghost function Bag(s: seq<nat>): multiset<nat>
    decreases |s|
  {
    if s == [] then multiset{} else Bag(s[..|s| - 1]) + multiset{s[|s| - 1]}
  }

  lemma {:induction false} BagIsMultiset(s: seq<nat>)
    decreases |s|
    ensures Bag(s) == multiset(s)
  {
    if s != [] {
      BagIsMultiset(s[..|s| - 1]);
      assert s == s[..|s| - 1] + [s[|s| - 1]];
    }
  }

  /** Counting a concatenation counts both parts. */
  lemma BagAppend(a: seq<nat>, b: seq<nat>)
    ensures Bag(a + b) == Bag(a) + Bag(b)
  {
    BagIsMultiset(a);
    BagIsMultiset(b);
    BagIsMultiset(a + b);
  }

  lemma {:induction false} SlotRangeCount(n: nat, x: nat)
    ensures SlotRange(n)[x] == if x < n then 1 else 0
  {
    if n > 0 {
      SlotRangeCount(n - 1, x);
    }
  }

  /**
   * The allocator's invariant: every index below `n` is either in the free
   * list exactly once or held by a client, never both, and nothing else is
   * in either.
   */
  ghost predicate FreeOrHeld(free: seq<nat>, held: set<nat>, n: nat)
  {
    multiset(free) + multiset(held) == SlotRange(n)
  }

  /** The freshly created free list holds 0..n-1 once each, and nothing is held. */
  lemma {:induction false} InitialFreeListIsRange(n: nat)
    ensures multiset(InitialFreeList(n)) == SlotRange(n)
    ensures FreeOrHeld(InitialFreeList(n), {}, n)
  {
    if n > 0 {
      InitialFreeListIsRange(n - 1);
      var rest := InitialFreeList(n - 1);
      assert InitialFreeList(n) == [n - 1] + rest;
      assert multiset([n - 1] + rest) == multiset{n - 1} + multiset(rest);
    }
    var none: set<nat> := {};
    assert multiset(none) == multiset{};
  }

  /** The indices that k successive Allocs return from `free`, in order. */
  function PopOrder(free: seq<nat>, k: nat): (r: seq<nat>)
    requires k <= |free|
    ensures |r| == k
    ensures forall j :: 0 <= j < k ==> r[j] == free[|free| - 1 - j]
  {
    if k == 0 then [] else [free[|free| - 1]] + PopOrder(free[..|free| - 1], k - 1)
  }

  /** On a fresh n-slot heap, successive Allocs return 0, 1, 2, ... */
  lemma AllocsAscend(n: nat, k: nat)
    requires k <= n
    ensures PopOrder(InitialFreeList(n), k) == seq(k, j => j)
  {
    var r := PopOrder(InitialFreeList(n), k);
    forall j | 0 <= j < k
      ensures r[j] == j
    {
      assert InitialFreeList(n)[n - 1 - j] == j;
    }
  }

  /** An index held by a client can be freed without breaking the invariant; any other index cannot. */
  lemma FreeKeepsInvariantIffHeld(free: seq<nat>, held: set<nat>, n: nat, idx: nat)
    requires FreeOrHeld(free, held, n)
    ensures FreeOrHeld(free + [idx], held - {idx}, n) <==> idx in held
  {
    assert multiset(free + [idx]) == multiset(free) + multiset{idx};
    if idx in held {
      assert multiset(held) == multiset(held - {idx}) + multiset{idx};
    } else {
      var m := multiset(free + [idx]) + multiset(held - {idx});
      assert held - {idx} == held;
      assert |m| == |SlotRange(n)| + 1;
    }
  }

  /** Popping the back of the free list hands out an index nobody holds. */
  lemma AllocKeepsInvariant(free: seq<nat>, held: set<nat>, n: nat)
    requires FreeOrHeld(free, held, n) && |free| > 0
    ensures free[|free| - 1] !in held && free[|free| - 1] < n
    ensures FreeOrHeld(free[..|free| - 1], held + {free[|free| - 1]}, n)
  {
    var idx: nat := free[|free| - 1];
    assert free == free[..|free| - 1] + [idx];
    assert multiset(free) == multiset(free[..|free| - 1]) + multiset{idx};
    SlotRangeCount(n, idx);
    assert multiset(free)[idx] >= 1;
    assert (multiset(free) + multiset(held))[idx] == SlotRange(n)[idx];
    assert multiset(held)[idx] == 0;
    assert multiset(held + {idx}) == multiset(held) + multiset{idx};
  }

  /** Alloc followed by Free of the handles it returned leaves the free list as it was. */
  lemma AllocThenFreeRestores(free: seq<nat>, start: nat, increment: nat)
    requires |free| > 0 && increment > 0
    ensures free[..|free| - 1] + [(HandleAt(start, increment, free[|free| - 1]) - start) / increment] == free
  {
    HandleIndex(start, increment, free[|free| - 1]);
  }

  /** The handle layout of a heap: its CPU and GPU start handles and the handle increment. */
  datatype Geometry = Geometry(startCpu: nat, startGpu: nat, increment: nat)

  /** The slot index Free derives from a handle: its offset from the start, divided by the increment. */
  function SlotOf(start: nat, increment: nat, handle: nat): nat
    requires increment > 0 && start <= handle
  {
    (handle - start) / increment
  }

  /**
   * ExampleDescriptorHeapAllocator: `heapPresent` stands for Heap != nullptr,
   * and the free list is FreeIndices. The ghost set `held` holds the indices
   * handed out and not yet returned, and `capacity` holds the heap's
   * NumDescriptors.
   */
  class DescriptorHeapAllocator {
    var heapPresent: bool
    var heapStartCpu: nat
    var heapStartGpu: nat
    var increment: nat
    var freeIndices: seq<nat>
    ghost var held: set<nat>
    ghost var capacity: nat

    ghost predicate Sound()
      reads this
    {
      FreeOrHeld(freeIndices, held, capacity)
    }

    /** The index that Free derives from a CPU handle. */
    function CpuIndex(cpu: nat): nat
      reads this
      requires increment > 0 && heapStartCpu <= cpu
    {
      SlotOf(heapStartCpu, increment, cpu)
    }

    function Geom(): Geometry
      reads this
    {
      Geometry(heapStartCpu, heapStartGpu, increment)
    }

    /** A default-constructed allocator: no heap, empty list. */
    constructor ()
      ensures !heapPresent && heapStartCpu == 0 && heapStartGpu == 0 && increment == 0
      ensures freeIndices == [] && held == {} && capacity == 0 && Sound()
    {
      heapPresent, heapStartCpu, heapStartGpu, increment := false, 0, 0, 0;
      freeIndices, held, capacity := [], {}, 0;
    }

    /**
     * Create takes a heap of `numDescriptors` slots whose start handles are
     * `startCpu`/`startGpu` and whose handle increment is `inc`. It requires
     * that no heap is attached and that the list is empty. It then pushes
     * n-1 down to 0.
     */
    method Create(startCpu: nat, startGpu: nat, inc: nat, numDescriptors: nat)
      requires !heapPresent && freeIndices == []
      modifies this
      ensures heapPresent && heapStartCpu == startCpu && heapStartGpu == startGpu && increment == inc
      ensures freeIndices == InitialFreeList(numDescriptors)
      ensures held == {} && capacity == numDescriptors && Sound()
    {
      var list := PushDown(numDescriptors);
      heapPresent := true;
      heapStartCpu, heapStartGpu, increment := startCpu, startGpu, inc;
      freeIndices, held, capacity := list, {}, numDescriptors;
      InitialFreeListIsRange(numDescriptors);
    }

    /** Destroy detaches the heap and empties the list (nothing is held any more). */
    method Destroy()
      modifies this
      ensures !heapPresent && freeIndices == [] && held == {} && capacity == 0 && Sound()
      ensures heapStartCpu == old(heapStartCpu) && heapStartGpu == old(heapStartGpu)
      ensures increment == old(increment)
    {
      heapPresent := false;
      freeIndices := [];
      held, capacity := {}, 0;
    }

    /**
     * Alloc pops the back index of a non-empty list and returns its CPU and
     * GPU handles; under the invariant the index was not held and is below
     * the capacity.
     */
    method Alloc() returns (cpu: nat, gpu: nat)
      requires |freeIndices| > 0
      modifies this
      ensures var idx := old(freeIndices[|freeIndices| - 1]);
        && cpu == HandleAt(heapStartCpu, increment, idx)
        && gpu == HandleAt(heapStartGpu, increment, idx)
        && freeIndices == old(freeIndices[..|freeIndices| - 1])
        && held == old(held) + {idx}
        && (old(Sound()) ==> Sound() && idx !in old(held) && idx < capacity)
      ensures heapPresent == old(heapPresent) && capacity == old(capacity)
      ensures heapStartCpu == old(heapStartCpu) && heapStartGpu == old(heapStartGpu)
      ensures increment == old(increment)
    {
      var idx := freeIndices[|freeIndices| - 1];
      if Sound() {
        AllocKeepsInvariant(freeIndices, held, capacity);
      }
      freeIndices := freeIndices[..|freeIndices| - 1];
      held := held + {idx};
      cpu := HandleAt(heapStartCpu, increment, idx);
      gpu := HandleAt(heapStartGpu, increment, idx);
    }

    /**
     * Free derives the index from each handle, requires the two to agree,
     * and pushes it back without checking that it was held: the invariant
     * survives exactly when it was.
     */
    method Free(cpu: nat, gpu: nat)
      requires increment > 0 && heapStartCpu <= cpu && heapStartGpu <= gpu
      requires (cpu - heapStartCpu) / increment == (gpu - heapStartGpu) / increment
      modifies this
      ensures freeIndices == old(freeIndices) + [old(CpuIndex(cpu))]
      ensures held == old(held) - {old(CpuIndex(cpu))}
      ensures old(Sound()) ==> (Sound() <==> old(CpuIndex(cpu)) in old(held))
      ensures heapPresent == old(heapPresent) && capacity == old(capacity)
      ensures heapStartCpu == old(heapStartCpu) && heapStartGpu == old(heapStartGpu)
      ensures increment == old(increment)
    {
      var idx := SlotOf(heapStartCpu, increment, cpu);
      if Sound() {
        FreeKeepsInvariantIffHeld(freeIndices, held, capacity, idx);
      }
      freeIndices := freeIndices + [idx];
      held := held - {idx};
    }

    /**
     * DX12_FreeSrvByImTextureID: treats a texture id as a GPU handle of this
     * heap and frees its slot. Nothing changes for a null id, a missing heap,
     * an id below the heap's GPU start, a zero increment or an offset that is
     * not a multiple of the increment.
     */
    method FreeSrvByTextureId(id: nat)
      modifies this
      ensures var ignored := id == 0 || !old(heapPresent) || id < old(heapStartGpu)
          || old(increment) == 0 || (id - old(heapStartGpu)) % old(increment) != 0;
        if ignored then
          freeIndices == old(freeIndices) && held == old(held)
        else
          var idx := (id - old(heapStartGpu)) / old(increment);
          && freeIndices == old(freeIndices) + [idx]
          && held == old(held) - {idx}
          && (old(Sound()) ==> (Sound() <==> idx in old(held)))
      ensures heapPresent == old(heapPresent) && capacity == old(capacity)
      ensures heapStartCpu == old(heapStartCpu) && heapStartGpu == old(heapStartGpu)
      ensures increment == old(increment)
    {
      if id == 0 || !heapPresent {
        return;
      }
      if id < heapStartGpu {
        return;
      }
      var offset := id - heapStartGpu;
      if increment == 0 || offset % increment != 0 {
        return;
      }
      Free(heapStartCpu + offset, id);
    }
  }
}
