/**
 * The decision logic of the custom widgets (custom_widgets.cpp): the
 * starting index and write-back of SnapSlider, the confirm step of
 * IntSliderWithEdit, the unallocated-space figure and the Create Partition
 * guard of DrawFormatWidget, and the selection rules of DrawDiskSelector,
 * DrawFormatWidget and the Refresh Disks button. Drawing, layout and the
 * user's interaction with the ImGui controls are parameters.
 */
module Widgets {
  import opened Text

  /** INT_MAX, the starting min_distance of SnapSlider. */
  const IntMax: int := 0x7FFF_FFFF

  /** abs(a - b), without the 32-bit overflow. */
  function Dist(a: int, b: int): nat
  {
    if a >= b then a - b else b - a
  }

  predicate HasExact(values: seq<int>, v: int)
  {
    exists i :: 0 <= i < |values| && values[i] == v
  }

  predicate SomeWithinIntMax(values: seq<int>, v: int)
  {
    exists i :: 0 <= i < |values| && Dist(values[i], v) < IntMax
  }

  /** k is the first of the indices nearest to v. */
  predicate IsFirstClosest(values: seq<int>, v: int, k: int)
  {
    0 <= k < |values|
    && (forall j :: 0 <= j < |values| ==> Dist(values[k], v) <= Dist(values[j], v))
    && (forall j :: 0 <= j < k ==> Dist(values[k], v) < Dist(values[j], v))
  }

  /**
   * The index SnapSlider starts from: the first exact match, otherwise the
   * first nearest value; index 0 when every distance reaches INT_MAX, as
   * the strict comparison with the initial min_distance never fires then.
   */
  predicate IsSnapStart(values: seq<int>, v: int, s: int)
  {
    0 <= s < |values|
    && if HasExact(values, v) then values[s] == v && forall j :: 0 <= j < s ==> values[j] != v
       else if SomeWithinIntMax(values, v) then IsFirstClosest(values, v, s)
       else s == 0
  }

  /** At most one index is the start: the rule above determines it. */
  lemma SnapStartUnique(values: seq<int>, v: int, s: int, t: int)
    requires IsSnapStart(values, v, s) && IsSnapStart(values, v, t)
    ensures s == t
  {
    if HasExact(values, v) {
      assert values[s] == v && values[t] == v;
    } else if SomeWithinIntMax(values, v) {
      assert Dist(values[s], v) <= Dist(values[t], v) && Dist(values[t], v) <= Dist(values[s], v);
    }
  }

  /** The search loop of SnapSlider over a non-empty list. */
  method SnapStartIndex(values: seq<int>, v: int) returns (currentIndex: int)
    requires values != []
    ensures IsSnapStart(values, v, currentIndex)
  {
    currentIndex := 0;
    var closestIndex := 0;
    var minDistance := IntMax;
    var found := false;
    for i := 0 to |values|
      invariant 0 <= closestIndex < |values|
      invariant minDistance <= IntMax
      invariant forall j :: 0 <= j < i ==> values[j] != v
      invariant minDistance == IntMax ==> closestIndex == 0 && forall j :: 0 <= j < i ==> Dist(values[j], v) >= IntMax
      invariant minDistance < IntMax ==> (closestIndex < i && Dist(values[closestIndex], v) == minDistance
        && (forall j :: 0 <= j < i ==> minDistance <= Dist(values[j], v))
        && (forall j :: 0 <= j < closestIndex ==> minDistance < Dist(values[j], v)))
      invariant !found
    {
      var distance := Dist(values[i], v);
      if distance < minDistance {
        minDistance := distance;
        closestIndex := i;
      }
      if values[i] == v {
        currentIndex := i;
        found := true;
        break;
      }
    }
    if minDistance > 0 {
      currentIndex := closestIndex;
    }
    if found {
      assert values[currentIndex] == v;
    } else {
      assert !HasExact(values, v);
      if SomeWithinIntMax(values, v) {
        var w :| 0 <= w < |values| && Dist(values[w], v) < IntMax;
        assert minDistance <= Dist(values[w], v);
      }
    }
  }

  /** The int the slider edits, reached through `int* v`. */
  class IntCell {
    var value: int

    constructor(value0: int)
      ensures value == value0
    {
      value := value0;
    }
  }

  /**
   * SnapSlider: nothing happens for an empty list or a null pointer;
   * otherwise the slider starts at the snap index and `slide` is where the
   * user leaves it; *v is written, and true returned, only when that index
   * moved and lies in the list.
   */
  method SnapSlider(values: seq<int>, v: IntCell?, slide: int -> int) returns (changed: bool)
    modifies v
    ensures values == [] || v == null ==> !changed
    ensures v != null && values == [] ==> v.value == old(v.value)
    ensures v != null && values != [] ==> exists s ::
        IsSnapStart(values, old(v.value), s)
        && (changed <==> slide(s) != s && 0 <= slide(s) < |values|)
        && (changed ==> v.value == values[slide(s)])
        && (!changed ==> v.value == old(v.value))
  {
    if values == [] || v == null {
      return false;
    }
    var currentIndex := SnapStartIndex(values, v.value);
    var prevIndex := currentIndex;
    currentIndex := slide(currentIndex);
    if currentIndex != prevIndex && currentIndex >= 0 && currentIndex < |values| {
      v.value := values[currentIndex];
      return true;
    }
    return false;
  }

  /** ImClamp(v, mn, mx): mn below, mx above, v otherwise. */
  function ImClamp(v: int, mn: int, mx: int): (r: int)
    ensures mn <= mx ==> mn <= r <= mx
    ensures mn <= v <= mx ==> r == v
    ensures r == v || r == mn || r == mx
  {
    if v < mn then mn else if v > mx then mx else v
  }

  /** The clamp is the nearest point of [mn, mx] to v, and clamping twice is clamping once. */
  lemma ImClampNearest(v: int, mn: int, mx: int)
    requires mn <= mx
    ensures forall x :: mn <= x <= mx ==> Dist(ImClamp(v, mn, mx), v) <= Dist(x, v)
    ensures ImClamp(ImClamp(v, mn, mx), mn, mx) == ImClamp(v, mn, mx)
  {
  }

  predicate IsSpace(c: char)
  {
    c == ' ' || c == '\t' || c == '\n' || c == '\U{B}' || c == '\U{C}' || c == '\r'
  }

  /** The leading white space atoi skips. */
  function SkipSpaces(s: seq<char>): (t: seq<char>)
    ensures |t| <= |s| && t == s[|s| - |t|..]
    ensures t != [] ==> !IsSpace(t[0])
    decreases |s|
  {
    if s != [] && IsSpace(s[0]) then SkipSpaces(s[1..]) else s
  }

  /** The length of the run of digits s starts with. */
  function DigitRun(s: seq<char>): (k: nat)
    ensures k <= |s|
    ensures forall i :: 0 <= i < k ==> '0' <= s[i] <= '9'
    ensures k < |s| ==> !('0' <= s[k] <= '9')
    decreases |s|
  {
    if s != [] && '0' <= s[0] <= '9' then 1 + DigitRun(s[1..]) else 0
  }

  /** The value of the digits s starts with. */
  function LeadingValue(s: seq<char>): nat
  {
    ParseDigits(s[..DigitRun(s)])
  }

  /** atoi: white space, an optional sign, then digits up to the first non-digit; 0 without digits. */
  function Atoi(s: seq<char>): int
  {
    var t := SkipSpaces(s);
    if t != [] && t[0] == '-' then -(LeadingValue(t[1..]) as int)
    else if t != [] && t[0] == '+' then LeadingValue(t[1..])
    else LeadingValue(t)
  }

  /** A run made only of digits is read whole. */
  lemma {:induction false} DigitRunAll(s: seq<char>)
    requires forall i :: 0 <= i < |s| ==> '0' <= s[i] <= '9'
    ensures DigitRun(s) == |s|
    decreases |s|
  {
    if s != [] {
      DigitRunAll(s[1..]);
    }
  }

  lemma LeadingValueOfDigits(m: nat)
    ensures LeadingValue(Digits(m)) == m
  {
    var d := Digits(m);
    DigitRunAll(d);
    assert d[..|d|] == d;
    ParseDigitsOfDigits(m);
  }

  lemma NoSpaceStart(s: seq<char>)
    requires s != [] && !IsSpace(s[0])
    ensures SkipSpaces(s) == s
  {
  }

  lemma AtoiNegative(m: nat, d: seq<char>)
    requires m > 0 && d == "-" + Digits(m)
    ensures Atoi(d) == -(m as int)
  {
    NoSpaceStart(d);
    assert d[0] == '-' && d[1..] == Digits(m);
    LeadingValueOfDigits(m);
  }

  lemma AtoiNonNegative(m: nat, d: seq<char>)
    requires d == Digits(m)
    ensures Atoi(d) == m
  {
    NoSpaceStart(d);
    assert d[0] != '-' && d[0] != '+';
    LeadingValueOfDigits(m);
  }

  /** atoi reads back what "%d" printed. */
  lemma AtoiOfDecimal(n: int)
    ensures Atoi(DecimalText(n)) == n
  {
    if n < 0 {
      AtoiNegative(-n, DecimalText(n));
    } else {
      AtoiNonNegative(n, DecimalText(n));
    }
  }

  /**
   * The edit state of IntSliderWithEdit (both static in the source, so one
   * state for every such widget) together with the int it edits.
   */
  class SliderEdit {
    var editing: bool
    var buffer: seq<char>
    var value: int

    constructor(value0: int)
      ensures !editing && buffer == [] && value == value0
    {
      editing := false;
      buffer := [];
      value := value0;
    }

    /** The E button: start editing with the value printed into the buffer. */
    method BeginEdit()
      modifies this`editing, this`buffer
      ensures editing && buffer == DecimalText(value)
    {
      editing := true;
      buffer := DecimalText(value);
    }

    /** The user's typing replaces the buffer. */
    method Type(text: seq<char>)
      modifies this`buffer
      ensures buffer == text
    {
      buffer := text;
    }

    /** Enter or OK: the buffer is parsed, clamped into [mn, mx] and written back; editing ends. */
    method Confirm(mn: int, mx: int) returns (changed: bool)
      modifies this`value, this`editing
      ensures value == ImClamp(Atoi(buffer), mn, mx) && !editing && changed
    {
      value := Atoi(buffer);
      value := ImClamp(value, mn, mx);
      editing := false;
      changed := true;
    }
  }

  /** Confirming an untouched edit clamps the value it started from: an in-range value is kept. */
  lemma ConfirmUntouched(value: int, mn: int, mx: int)
    ensures ImClamp(Atoi(DecimalText(value)), mn, mx) == ImClamp(value, mn, mx)
    ensures mn <= value <= mx ==> ImClamp(Atoi(DecimalText(value)), mn, mx) == value
  {
    AtoiOfDecimal(value);
  }

  /** 1 MiB (1ull << 20): partitions up to this size (EFI, MSR) are not counted as used. */
  const MiB: nat := 0x10_0000

  /** Disk::IsValidIndex. */
  predicate IsValidIndex(idx: int, size: int)
  {
    idx >= 0 && idx < size
  }

  /** The sum of the partition sizes above 1 MiB. */
  function UsedSpace(sizes: seq<nat>): nat
    decreases |sizes|
  {
    if sizes == [] then 0
    else UsedSpace(sizes[..|sizes| - 1]) + (if sizes[|sizes| - 1] > MiB then sizes[|sizes| - 1] else 0)
  }

  /** The unallocated space DrawFormatWidget shows for the selected disk. */
  function Unallocated(selectedDisk: int, diskSizes: seq<nat>, partitionSizes: seq<nat>): nat
  {
    if IsValidIndex(selectedDisk, |diskSizes|) && UsedSpace(partitionSizes) < diskSizes[selectedDisk]
    then diskSizes[selectedDisk] - UsedSpace(partitionSizes)
    else 0
  }

  /** The loop of DrawFormatWidget computing the unallocated space. */
  method UnallocatedSpace(selectedDisk: int, diskSizes: seq<nat>, partitionSizes: seq<nat>) returns (unallocated: nat)
    ensures unallocated == Unallocated(selectedDisk, diskSizes, partitionSizes)
  {
    unallocated := 0;
    var validDisk := selectedDisk >= 0 && selectedDisk < |diskSizes|;
    if validDisk {
      var used := 0;
      for n := 0 to |partitionSizes|
        invariant used == UsedSpace(partitionSizes[..n])
      {
        assert partitionSizes[..n + 1][..n] == partitionSizes[..n];
        if partitionSizes[n] > MiB {
          used := used + partitionSizes[n];
        }
      }
      assert partitionSizes[..|partitionSizes|] == partitionSizes;
      var total := diskSizes[selectedDisk];
      if used < total {
        unallocated := total - used;
      }
    }
  }

  /**
   * The figure never exceeds the disk, is 0 without a valid disk, and when
   * positive it is exactly what the counted partitions leave.
   */
  lemma UnallocatedBounds(selectedDisk: int, diskSizes: seq<nat>, partitionSizes: seq<nat>)
    ensures !IsValidIndex(selectedDisk, |diskSizes|) ==> Unallocated(selectedDisk, diskSizes, partitionSizes) == 0
    ensures IsValidIndex(selectedDisk, |diskSizes|) ==> Unallocated(selectedDisk, diskSizes, partitionSizes) <= diskSizes[selectedDisk]
    ensures Unallocated(selectedDisk, diskSizes, partitionSizes) > 0 ==>
      Unallocated(selectedDisk, diskSizes, partitionSizes) + UsedSpace(partitionSizes) == diskSizes[selectedDisk]
  {
  }

  /** A partition of at most 1 MiB never changes the figure; a larger one never raises it. */
  lemma {:induction false} UsedSpaceAppend(sizes: seq<nat>, more: seq<nat>)
    ensures UsedSpace(sizes + more) == UsedSpace(sizes) + UsedSpace(more)
    decreases |more|
  {
    if more == [] {
      assert sizes + more == sizes;
    } else {
      var init := more[..|more| - 1];
      assert (sizes + more)[..|sizes + more| - 1] == sizes + init;
      UsedSpaceAppend(sizes, init);
    }
  }

  /** Adding a partition: the small ones are ignored and no partition frees space. */
  lemma UnallocatedAddPartition(selectedDisk: int, diskSizes: seq<nat>, partitionSizes: seq<nat>, size: nat)
    ensures size <= MiB ==> Unallocated(selectedDisk, diskSizes, partitionSizes + [size]) == Unallocated(selectedDisk, diskSizes, partitionSizes)
    ensures Unallocated(selectedDisk, diskSizes, partitionSizes + [size]) <= Unallocated(selectedDisk, diskSizes, partitionSizes)
  {
    UsedSpaceAppend(partitionSizes, [size]);
    assert [size][..0] == [];
  }

  /** The Create Partition button is enabled for a valid disk with at least 1 MiB unallocated. */
  predicate CreatePartitionEnabled(selectedDisk: int, diskSizes: seq<nat>, partitionSizes: seq<nat>)
  {
    IsValidIndex(selectedDisk, |diskSizes|) && Unallocated(selectedDisk, diskSizes, partitionSizes) >= MiB
  }

  /** An enabled button means the counted partitions leave at least 1 MiB of the disk. */
  lemma CreatePartitionEnabledRoom(selectedDisk: int, diskSizes: seq<nat>, partitionSizes: seq<nat>)
    ensures CreatePartitionEnabled(selectedDisk, diskSizes, partitionSizes)
      <==> IsValidIndex(selectedDisk, |diskSizes|) && UsedSpace(partitionSizes) + MiB <= diskSizes[selectedDisk]
  {
  }

  /** DiskSelection: the selections of the Disk Selector window, -1 for none. */
  class DiskSelection {
    var physicalIndex: int
    var volumeIndex: int
    var partitionIndex: int

    constructor()
      ensures physicalIndex == -1 && volumeIndex == -1 && partitionIndex == -1
      ensures VolumeExclusive()
    {
      physicalIndex := -1;
      volumeIndex := -1;
      partitionIndex := -1;
    }

    /** A selected volume excludes a selected physical disk and partition. */
    predicate VolumeExclusive()
      reads this
    {
      volumeIndex >= 0 ==> physicalIndex < 0 && partitionIndex < 0
    }

    /** A row of the Physical tab. */
    method SelectPhysical(i: int)
      modifies this
      ensures physicalIndex == i && volumeIndex == -1 && partitionIndex == -1
      ensures VolumeExclusive()
    {
      physicalIndex := i;
      volumeIndex := -1;
      partitionIndex := -1;
    }

    /** A row of the Disks tab. */
    method SelectVolume(i: int)
      modifies this
      ensures volumeIndex == i && physicalIndex == -1 && partitionIndex == -1
      ensures VolumeExclusive()
    {
      volumeIndex := i;
      physicalIndex := -1;
      partitionIndex := -1;
    }

    /** A row of the Partitions tab: the physical selection stays. */
    method SelectPartition(i: int)
      modifies this`partitionIndex, this`volumeIndex
      ensures partitionIndex == i && volumeIndex == -1
      ensures VolumeExclusive()
    {
      partitionIndex := i;
      volumeIndex := -1;
    }
  }

  /** The selections of FormatUIState. */
  class FormatSelection {
    var selectedDisk: int
    var selectedPartition: int

    constructor()
      ensures selectedDisk == -1 && selectedPartition == -1
    {
      selectedDisk := -1;
      selectedPartition := -1;
    }
  }

  /** AppState.NeedsRefresh. */
  class RefreshFlag {
    var needsRefresh: bool

    constructor()
      ensures needsRefresh
    {
      needsRefresh := true;
    }
  }

  /** The Refresh Disks button: a refresh is requested and both format selections are cleared. */
  method RefreshDisks(app: RefreshFlag, ui: FormatSelection)
    modifies app`needsRefresh, ui`selectedDisk, ui`selectedPartition
    ensures app.needsRefresh && ui.selectedDisk == -1 && ui.selectedPartition == -1
  {
    app.needsRefresh := true;
    ui.selectedDisk := -1;
    ui.selectedPartition := -1;
  }

  /**
   * A disk row of DrawFormatWidget: the format selection moves to the disk
   * and the application's physical selection follows, but the volume
   * selection is left as it was (the partition list reload is not modelled).
   */
  method SelectFormatDisk(ui: FormatSelection, sel: DiskSelection, i: int)
    modifies ui`selectedDisk, ui`selectedPartition, sel`physicalIndex
    ensures ui.selectedDisk == i && ui.selectedPartition == -1 && sel.physicalIndex == i
  {
    ui.selectedDisk := i;
    ui.selectedPartition := -1;
    sel.physicalIndex := i;
  }

  /** A partition row of DrawFormatWidget: both partition selections move to it. */
  method SelectFormatPartition(ui: FormatSelection, sel: DiskSelection, i: int)
    modifies ui`selectedPartition, sel`partitionIndex
    ensures ui.selectedPartition == i && sel.partitionIndex == i
  {
    ui.selectedPartition := i;
    sel.partitionIndex := i;
  }
}
