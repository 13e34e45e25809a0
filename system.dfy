/**
 * The display-mode lists of the Display helpers (system.cpp): the
 * de-duplications of UniqueResolutions and EnumerateResolutions, the
 * aspect filter, and the refresh-rate list of the resolution picker.
 * Widths, heights and rates are unbounded integers; the 32-bit products of
 * the aspect test do not overflow for real display sizes and are not
 * modelled.
 */
module Display {

  /** struct Resolution. */
  datatype Resolution = Resolution(width: int, height: int, refresh: int)

  /** The (Width, Height) pair UniqueResolutions compares. */
  function SizeKey(r: Resolution): (int, int)
  {
    (r.width, r.height)
  }

  /** The whole mode, as EnumerateResolutions compares it. */
  function ModeKey(r: Resolution): Resolution
  {
    r
  }

  /** Some entry of s has key k. */
  predicate HasKey<K(==)>(s: seq<Resolution>, key: Resolution -> K, k: K)
  {
    exists j :: 0 <= j < |s| && key(s[j]) == k
  }

  /** The result of the de-duplicating loop: an entry is appended unless its key is already in the output. */
  function DedupBy<K(==)>(s: seq<Resolution>, key: Resolution -> K): seq<Resolution>
    decreases |s|
  {
    if s == [] then []
    else
      var d := DedupBy(s[..|s| - 1], key);
      if HasKey(d, key, key(s[|s| - 1])) then d else d + [s[|s| - 1]]
  }

  /** The entries of s whose key does not occur earlier in s, in order. */
  function FirstsBy<K(==)>(s: seq<Resolution>, key: Resolution -> K): seq<Resolution>
    decreases |s|
  {
    if s == [] then []
    else
      var init := s[..|s| - 1];
      FirstsBy(init, key) + (if HasKey(init, key, key(s[|s| - 1])) then [] else [s[|s| - 1]])
  }

  lemma HasKeySnoc<K>(s: seq<Resolution>, x: Resolution, key: Resolution -> K, k: K)
    ensures HasKey(s + [x], key, k) <==> HasKey(s, key, k) || key(x) == k
  {
    if HasKey(s + [x], key, k) {
      var j :| 0 <= j < |s + [x]| && key((s + [x])[j]) == k;
      if j < |s| {
        assert key(s[j]) == k;
      }
    }
    if HasKey(s, key, k) {
      var j :| 0 <= j < |s| && key(s[j]) == k;
      assert key((s + [x])[j]) == k;
    }
    if key(x) == k {
      assert key((s + [x])[|s|]) == k;
    }
  }

  /** The output and the input have the same keys: nothing is lost, nothing is invented. */
  lemma {:induction false} DedupKeys<K>(s: seq<Resolution>, key: Resolution -> K, k: K)
    ensures HasKey(DedupBy(s, key), key, k) <==> HasKey(s, key, k)
    decreases |s|
  {
    if s != [] {
      var init := s[..|s| - 1];
      var last := s[|s| - 1];
      assert s == init + [last];
      DedupKeys(init, key, k);
      DedupKeys(init, key, key(last));
      HasKeySnoc(init, last, key, k);
      HasKeySnoc(DedupBy(init, key), last, key, k);
    }
  }

  predicate KeysDistinct<K(==)>(d: seq<Resolution>, key: Resolution -> K)
  {
    forall i, j :: 0 <= i < j < |d| ==> key(d[i]) != key(d[j])
  }

  /** No key occurs twice in the output. */
  lemma {:induction false} DedupNoRepeat<K>(s: seq<Resolution>, key: Resolution -> K)
    ensures KeysDistinct(DedupBy(s, key), key)
    decreases |s|
  {
    if s != [] {
      var init := s[..|s| - 1];
      var last := s[|s| - 1];
      var d0 := DedupBy(init, key);
      DedupNoRepeat(init, key);
      if !HasKey(d0, key, key(last)) {
        var d := d0 + [last];
        forall i, j | 0 <= i < j < |d|
          ensures key(d[i]) != key(d[j])
        {
          if j == |d0| {
            assert d[i] == d0[i] && d[j] == last;
            assert !(0 <= i < |d0| && key(d0[i]) == key(last));
          } else {
            assert d[i] == d0[i] && d[j] == d0[j];
            assert key(d0[i]) != key(d0[j]);
          }
        }
      }
    }
  }

  /** The loop keeps exactly the first entry of each key, in input order. */
  lemma {:induction false} DedupIsFirsts<K>(s: seq<Resolution>, key: Resolution -> K)
    ensures DedupBy(s, key) == FirstsBy(s, key)
    decreases |s|
  {
    if s != [] {
      var init := s[..|s| - 1];
      DedupIsFirsts(init, key);
      DedupKeys(init, key, key(s[|s| - 1]));
    }
  }

  /**
   * UniqueResolutions: one entry per (Width, Height), the first one met;
   * the inner loop looks for the size in the output so far.
   */
  method UniqueResolutions(input: seq<Resolution>) returns (out: seq<Resolution>)
    ensures out == DedupBy(input, SizeKey)
  {
    out := [];
    for n := 0 to |input|
      invariant out == DedupBy(input[..n], SizeKey)
    {
      var r := input[n];
      var found := false;
      for k := 0 to |out|
        invariant !found && forall j :: 0 <= j < k ==> SizeKey(out[j]) != SizeKey(r)
      {
        var e := out[k];
        if e.width == r.width && e.height == r.height {
          found := true;
          break;
        }
      }
      assert found <==> HasKey(out, SizeKey, SizeKey(r));
      assert input[..n + 1][..n] == input[..n];
      if !found {
        out := out + [r];
      }
    }
    assert input[..|input|] == input;
  }

  /**
   * The de-duplication of EnumerateResolutions over the modes the display
   * driver reports, in the order EnumDisplaySettingsW yields them: a mode is
   * appended only when no identical (Width, Height, Refresh) is present.
   */
  method EnumerateResolutions(modes: seq<Resolution>) returns (out: seq<Resolution>)
    ensures out == DedupBy(modes, ModeKey)
  {
    out := [];
    for n := 0 to |modes|
      invariant out == DedupBy(modes[..n], ModeKey)
    {
      var r := modes[n];
      var found := false;
      for k := 0 to |out|
        invariant !found && forall j :: 0 <= j < k ==> ModeKey(out[j]) != ModeKey(r)
      {
        var e := out[k];
        if e.width == r.width && e.height == r.height && e.refresh == r.refresh {
          found := true;
          break;
        }
      }
      assert found <==> HasKey(out, ModeKey, ModeKey(r));
      assert modes[..n + 1][..n] == modes[..n];
      if !found {
        out := out + [r];
      }
    }
    assert modes[..|modes|] == modes;
  }

  /** The aspect test of FilterByAspect: 16:9, 16:10, 4:3, 21:9 by index, anything for another index. */
  predicate AspectMatches(aspectIndex: int, w: int, h: int)
  {
    if aspectIndex == 0 then w * 9 == h * 16
    else if aspectIndex == 1 then w * 10 == h * 16
    else if aspectIndex == 2 then w * 3 == h * 4
    else if aspectIndex == 3 then w * 9 == h * 21
    else true
  }

  /** The entries of `all` passing the aspect test, in order. */
  function KeptByAspect(all: seq<Resolution>, aspectIndex: int): seq<Resolution>
    decreases |all|
  {
    if all == [] then []
    else
      var r := all[|all| - 1];
      KeptByAspect(all[..|all| - 1], aspectIndex) + (if AspectMatches(aspectIndex, r.width, r.height) then [r] else [])
  }

  /** FilterByAspect: push_back of every entry that passes the test. */
  method FilterByAspect(all: seq<Resolution>, aspectIndex: int) returns (out: seq<Resolution>)
    ensures out == KeptByAspect(all, aspectIndex)
  {
    out := [];
    for n := 0 to |all|
      invariant out == KeptByAspect(all[..n], aspectIndex)
    {
      var r := all[n];
      assert all[..n + 1][..n] == all[..n];
      if AspectMatches(aspectIndex, r.width, r.height) {
        out := out + [r];
      }
    }
    assert all[..|all|] == all;
  }

  /** Exactly the entries that pass the test are kept. */
  lemma {:induction false} KeptByAspectMembers(all: seq<Resolution>, aspectIndex: int, x: Resolution)
    ensures x in KeptByAspect(all, aspectIndex) <==> x in all && AspectMatches(aspectIndex, x.width, x.height)
    decreases |all|
  {
    if all != [] {
      var init := all[..|all| - 1];
      KeptByAspectMembers(init, aspectIndex, x);
      assert all == init + [all[|all| - 1]];
    }
  }

  /** An index outside 0..3 keeps everything, and filtering twice is filtering once. */
  lemma {:induction false} KeptByAspectProperties(all: seq<Resolution>, aspectIndex: int)
    ensures !(0 <= aspectIndex <= 3) ==> KeptByAspect(all, aspectIndex) == all
    ensures KeptByAspect(KeptByAspect(all, aspectIndex), aspectIndex) == KeptByAspect(all, aspectIndex)
    ensures |KeptByAspect(all, aspectIndex)| <= |all|
    decreases |all|
  {
    if all != [] {
      var init := all[..|all| - 1];
      var r := all[|all| - 1];
      KeptByAspectProperties(init, aspectIndex);
      assert all == init + [r];
      var k := KeptByAspect(init, aspectIndex);
      if AspectMatches(aspectIndex, r.width, r.height) {
        assert (k + [r])[..|k + [r]| - 1] == k;
        assert KeptByAspect(k + [r], aspectIndex) == KeptByAspect(k, aspectIndex) + [r];
      } else {
        assert k + [] == k;
      }
    }
  }

  predicate StrictlyAscending(s: seq<int>)
  {
    forall i, j :: 0 <= i < j < |s| ==> s[i] < s[j]
  }

  predicate Distinct(s: seq<int>)
  {
    forall i, j :: 0 <= i < j < |s| ==> s[i] != s[j]
  }

  /** The refresh rates of the entries of s sized like `base`. */
  function RatesIn(s: seq<Resolution>, base: Resolution): set<int>
    decreases |s|
  {
    if s == [] then {}
    else
      var r := s[|s| - 1];
      RatesIn(s[..|s| - 1], base) + (if r.width == base.width && r.height == base.height then {r.refresh} else {})
  }

  /** x placed into an ascending list. */
  function InsertSorted(t: seq<int>, x: int): (r: seq<int>)
    requires StrictlyAscending(t) && x !in t
    ensures StrictlyAscending(r) && |r| == |t| + 1
    ensures forall y :: y in r <==> y in t || y == x
    decreases |t|
  {
    if t == [] then [x]
    else if x < t[0] then [x] + t
    else
      assert forall y :: y in t[1..] ==> t[0] < y;
      var rest := InsertSorted(t[1..], x);
      ConsAscending(t[0], rest);
      [t[0]] + rest
  }

  lemma ConsAscending(a: int, rest: seq<int>)
    requires StrictlyAscending(rest) && forall y :: y in rest ==> a < y
    ensures StrictlyAscending([a] + rest)
  {
    var s := [a] + rest;
    forall i, j | 0 <= i < j < |s|
      ensures s[i] < s[j]
    {
      assert s[j] == rest[j - 1];
      if i > 0 {
        assert s[i] == rest[i - 1];
      } else {
        assert rest[j - 1] in rest;
      }
    }
  }

  /** std::sort on a list without repeats. */
  method SortAscending(s: seq<int>) returns (t: seq<int>)
    requires Distinct(s)
    ensures StrictlyAscending(t) && |t| == |s|
    ensures forall y :: y in t <==> y in s
  {
    t := [];
    for i := 0 to |s|
      invariant StrictlyAscending(t) && |t| == i
      invariant forall y :: y in t <==> y in s[..i]
    {
      assert s[i] !in s[..i];
      assert s[..i + 1] == s[..i] + [s[i]];
      t := InsertSorted(t, s[i]);
    }
    assert s[..|s|] == s;
  }

  /** Two ascending lists with the same elements are the same list: the refresh list is determined by its set. */
  lemma {:induction false} AscendingUnique(a: seq<int>, b: seq<int>)
    requires StrictlyAscending(a) && StrictlyAscending(b)
    requires forall y :: y in a <==> y in b
    ensures a == b
    decreases |a|
  {
    if a != [] {
      assert a[0] in a;
    }
    if b != [] {
      assert b[0] in b;
    }
    if a != [] {
      assert a[0] in b && b[0] in a;
      assert a[0] == b[0];
      forall y
        ensures y in a[1..] <==> y in b[1..]
      {
        if y in a[1..] {
          assert y in b && y != b[0];
        }
        if y in b[1..] {
          assert y in a && y != a[0];
        }
      }
      AscendingUnique(a[1..], b[1..]);
    }
  }

  /** struct ResolutionUI: the state of the resolution picker. */
  class ResolutionUI {
    var aspectIndex: int
    var resolutionIndex: int
    var selectedRefresh: int
    var all: seq<Resolution>
    var filtered: seq<Resolution>
    var refreshRates: seq<int>
    var applyConfirm: bool

    constructor()
      ensures aspectIndex == 0 && resolutionIndex == 0 && selectedRefresh == 60
      ensures all == [] && filtered == [] && refreshRates == [] && !applyConfirm
    {
      aspectIndex := 0;
      resolutionIndex := 0;
      selectedRefresh := 60;
      all := [];
      filtered := [];
      refreshRates := [];
      applyConfirm := false;
    }

    /**
     * UpdateRefreshRates: the distinct rates of all modes (not only the
     * filtered ones) sized like the selected resolution, ascending, with
     * the selection snapped to the smallest. Filtered[ResolutionIndex] is
     * read unchecked, so the index must be in range when Filtered is not
     * empty.
     */
    method UpdateRefreshRates()
      requires filtered != [] ==> 0 <= resolutionIndex < |filtered|
      modifies this`refreshRates, this`selectedRefresh
      ensures filtered == [] ==> refreshRates == [] && selectedRefresh == old(selectedRefresh)
      ensures filtered != [] ==> (StrictlyAscending(refreshRates)
        && forall y :: y in refreshRates <==> y in RatesIn(all, filtered[resolutionIndex]))
      ensures refreshRates == [] ==> selectedRefresh == old(selectedRefresh)
      ensures refreshRates != [] ==> (selectedRefresh == refreshRates[0]
        && forall y :: y in refreshRates ==> selectedRefresh <= y)
    {
      refreshRates := [];
      if filtered == [] {
        return;
      }
      var base := filtered[resolutionIndex];
      var rates: seq<int> := [];
      for n := 0 to |all|
        invariant Distinct(rates)
        invariant forall y :: y in rates <==> y in RatesIn(all[..n], base)
      {
        var r := all[n];
        assert all[..n + 1][..n] == all[..n];
        if r.width == base.width && r.height == base.height {
          if r.refresh !in rates {
            rates := rates + [r.refresh];
          }
        }
      }
      assert all[..|all|] == all;
      rates := SortAscending(rates);
      refreshRates := rates;
      if rates != [] {
        selectedRefresh := rates[0];
      }
    }
  }
}

/**
 * The USB signature helpers of USBHelper (system.cpp): the VID/PID
 * extraction from a device id, the composite key and the matching rule.
 * The GUID, driver key and hash fields of UsbSignature are not compared by
 * these helpers and are left out.
 */
module UsbHelper {
  import opened Text

  datatype Option<T> = None | Some(value: T)

  /** The fields of UsbSignature these helpers read. */
  datatype UsbSignature = UsbSignature(vid: seq<char>, pid: seq<char>, serial: seq<char>,
                                       manufacturer: seq<char>, product: seq<char>)

  /** pat occurs in s at position j. */
  predicate MatchAt(s: seq<char>, pat: seq<char>, j: int)
  {
    0 <= j && j + |pat| <= |s| && s[j..j + |pat|] == pat
  }

  /** std::string::find from position i on: the first match at or after i. */
  function FindFrom(s: seq<char>, pat: seq<char>, i: nat): (r: Option<nat>)
    ensures r.Some? ==> i <= r.value && MatchAt(s, pat, r.value) && forall j :: i <= j < r.value ==> !MatchAt(s, pat, j)
    ensures r.None? ==> forall j :: i <= j ==> !MatchAt(s, pat, j)
    decreases |s| - i
  {
    if i + |pat| > |s| then None
    else if s[i..i + |pat|] == pat then Some(i)
    else FindFrom(s, pat, i + 1)
  }

  /** std::string::find: the first match, None for npos. */
  function Find(s: seq<char>, pat: seq<char>): (r: Option<nat>)
    ensures r.Some? ==> MatchAt(s, pat, r.value) && forall j :: 0 <= j < r.value ==> !MatchAt(s, pat, j)
    ensures r.None? ==> forall j :: !MatchAt(s, pat, j)
  {
    FindFrom(s, pat, 0)
  }

  /** std::string::substr(pos, n): at most n characters from pos on. */
  function Substr(s: seq<char>, pos: nat, n: nat): (r: seq<char>)
    requires pos <= |s|
    ensures |r| <= n
  {
    if pos + n <= |s| then s[pos..pos + n] else s[pos..]
  }

  /** The return value of ExtractVidPid and the final values of its two out-parameters. */
  datatype VidPid = VidPid(found: bool, vid: seq<char>, pid: seq<char>)

  /**
   * ExtractVidPid: without both "VID_" and "PID_" the call fails and leaves
   * vid and pid as they were; otherwise each is the (up to) four characters
   * after the first occurrence of its tag.
   */
  function ExtractVidPid(src: seq<char>, vid: seq<char>, pid: seq<char>): (r: VidPid)
    ensures r.found <==> (exists j :: MatchAt(src, "VID_", j)) && (exists j :: MatchAt(src, "PID_", j))
    ensures !r.found ==> r.vid == vid && r.pid == pid
    ensures r.found ==> |r.vid| <= 4 && |r.pid| <= 4
    ensures r.found ==> exists v, p ::
        MatchAt(src, "VID_", v) && (forall j :: 0 <= j < v ==> !MatchAt(src, "VID_", j))
        && MatchAt(src, "PID_", p) && (forall j :: 0 <= j < p ==> !MatchAt(src, "PID_", j))
        && r.vid == Substr(src, v + 4, 4) && r.pid == Substr(src, p + 4, 4)
  {
    var v := Find(src, "VID_");
    var p := Find(src, "PID_");
    if v.None? || p.None? then VidPid(false, vid, pid)
    else VidPid(true, Substr(src, v.value + 4, 4), Substr(src, p.value + 4, 4))
  }

  lemma MatchAt4(s: seq<char>, pat: seq<char>, j: nat)
    requires |pat| == 4 && j + 4 <= |s|
    requires s[j] == pat[0] && s[j + 1] == pat[1] && s[j + 2] == pat[2] && s[j + 3] == pat[3]
    ensures MatchAt(s, pat, j)
  {
    assert s[j..j + 4] == pat;
  }

  /** A match at j with no earlier occurrence of the pattern's first character is what Find returns. */
  lemma FindFirstAt(s: seq<char>, pat: seq<char>, j: nat)
    requires |pat| >= 1 && MatchAt(s, pat, j)
    requires forall i :: 0 <= i < j ==> s[i] != pat[0]
    ensures Find(s, pat) == Some(j)
  {
    var r := Find(s, pat);
    assert r.Some?;
    assert s[r.value] == s[r.value..r.value + |pat|][0];
  }

  /** When both tags are found with four characters after each, those characters are the result. */
  lemma ExtractFound(src: seq<char>, oldVid: seq<char>, oldPid: seq<char>, v: nat, p: nat, vid: seq<char>, pid: seq<char>)
    requires Find(src, "VID_") == Some(v) && Find(src, "PID_") == Some(p)
    requires v + 8 <= |src| && p + 8 <= |src| && src[v + 4..v + 8] == vid && src[p + 4..p + 8] == pid
    ensures ExtractVidPid(src, oldVid, oldPid) == VidPid(true, vid, pid)
  {
  }

  /** A pattern whose first character does not occur before it is found where it stands. */
  lemma FindAfter(s: seq<char>, x: seq<char>, pat: seq<char>)
    requires |pat| >= 1 && |x| + |pat| <= |s| && pat[0] !in x
    requires s[..|x|] == x && s[|x|..|x| + |pat|] == pat
    ensures Find(s, pat) == Some(|x|)
  {
    forall i | 0 <= i < |x|
      ensures s[i] != pat[0]
    {
      assert s[i] == x[i];
    }
    FindFirstAt(s, pat, |x|);
  }

  /**
   * An instance id of the form pre + "VID_" + vid + mid + "PID_" + pid + post,
   * as in USB\VID_0781&PID_5567\4C53, yields the two four-character ids
   * when no earlier 'V' or 'P' can start a false match.
   */
  lemma ExtractVidPidOfInstanceId(pre: seq<char>, vid: seq<char>, mid: seq<char>, pid: seq<char>, post: seq<char>,
                                  oldVid: seq<char>, oldPid: seq<char>)
    requires |vid| == 4 && |pid| == 4
    requires 'V' !in pre && 'P' !in pre && 'P' !in vid && 'P' !in mid
    ensures ExtractVidPid(pre + "VID_" + vid + mid + "PID_" + pid + post, oldVid, oldPid) == VidPid(true, vid, pid)
  {
    var src := pre + "VID_" + vid + mid + "PID_" + pid + post;
    InstanceIdTags(pre, vid, mid, pid, post);
    InstanceIdFields(pre, vid, mid, pid, post);
    ExtractFound(src, oldVid, oldPid, |pre|, |pre| + 8 + |mid|, vid, pid);
  }

  /** Where the two tags of such an id are found. */
  lemma InstanceIdTags(pre: seq<char>, vid: seq<char>, mid: seq<char>, pid: seq<char>, post: seq<char>)
    requires 'V' !in pre && 'P' !in pre && 'P' !in vid && 'P' !in mid
    ensures var src := pre + "VID_" + vid + mid + "PID_" + pid + post;
      Find(src, "VID_") == Some(|pre|) && Find(src, "PID_") == Some(|pre| + 4 + |vid| + |mid|)
  {
    var src := pre + "VID_" + vid + mid + "PID_" + pid + post;
    var a := pre + "VID_" + vid + mid;
    assert src[..|pre|] == pre && src[|pre|..|pre| + 4] == "VID_";
    FindAfter(src, pre, "VID_");
    assert src[..|a|] == a && src[|a|..|a| + 4] == "PID_";
    FindAfter(src, a, "PID_");
  }

  /** The four characters after each tag of such an id. */
  lemma InstanceIdFields(pre: seq<char>, vid: seq<char>, mid: seq<char>, pid: seq<char>, post: seq<char>)
    requires |vid| == 4 && |pid| == 4
    ensures var src := pre + "VID_" + vid + mid + "PID_" + pid + post;
      var v := |pre|;
      var p := |pre| + 8 + |mid|;
      v + 8 <= |src| && p + 8 <= |src| && src[v + 4..v + 8] == vid && src[p + 4..p + 8] == pid
  {
    var src := pre + "VID_" + vid + mid + "PID_" + pid + post;
    assert src[|pre| + 4..|pre| + 8] == vid;
    assert src[|pre| + 12 + |mid|..|pre| + 16 + |mid|] == pid;
  }

  /** Without a 'V' in the id the VID_ tag is missing: the call fails and the out-parameters keep their values. */
  lemma ExtractVidPidMissingTag(src: seq<char>, oldVid: seq<char>, oldPid: seq<char>)
    requires 'V' !in src
    ensures ExtractVidPid(src, oldVid, oldPid) == VidPid(false, oldVid, oldPid)
  {
    forall j
      ensures !MatchAt(src, "VID_", j)
    {
      if 0 <= j && j + 4 <= |src| {
        assert src[j] in src;
        assert src[j..j + 4][0] == src[j];
      }
    }
  }

  /** BuildCompositeKey: the five fields joined with '|'. */
  function BuildCompositeKey(sig: UsbSignature): seq<char>
  {
    sig.vid + "|" + sig.pid + "|" + sig.serial + "|" + sig.manufacturer + "|" + sig.product
  }

  predicate NoBar(sig: UsbSignature)
  {
    '|' !in sig.vid && '|' !in sig.pid && '|' !in sig.serial && '|' !in sig.manufacturer && '|' !in sig.product
  }

  /** While no field holds a '|', splitting the key at '|' gives the fields back. */
  lemma CompositeKeyFields(sig: UsbSignature)
    requires NoBar(sig)
    ensures SplitOn(BuildCompositeKey(sig), '|') == [sig.vid, sig.pid, sig.serial, sig.manufacturer, sig.product]
  {
    var fs := [sig.vid, sig.pid, sig.serial, sig.manufacturer, sig.product];
    assert fs[..1] == [sig.vid];
    assert fs[..2] == [sig.vid, sig.pid] && fs[..2][..1] == fs[..1];
    assert fs[..3] == [sig.vid, sig.pid, sig.serial] && fs[..3][..2] == fs[..2];
    assert fs[..4] == [sig.vid, sig.pid, sig.serial, sig.manufacturer] && fs[..4][..3] == fs[..3];
    assert fs[..5][..4] == fs[..4] && fs[..5] == fs;
    var bar := "|";
    assert bar == ['|'];
    var j2 := sig.vid + bar + sig.pid;
    var j3 := j2 + bar + sig.serial;
    var j4 := j3 + bar + sig.manufacturer;
    assert JoinWith(fs[..1], '|') == sig.vid;
    assert JoinWith(fs[..2], '|') == j2;
    assert JoinWith(fs[..3], '|') == j3;
    assert JoinWith(fs[..4], '|') == j4;
    assert JoinWith(fs, '|') == j4 + bar + sig.product;
    assert BuildCompositeKey(sig) == JoinWith(fs, '|');
    SplitJoinWith(fs, '|');
  }

  /** Equal keys mean equal fields, and so a match. */
  lemma CompositeKeyInjective(a: UsbSignature, b: UsbSignature)
    requires NoBar(a) && NoBar(b) && BuildCompositeKey(a) == BuildCompositeKey(b)
    ensures a == b && UsbMatches(a, b)
  {
    CompositeKeyFields(a);
    CompositeKeyFields(b);
  }

  /**
   * UsbMatches: equal VID and PID, then equal serials when both have one,
   * and otherwise equal manufacturer and product.
   */
  function UsbMatches(a: UsbSignature, b: UsbSignature): (m: bool)
    ensures m ==> a.vid == b.vid && a.pid == b.pid
    ensures m && a.serial != [] && b.serial != [] ==> a.serial == b.serial
    ensures m && (a.serial == [] || b.serial == []) ==> a.manufacturer == b.manufacturer && a.product == b.product
  {
    if a.vid != b.vid then false
    else if a.pid != b.pid then false
    else if a.serial != [] && b.serial != [] then a.serial == b.serial
    else a.manufacturer == b.manufacturer && a.product == b.product
  }

  /** The match is reflexive and symmetric. */
  lemma UsbMatchesEquivalence(a: UsbSignature, b: UsbSignature)
    ensures UsbMatches(a, a)
    ensures UsbMatches(a, b) == UsbMatches(b, a)
  {
  }

  /** It is not transitive: a device without a serial matches two devices whose serials differ. */
  lemma UsbMatchesNotTransitive()
    ensures var a := UsbSignature("0781", "5567", "A1", "SanDisk", "Cruzer");
      var b := UsbSignature("0781", "5567", "", "SanDisk", "Cruzer");
      var c := UsbSignature("0781", "5567", "B2", "SanDisk", "Cruzer");
      UsbMatches(a, b) && UsbMatches(b, c) && !UsbMatches(a, c)
  {
  }
}
