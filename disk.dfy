/**
 * The text side of the Disk namespace (disk.h, disk.cpp): the file-system
 * names, the byte-size label of BytesToStr, the DiskPart scripts the
 * formatting operations hand to diskpart.exe, and the drive-letter and
 * file-system-name checks. Running DiskPart is not modelled: each builder
 * returns the script it would run. Wide and narrow strings are both
 * `seq<char>`; WToUtf8 is taken as the identity.
 */
module Disk {
  import opened Text

  datatype Option<T> = None | Some(value: T)

  /** enum class FileSystem, in declaration order (underlying values 0..3). */
  datatype FileSystem = NTFS | exFAT | FAT | FAT32

  /** FsToString: the DiskPart spelling of each file system. */
  function FsToString(fs: FileSystem): (s: seq<char>)
    ensures |s| >= 3 && NoCR(s)
  {
    match fs
    case NTFS => "NTFS"
    case exFAT => "exFAT"
    case FAT => "FAT"
    case FAT32 => "FAT32"
  }

  /** Distinct file systems get distinct names. */
  lemma FsToStringInjective(a: FileSystem, b: FileSystem)
    ensures FsToString(a) == FsToString(b) ==> a == b
  {
  }

  /** (FileSystem)value: the enumerator with that underlying value, None where FsToString would return nullptr. */
  function FileSystemOfValue(value: int): (r: Option<FileSystem>)
    ensures r.Some? <==> 0 <= value < 4
  {
    if value == 0 then Some(NTFS)
    else if value == 1 then Some(exFAT)
    else if value == 2 then Some(FAT)
    else if value == 3 then Some(FAT32)
    else None
  }

  /** The entries of the "File System" combo of DrawFormatWidget, by index. */
  const ComboLabels: seq<seq<char>> := ["NTFS", "exFAT", "FAT32"]

  /** As written: the combo index is cast to FileSystem and named by FsToString. */
  function ComboFsAsWritten(index: int): Option<seq<char>>
  {
    match FileSystemOfValue(index)
    case None => None
    case Some(fs) => Some(FsToString(fs))
  }

  /** The cast picks the enumerator by position, and FAT sits where the combo has FAT32: choosing "FAT32" sends "FAT". */
  lemma ComboFsAsWrittenMismatch()
    ensures ComboFsAsWritten(0) == Some(ComboLabels[0]) && ComboFsAsWritten(1) == Some(ComboLabels[1])
    ensures ComboLabels[2] == "FAT32" && ComboFsAsWritten(2) == Some("FAT")
  {
  }

  /** The file system behind each combo entry. */
  const ComboFileSystems: seq<FileSystem> := [NTFS, exFAT, FAT32]

  /** Corrected: the combo index goes through the entry table, so the name sent is the entry chosen. */
  function ComboFs(index: int): (r: Option<seq<char>>)
    ensures r.Some? <==> 0 <= index < |ComboLabels|
    ensures r.Some? ==> r.value == ComboLabels[index]
  {
    if 0 <= index < |ComboFileSystems| then Some(FsToString(ComboFileSystems[index])) else None
  }

  // ---------------------------------------------------------------------
  // BytesToStr
  // ---------------------------------------------------------------------

  const Suffixes: seq<seq<char>> := ["B", "KB", "MB", "GB", "TB"]

  function Pow1024(i: nat): (p: nat)
    ensures p >= 1
  {
    if i == 0 then 1 else 1024 * Pow1024(i - 1)
  }

  /** The suffix rule: i ≤ 4, v reaches 1024^i, and v stays below 1024^(i+1) unless i is the last suffix. */
  predicate IsSuffixIndex(v: nat, i: nat)
  {
    i <= 4 && (i > 0 ==> Pow1024(i) <= v) && (i < 4 ==> v < Pow1024(i + 1))
  }

  lemma DivPow(v: nat, k: nat)
    ensures Pow1024(k) <= v / 1024 <==> Pow1024(k + 1) <= v
  {
    var q := v / 1024;
    assert v == 1024 * q + v % 1024;
    assert v < 1024 * (q + 1);
    if Pow1024(k) <= q {
      assert 1024 * Pow1024(k) <= 1024 * q;
    }
    if Pow1024(k + 1) <= v {
      assert 1024 * Pow1024(k) < 1024 * (q + 1);
    }
  }

  /** The suffix BytesToStr picks for v, computed on integers. */
  function SuffixIndex(v: nat): (i: nat)
    ensures IsSuffixIndex(v, i)
    decreases v
  {
    if v < 1024 then 0
    else
      var j := SuffixIndex(v / 1024);
      DivPow(v, j);
      DivPow(v, j + 1);
      if j + 1 < 4 then j + 1 else 4
  }

  /** The suffix rule singles out one index. */
  lemma SuffixIndexUnique(v: nat, i: nat)
    requires IsSuffixIndex(v, i)
    ensures i == SuffixIndex(v)
  {
    var j := SuffixIndex(v);
    if i < j {
      PowMono(i + 1, j);
    } else if j < i {
      PowMono(j + 1, i);
    }
  }

  lemma {:induction false} PowMono(a: nat, b: nat)
    requires a <= b
    ensures Pow1024(a) <= Pow1024(b)
    decreases b
  {
    if a < b {
      PowMono(a, b - 1);
    }
  }

  /**
   * The text "%.2f %s" prints: the scaled size and its suffix. The value is
   * kept exact; its two-decimal rounding is not modelled.
   */
  datatype SizeText = SizeText(value: real, suffix: seq<char>)

  /** What BytesToStr(v) prints. */
  function SizeTextOf(v: nat): SizeText
  {
    var i := SuffixIndex(v);
    SizeText(v as real / Pow1024(i) as real, Suffixes[i])
  }

  lemma RealDivCancel(a: real, b: real, p: real)
    requires p > 0.0 && a / p == b / p
    ensures a == b
  {
    assert a == (a / p) * p;
    assert b == (b / p) * p;
  }

  /** Different sizes print differently (before rounding): the suffix fixes the scale and the value the rest. */
  lemma SizeTextInjective(a: nat, b: nat)
    requires SizeTextOf(a) == SizeTextOf(b)
    ensures a == b
  {
    var i := SuffixIndex(a);
    var j := SuffixIndex(b);
    assert Suffixes[i] == Suffixes[j];
    assert i == j;
    RealDivCancel(a as real, b as real, Pow1024(i) as real);
  }

  /** static char buf[64] of BytesToStr: every call writes here and hands out this buffer. */
  class StaticBuffer {
    var text: SizeText

    constructor()
      ensures text == SizeText(0.0, [])
    {
      text := SizeText(0.0, []);
    }
  }

  /** The size after i divisions by 1024. */
  function Scaled(v: nat, i: nat): real
  {
    v as real / Pow1024(i) as real
  }

  lemma RealHalving(x: real, p: real)
    requires p >= 1.0
    ensures (x / p) / 1024.0 == x / (p * 1024.0)
    ensures x / p >= 1024.0 <==> x >= 1024.0 * p
  {
  }

  /** One more division by 1024 is one more power of 1024, and the loop test compares v with the next power. */
  lemma ScaledStep(v: nat, i: nat)
    ensures Scaled(v, i) / 1024.0 == Scaled(v, i + 1)
    ensures Scaled(v, i) >= 1024.0 <==> Pow1024(i + 1) <= v
  {
    var p := Pow1024(i);
    assert Pow1024(i + 1) as real == p as real * 1024.0;
    RealHalving(v as real, p as real);
  }

  /**
   * BytesToStr: divides the size by 1024 while it is at least 1024 and the
   * suffix is not yet TB, then prints into the shared buffer. The loop lands
   * on SuffixIndex(v), and the value is v / 1024^i.
   */
  method BytesToStr(buf: StaticBuffer, v: nat)
    modifies buf`text
    ensures buf.text == SizeTextOf(v)
  {
    var size: real := v as real;
    var i: nat := 0;
    assert size == Scaled(v, 0);
    while size >= 1024.0 && i < 4
      invariant i <= 4 && size == Scaled(v, i)
      invariant i > 0 ==> Pow1024(i) <= v
      decreases 4 - i
    {
      ScaledStep(v, i);
      size := size / 1024.0;
      i := i + 1;
    }
    ScaledStep(v, i);
    SuffixIndexUnique(v, i);
    buf.text := SizeText(size, Suffixes[i]);
  }

  /** As written: what the two %s fields of a volume row show; both point at the buffer, which holds the later call's text. */
  function VolumeRowAsWritten(freeBytes: nat, totalBytes: nat, freeFirst: bool): (SizeText, SizeText)
  {
    var last := SizeTextOf(if freeFirst then totalBytes else freeBytes);
    (last, last)
  }

  /**
   * The argument order of the Text call is unspecified: whichever call runs
   * second, two volumes that differ in one size can show the same row.
   */
  lemma VolumeRowAsWrittenLoses()
    ensures VolumeRowAsWritten(0, 1024, true) == VolumeRowAsWritten(1, 1024, true)
    ensures VolumeRowAsWritten(0, 1024, false) == VolumeRowAsWritten(0, 2048, false)
  {
  }

  /**
   * The volume row of DrawDiskSelector as written: ImGui::Text receives
   * BytesToStr(FreeBytes) and BytesToStr(TotalBytes), two copies of the
   * same pointer, and formats after both calls.
   */
  method DrawVolumeRowAsWritten(buf: StaticBuffer, freeBytes: nat, totalBytes: nat, freeFirst: bool)
      returns (shownFree: SizeText, shownTotal: SizeText)
    modifies buf`text
    ensures (shownFree, shownTotal) == VolumeRowAsWritten(freeBytes, totalBytes, freeFirst)
  {
    if freeFirst {
      BytesToStr(buf, freeBytes);
      BytesToStr(buf, totalBytes);
    } else {
      BytesToStr(buf, totalBytes);
      BytesToStr(buf, freeBytes);
    }
    shownFree := buf.text;
    shownTotal := buf.text;
  }

  /** Corrected: each field shows its own size. */
  function VolumeRow(freeBytes: nat, totalBytes: nat): (SizeText, SizeText)
  {
    (SizeTextOf(freeBytes), SizeTextOf(totalBytes))
  }

  /** The corrected row tells every pair of sizes apart. */
  lemma VolumeRowDetermines(f1: nat, t1: nat, f2: nat, t2: nat)
    requires VolumeRow(f1, t1) == VolumeRow(f2, t2)
    ensures f1 == f2 && t1 == t2
  {
    SizeTextInjective(f1, f2);
    SizeTextInjective(t1, t2);
  }

  /** Corrected: each result is copied out of the buffer before the next call overwrites it. */
  method DrawVolumeRow(buf: StaticBuffer, freeBytes: nat, totalBytes: nat)
      returns (shownFree: SizeText, shownTotal: SizeText)
    modifies buf`text
    ensures (shownFree, shownTotal) == VolumeRow(freeBytes, totalBytes)
  {
    BytesToStr(buf, freeBytes);
    shownFree := buf.text;
    BytesToStr(buf, totalBytes);
    shownTotal := buf.text;
  }

  // ---------------------------------------------------------------------
  // DiskPart scripts
  // ---------------------------------------------------------------------

  datatype PartitionScheme = MBR | GPT

  /** The narrow script's (char) cast of a wchar_t drive letter. */
  function NarrowChar(c: char): (n: char)
    ensures (c as int) < 256 ==> n == c
  {
    (c as int % 256) as char
  }

  function SelectDiskLine(disk: int): seq<char>
  {
    "select disk " + DecimalText(disk)
  }

  function ConvertLine(gpt: bool): seq<char>
  {
    if gpt then "convert gpt" else "convert mbr"
  }

  function QuickPart(quick: bool): seq<char>
  {
    if quick then " quick" else ""
  }

  function LabelPart(volumeLabel: seq<char>): seq<char>
  {
    if volumeLabel != [] then " label=\"" + volumeLabel + "\"" else ""
  }

  /** The format line of a recreate script: the file system, then " quick" and the quoted label when asked for. */
  function FormatLine(fs: seq<char>, quick: bool, volumeLabel: seq<char>): seq<char>
  {
    "format fs=" + fs + QuickPart(quick) + LabelPart(volumeLabel)
  }

  function AssignLine(letter: char): seq<char>
  {
    if letter != '\0' then "assign letter=" + [letter] else "assign"
  }

  /** The lines of every recreate script, convert line included. */
  function RecreateLines(disk: int, gpt: bool, fs: seq<char>, volumeLabel: seq<char>, quick: bool, letter: char): seq<seq<char>>
  {
    [SelectDiskLine(disk), "attributes disk clear readonly", "clean", ConvertLine(gpt),
     "create partition primary", FormatLine(fs, quick, volumeLabel), AssignLine(letter), "exit"]
  }

  /** BuildDiskPartRecreateScript: the wide recreate script, always MBR; one term per `s +=`, CRLF split off. */
  function BuildDiskPartRecreateScript(diskIndex: int, fs: seq<char>, volumeLabel: seq<char>, quick: bool, forceLetter: char): seq<char>
  {
    ("select disk " + DecimalText(diskIndex)) + "\r\n"
    + "attributes disk clear readonly" + "\r\n"
    + "clean" + "\r\n"
    + "convert mbr" + "\r\n"
    + "create partition primary" + "\r\n"
    + ("format fs=" + fs)
    + (if quick then " quick" else "")
    + (if volumeLabel != [] then " label=\"" + volumeLabel + "\"" else "")
    + "\r\n"
    + (if forceLetter != '\0' then "assign letter=" + [forceLetter] else "assign") + "\r\n"
    + "exit" + "\r\n"
  }

  /** The script of RecreateDiskAndFormat: as above, with the scheme chosen and the letter narrowed. */
  function RecreateDiskAndFormatScript(physicalDiskIndex: int, gpt: bool, fs: seq<char>, volumeLabel: seq<char>, quick: bool, forceLetter: char): seq<char>
  {
    ("select disk " + DecimalText(physicalDiskIndex)) + "\r\n"
    + "attributes disk clear readonly" + "\r\n"
    + "clean" + "\r\n"
    + (if gpt then "convert gpt" else "convert mbr") + "\r\n"
    + "create partition primary" + "\r\n"
    + ("format fs=" + fs)
    + (if quick then " quick" else "")
    + (if volumeLabel != [] then " label=\"" + volumeLabel + "\"" else "")
    + "\r\n"
    + (if forceLetter != '\0' then "assign letter=" + [NarrowChar(forceLetter)] else "assign") + "\r\n"
    + "exit" + "\r\n"
  }

  lemma SelectDiskStep(disk: int)
    ensures ("select disk " + DecimalText(disk)) + "\r\n" == JoinLines([SelectDiskLine(disk)])
    ensures LinesOk([SelectDiskLine(disk)])
  {
    DecimalNoCR(disk);
    NoCRAppend("select disk ", DecimalText(disk));
    AddLine([], [], SelectDiskLine(disk));
    assert [] + SelectDiskLine(disk) == SelectDiskLine(disk);
    assert [] + [SelectDiskLine(disk)] == [SelectDiskLine(disk)];
  }

  lemma FormatLineNoCR(fs: seq<char>, quick: bool, volumeLabel: seq<char>)
    requires NoCR(fs) && NoCR(volumeLabel)
    ensures NoCR("format fs=" + fs) && NoCR(QuickPart(quick)) && NoCR(LabelPart(volumeLabel))
  {
    NoCRAppend("format fs=", fs);
    NoCRAppend(" label=\"", volumeLabel);
    NoCRAppend(" label=\"" + volumeLabel, "\"");
  }

  lemma AssignLineNoCR(letter: char)
    requires letter != '\r'
    ensures NoCR(AssignLine(letter))
  {
    NoCRAppend("assign letter=", [letter]);
  }

  /** The first four lines of the recreate and convert scripts: select, attributes, clean, convert. */
  lemma CleanHead(disk: int, gpt: bool)
    ensures var ls := [SelectDiskLine(disk), "attributes disk clear readonly", "clean", ConvertLine(gpt)];
      LinesOk(ls)
      && ("select disk " + DecimalText(disk)) + "\r\n" + "attributes disk clear readonly" + "\r\n" + "clean" + "\r\n"
         + ConvertLine(gpt) + "\r\n"
         == JoinLines(ls)
  {
    SelectDiskStep(disk);
    JoinLines4(SelectDiskLine(disk), "attributes disk clear readonly", "clean", ConvertLine(gpt));
  }

  /** The shape both recreate scripts share, whatever their convert and assign lines. */
  lemma RecreateShape(disk: int, gpt: bool, fs: seq<char>, volumeLabel: seq<char>, quick: bool, letter: char)
    requires NoCR(fs) && NoCR(volumeLabel) && letter != '\r'
    ensures LinesOk(RecreateLines(disk, gpt, fs, volumeLabel, quick, letter))
    ensures ("select disk " + DecimalText(disk)) + "\r\n"
         + "attributes disk clear readonly" + "\r\n" + "clean" + "\r\n" + ConvertLine(gpt) + "\r\n"
         + "create partition primary" + "\r\n"
         + ("format fs=" + fs) + QuickPart(quick) + LabelPart(volumeLabel) + "\r\n"
         + AssignLine(letter) + "\r\n" + "exit" + "\r\n"
         == JoinLines(RecreateLines(disk, gpt, fs, volumeLabel, quick, letter))
  {
    var ls4 := [SelectDiskLine(disk), "attributes disk clear readonly", "clean", ConvertLine(gpt)];
    CleanHead(disk, gpt);
    RecreateTail(JoinLines(ls4), ls4, fs, volumeLabel, quick, letter);
    Display44(SelectDiskLine(disk), "attributes disk clear readonly", "clean", ConvertLine(gpt),
              "create partition primary", FormatLine(fs, quick, volumeLabel), AssignLine(letter), "exit");
  }

  /** The last four lines of a recreate script, after any script s of well-formed lines. */
  lemma RecreateTail(s: seq<char>, ls: seq<seq<char>>, fs: seq<char>, volumeLabel: seq<char>, quick: bool, letter: char)
    requires s == JoinLines(ls) && LinesOk(ls)
    requires NoCR(fs) && NoCR(volumeLabel) && letter != '\r'
    ensures var tail := ["create partition primary", FormatLine(fs, quick, volumeLabel), AssignLine(letter), "exit"];
      s + "create partition primary" + "\r\n"
      + ("format fs=" + fs) + QuickPart(quick) + LabelPart(volumeLabel) + "\r\n"
      + AssignLine(letter) + "\r\n" + "exit" + "\r\n"
      == JoinLines(ls + tail)
      && LinesOk(ls + tail)
  {
    AddLine(s, ls, "create partition primary");
    var s5 := s + "create partition primary" + "\r\n";
    var ls5 := ls + ["create partition primary"];
    FormatLineNoCR(fs, quick, volumeLabel);
    AddParts3(s5, ls5, "format fs=" + fs, QuickPart(quick), LabelPart(volumeLabel));
    var s6 := s5 + ("format fs=" + fs) + QuickPart(quick) + LabelPart(volumeLabel) + "\r\n";
    var ls6 := ls5 + [FormatLine(fs, quick, volumeLabel)];
    AssignLineNoCR(letter);
    AddLine(s6, ls6, AssignLine(letter));
    var s7 := s6 + AssignLine(letter) + "\r\n";
    var ls7 := ls6 + [AssignLine(letter)];
    AddLine(s7, ls7, "exit");
    Snoc4(ls, "create partition primary", FormatLine(fs, quick, volumeLabel), AssignLine(letter), "exit");
  }

  /**
   * BuildDiskPartRecreateScript is exactly the eight CRLF-terminated lines
   * select disk N, attributes disk clear readonly, clean, convert mbr,
   * create partition primary, the format line, assign, exit.
   */
  lemma BuildDiskPartRecreateScriptLines(diskIndex: int, fs: seq<char>, volumeLabel: seq<char>, quick: bool, forceLetter: char)
    requires NoCR(fs) && NoCR(volumeLabel) && forceLetter != '\r'
    ensures SplitLines(BuildDiskPartRecreateScript(diskIndex, fs, volumeLabel, quick, forceLetter))
         == RecreateLines(diskIndex, false, fs, volumeLabel, quick, forceLetter)
  {
    RecreateShape(diskIndex, false, fs, volumeLabel, quick, forceLetter);
    SplitJoin(RecreateLines(diskIndex, false, fs, volumeLabel, quick, forceLetter));
  }

  /**
   * RecreateDiskAndFormat sends the same lines, with "convert gpt" in place
   * of "convert mbr" when gpt is set; for MBR it is the same script.
   */
  lemma RecreateDiskAndFormatLines(physicalDiskIndex: int, gpt: bool, fs: seq<char>, volumeLabel: seq<char>, quick: bool, forceLetter: char)
    requires NoCR(fs) && NoCR(volumeLabel) && forceLetter != '\r' && (forceLetter as int) < 256
    ensures SplitLines(RecreateDiskAndFormatScript(physicalDiskIndex, gpt, fs, volumeLabel, quick, forceLetter))
         == RecreateLines(physicalDiskIndex, gpt, fs, volumeLabel, quick, forceLetter)
    ensures !gpt ==> (RecreateDiskAndFormatScript(physicalDiskIndex, gpt, fs, volumeLabel, quick, forceLetter)
                      == BuildDiskPartRecreateScript(physicalDiskIndex, fs, volumeLabel, quick, forceLetter))
  {
    RecreateShape(physicalDiskIndex, gpt, fs, volumeLabel, quick, forceLetter);
    SplitJoin(RecreateLines(physicalDiskIndex, gpt, fs, volumeLabel, quick, forceLetter));
  }

  /** The script of ConvertDiskPartitionSchemeDiskPart (narrow, scheme as a flag). */
  function ConvertDiskPartitionSchemeDiskPartScript(physicalDiskIndex: int, toGpt: bool): seq<char>
  {
    ("select disk " + DecimalText(physicalDiskIndex)) + "\r\n"
    + "attributes disk clear readonly" + "\r\n"
    + "clean" + "\r\n"
    + (if toGpt then "convert gpt" else "convert mbr") + "\r\n"
    + "exit" + "\r\n"
  }

  /** The script of ConvertDiskPartitionScheme (wide, scheme as an enum). */
  function ConvertDiskPartitionSchemeScript(physicalDiskIndex: int, target: PartitionScheme): seq<char>
  {
    ("select disk " + DecimalText(physicalDiskIndex)) + "\r\n"
    + "attributes disk clear readonly" + "\r\n"
    + "clean" + "\r\n"
    + (if target == MBR then "convert mbr" else "convert gpt") + "\r\n"
    + "exit" + "\r\n"
  }

  function ConvertLines(disk: int, gpt: bool): seq<seq<char>>
  {
    [SelectDiskLine(disk), "attributes disk clear readonly", "clean", ConvertLine(gpt), "exit"]
  }

  lemma ConvertShape(disk: int, gpt: bool)
    ensures LinesOk(ConvertLines(disk, gpt))
    ensures ("select disk " + DecimalText(disk)) + "\r\n" + "attributes disk clear readonly" + "\r\n" + "clean" + "\r\n"
            + ConvertLine(gpt) + "\r\n" + "exit" + "\r\n"
         == JoinLines(ConvertLines(disk, gpt))
  {
    var ls4 := [SelectDiskLine(disk), "attributes disk clear readonly", "clean", ConvertLine(gpt)];
    CleanHead(disk, gpt);
    AddLine(JoinLines(ls4), ls4, "exit");
    Display41(SelectDiskLine(disk), "attributes disk clear readonly", "clean", ConvertLine(gpt), "exit");
  }

  /**
   * Both convert scripts are the five lines select disk N, attributes disk
   * clear readonly, clean, convert, exit: "gpt" exactly when toGpt, "mbr"
   * exactly when the target is MBR; they agree when the flag names the scheme.
   */
  lemma ConvertScriptsLines(physicalDiskIndex: int, toGpt: bool, target: PartitionScheme)
    ensures SplitLines(ConvertDiskPartitionSchemeDiskPartScript(physicalDiskIndex, toGpt)) == ConvertLines(physicalDiskIndex, toGpt)
    ensures SplitLines(ConvertDiskPartitionSchemeScript(physicalDiskIndex, target)) == ConvertLines(physicalDiskIndex, target == GPT)
    ensures (toGpt <==> target == GPT)
        ==> ConvertDiskPartitionSchemeDiskPartScript(physicalDiskIndex, toGpt) == ConvertDiskPartitionSchemeScript(physicalDiskIndex, target)
  {
    ConvertShape(physicalDiskIndex, toGpt);
    ConvertShape(physicalDiskIndex, target == GPT);
    SplitJoin(ConvertLines(physicalDiskIndex, toGpt));
    SplitJoin(ConvertLines(physicalDiskIndex, target == GPT));
  }

  /** The script of DeletePartition: the UI's zero-based index becomes DiskPart's one-based number. */
  function DeletePartitionScript(physicalDiskIndex: int, partitionIndex: int): seq<char>
  {
    ("select disk " + DecimalText(physicalDiskIndex)) + "\r\n"
    + "select partition " + DecimalText(partitionIndex + 1) + "\r\n"
    + "delete partition override" + "\r\n"
    + "exit" + "\r\n"
  }

  /** The delete script is the join of its four lines. */
  lemma DeletePartitionJoined(physicalDiskIndex: int, partitionIndex: int)
    ensures var lines := [SelectDiskLine(physicalDiskIndex), "select partition " + DecimalText(partitionIndex + 1), "delete partition override", "exit"];
      DeletePartitionScript(physicalDiskIndex, partitionIndex) == JoinLines(lines) && LinesOk(lines)
  {
    SelectDiskStep(physicalDiskIndex);
    DecimalNoCR(partitionIndex + 1);
    JoinFour(SelectDiskLine(physicalDiskIndex), "select partition ", DecimalText(partitionIndex + 1), "delete partition override", "exit");
  }

  /**
   * DeletePartition sends four lines, and the number on the second reads
   * back as partitionIndex + 1.
   */
  lemma DeletePartitionLines(physicalDiskIndex: int, partitionIndex: int)
    ensures SplitLines(DeletePartitionScript(physicalDiskIndex, partitionIndex))
         == [SelectDiskLine(physicalDiskIndex), "select partition " + DecimalText(partitionIndex + 1), "delete partition override", "exit"]
    ensures partitionIndex >= -1 ==> ParseDigits(DecimalText(partitionIndex + 1)) == partitionIndex + 1
  {
    DeletePartitionJoined(physicalDiskIndex, partitionIndex);
    SplitJoin([SelectDiskLine(physicalDiskIndex), "select partition " + DecimalText(partitionIndex + 1), "delete partition override", "exit"]);
    DecimalTextRoundTrip(partitionIndex + 1);
  }

  /** The first line of CreatePartition: " size=N" only for a non-zero size. */
  function CreateLine(sizeMB: nat): seq<char>
  {
    "create partition primary" + (if sizeMB > 0 then " size=" + DecimalText(sizeMB) else "")
  }

  /** The lines of CreatePartition; a "label L" line only for a non-empty label. */
  function CreatePartitionLines(disk: int, sizeMB: nat, fs: seq<char>, volumeLabel: seq<char>, quick: bool, letter: char): seq<seq<char>>
  {
    [SelectDiskLine(disk), CreateLine(sizeMB), "select volume last", FormatLine(fs, quick, []), AssignLine(letter)]
    + (if volumeLabel != [] then ["label " + volumeLabel] else []) + ["exit"]
  }

  /** The script of CreatePartition. */
  function CreatePartitionScript(physicalDiskIndex: int, sizeMB: nat, fs: seq<char>, volumeLabel: seq<char>, quick: bool, forceLetter: char): seq<char>
  {
    ("select disk " + DecimalText(physicalDiskIndex)) + "\r\n"
    + "create partition primary"
    + (if sizeMB > 0 then " size=" + DecimalText(sizeMB) else "")
    + "\r\n"
    + "select volume last" + "\r\n"
    + ("format fs=" + fs)
    + (if quick then " quick" else "")
    + "\r\n"
    + (if forceLetter != '\0' then "assign letter=" + [NarrowChar(forceLetter)] else "assign") + "\r\n"
    + (if volumeLabel != [] then "label " + volumeLabel + "\r\n" else "")
    + "exit" + "\r\n"
  }

  /** The lines of CreatePartition up to assign. */
  lemma CreatePartitionHead(physicalDiskIndex: int, sizeMB: nat, fs: seq<char>, quick: bool, letter: char)
    requires NoCR(fs) && letter != '\r'
    ensures var ls := [SelectDiskLine(physicalDiskIndex), CreateLine(sizeMB), "select volume last", FormatLine(fs, quick, []), AssignLine(letter)];
      LinesOk(ls)
      && ("select disk " + DecimalText(physicalDiskIndex)) + "\r\n"
         + "create partition primary" + (if sizeMB > 0 then " size=" + DecimalText(sizeMB) else "") + "\r\n"
         + "select volume last" + "\r\n"
         + ("format fs=" + fs) + QuickPart(quick) + "\r\n"
         + AssignLine(letter) + "\r\n"
         == JoinLines(ls)
  {
    var l1 := SelectDiskLine(physicalDiskIndex);
    var s1 := ("select disk " + DecimalText(physicalDiskIndex)) + "\r\n";
    SelectDiskStep(physicalDiskIndex);
    var sizePart := if sizeMB > 0 then " size=" + DecimalText(sizeMB) else "";
    var s2 := s1 + "create partition primary" + sizePart + "\r\n";
    var ls2 := [l1] + [CreateLine(sizeMB)];
    assert s2 == JoinLines(ls2) && LinesOk(ls2) by {
      DecimalNoCR(sizeMB);
      NoCRAppend(" size=", DecimalText(sizeMB));
      AddParts2(s1, [l1], "create partition primary", sizePart);
    }
    AddLine(s2, ls2, "select volume last");
    var s3 := s2 + "select volume last" + "\r\n";
    var ls3 := ls2 + ["select volume last"];
    var s4 := s3 + ("format fs=" + fs) + QuickPart(quick) + "\r\n";
    var ls4 := ls3 + [FormatLine(fs, quick, [])];
    assert s4 == JoinLines(ls4) && LinesOk(ls4) by {
      FormatLineNoCR(fs, quick, []);
      AddParts2(s3, ls3, "format fs=" + fs, QuickPart(quick));
      assert "format fs=" + fs + QuickPart(quick) == FormatLine(fs, quick, []);
    }
    AssignLineNoCR(letter);
    AddLine(s4, ls4, AssignLine(letter));
    Display5(l1, CreateLine(sizeMB), "select volume last", FormatLine(fs, quick, []), AssignLine(letter));
  }

  /**
   * CreatePartition sends: select disk N, create partition primary (with
   * size=N only when sizeMB > 0), select volume last, a format line without
   * a label, assign, a "label L" line only for a non-empty label, exit.
   */
  lemma CreatePartitionScriptLines(physicalDiskIndex: int, sizeMB: nat, fs: seq<char>, volumeLabel: seq<char>, quick: bool, forceLetter: char)
    requires NoCR(fs) && NoCR(volumeLabel) && forceLetter != '\r' && (forceLetter as int) < 256
    ensures SplitLines(CreatePartitionScript(physicalDiskIndex, sizeMB, fs, volumeLabel, quick, forceLetter))
         == CreatePartitionLines(physicalDiskIndex, sizeMB, fs, volumeLabel, quick, forceLetter)
  {
    CreatePartitionHead(physicalDiskIndex, sizeMB, fs, quick, forceLetter);
    var ls5 := [SelectDiskLine(physicalDiskIndex), CreateLine(sizeMB), "select volume last", FormatLine(fs, quick, []), AssignLine(forceLetter)];
    var s5 := JoinLines(ls5);
    var s6, ls6;
    if volumeLabel != [] {
      NoCRAppend("label ", volumeLabel);
      s6 := s5 + ("label " + volumeLabel + "\r\n");
      AddPiece(s5, ls5, "label " + volumeLabel + "\r\n", "label " + volumeLabel);
      ls6 := ls5 + ["label " + volumeLabel];
    } else {
      s6 := s5 + "";
      ls6 := ls5 + [];
      assert s6 == s5 && ls6 == ls5;
    }
    AddLine(s6, ls6, "exit");
    assert ls6 + ["exit"] == CreatePartitionLines(physicalDiskIndex, sizeMB, fs, volumeLabel, quick, forceLetter);
    SplitJoin(ls6 + ["exit"]);
  }

  /** The script of RenameVolume; None where it returns false before building one. */
  function RenameVolumeScript(driveLetter: char, newLabel: seq<char>): (r: Option<seq<char>>)
    ensures r.None? <==> driveLetter == '\0' || newLabel == []
  {
    if driveLetter == '\0' || newLabel == [] then None
    else Some("select volume " + [NarrowChar(driveLetter)] + "\r\n" + "label " + newLabel + "\r\n" + "exit" + "\r\n")
  }

  /** A script, when there is one, is select volume X, label L, exit. */
  lemma RenameVolumeLines(driveLetter: char, newLabel: seq<char>)
    requires NoCR(newLabel) && driveLetter != '\r' && (driveLetter as int) < 256
    requires RenameVolumeScript(driveLetter, newLabel).Some?
    ensures SplitLines(RenameVolumeScript(driveLetter, newLabel).value)
         == ["select volume " + [driveLetter], "label " + newLabel, "exit"]
  {
    var l1 := "select volume " + [driveLetter];
    var l2 := "label " + newLabel;
    AddParts2([], [], "select volume ", [driveLetter]);
    assert [] + "select volume " == "select volume ";
    assert [] + [l1] == [l1];
    var s1 := "select volume " + [driveLetter] + "\r\n";
    AddParts2(s1, [l1], "label ", newLabel);
    var s2 := s1 + "label " + newLabel + "\r\n";
    AddLine(s2, [l1] + [l2], "exit");
    Display3(l1, l2, "exit");
    SplitJoin([l1, l2, "exit"]);
  }

  // ---------------------------------------------------------------------
  // Drive letters and file-system names
  // ---------------------------------------------------------------------

  /** ExtractDriveLetter: the first character upper-cased when it is an ASCII letter, else 0. */
  function ExtractDriveLetter(root: seq<char>): (r: char)
    ensures r != '\0' <==> |root| >= 1 && IsAsciiLetter(root[0])
    ensures r != '\0' ==> 'A' <= r <= 'Z' && LowerChar(r) == LowerChar(root[0])
  {
    if |root| >= 1 && IsAsciiLetter(root[0]) then UpperChar(root[0]) else '\0'
  }

  /** The letter names its root: extracting from "X:\" gives X back, and case does not matter. */
  lemma DriveLetterRoundTrip(root: seq<char>)
    ensures var r := ExtractDriveLetter(root);
      r != '\0' ==> ExtractDriveLetter([r] + ":\\") == r
    ensures ExtractDriveLetter(Upper(root)) == ExtractDriveLetter(root)
  {
  }

  /** IsIsoLikeFs: the name is CDFS or UDF, compared as _wcsicmp does. */
  function IsIsoLikeFs(fs: seq<char>): (r: bool)
    ensures r ==> |fs| == 3 || |fs| == 4
  {
    EqualsIgnoreCase(fs, "CDFS") || EqualsIgnoreCase(fs, "UDF")
  }

  lemma IgnoreCaseUpper(a: seq<char>, b: seq<char>)
    requires forall i :: 0 <= i < |b| ==> 'A' <= b[i] <= 'Z'
    ensures EqualsIgnoreCase(a, b) <==> Upper(a) == b
  {
    if EqualsIgnoreCase(a, b) {
      assert forall i :: 0 <= i < |a| ==> Upper(a)[i] == b[i];
    }
  }

  /** IsIsoLikeFs holds exactly when the upper-cased name is "CDFS" or "UDF". */
  lemma IsIsoLikeFsUpper(fs: seq<char>)
    ensures IsIsoLikeFs(fs) <==> Upper(fs) == "CDFS" || Upper(fs) == "UDF"
  {
    IgnoreCaseUpper(fs, "CDFS");
    IgnoreCaseUpper(fs, "UDF");
  }
}
