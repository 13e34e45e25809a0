/**
 * Text helpers shared by the settings writer and the DiskPart script
 * builders: an int printed in decimal (std::to_string, std::to_wstring and
 * operator<< without flags), scripts as CRLF-terminated lines, and ASCII
 * case folding.
 */
module Text {

  function DigitChar(d: nat): (c: char)
    requires d < 10
    ensures '0' <= c <= '9'
  {
    ('0' as int + d) as char
  }

  /** The decimal digits of n, most significant first, without leading zeros. */
  function Digits(n: nat): (r: seq<char>)
    ensures |r| >= 1
    ensures forall i :: 0 <= i < |r| ==> '0' <= r[i] <= '9'
    decreases n
  {
    if n < 10 then [DigitChar(n)] else Digits(n / 10) + [DigitChar(n % 10)]
  }

  /** The value of a string of decimal digits, read left to right. */
  function ParseDigits(s: seq<char>): nat
    requires forall i :: 0 <= i < |s| ==> '0' <= s[i] <= '9'
    decreases |s|
  {
    if s == [] then 0 else ParseDigits(s[..|s| - 1]) * 10 + (s[|s| - 1] as int - '0' as int)
  }

  /** Reading the digits back gives the number. */
  lemma {:induction false} ParseDigitsOfDigits(n: nat)
    ensures ParseDigits(Digits(n)) == n
    decreases n
  {
    var d := Digits(n);
    if n >= 10 {
      ParseDigitsOfDigits(n / 10);
      assert d[..|d| - 1] == Digits(n / 10);
    }
  }

  /** What std::to_string prints for an int: a '-' for negatives, then the digits. */
  function DecimalText(n: int): (r: seq<char>)
    ensures |r| >= 1
    ensures forall i :: 0 <= i < |r| ==> r[i] == '-' || '0' <= r[i] <= '9'
  {
    if n < 0 then "-" + Digits(-n) else Digits(n)
  }

  /** The text of a negative number: a '-' and then the digits of its magnitude. */
  lemma SignedDigits(m: nat)
    ensures var t := "-" + Digits(m);
      t[0] == '-' && t[1..] == Digits(m) && ParseDigits(t[1..]) == m
  {
    ParseDigitsOfDigits(m);
    assert ("-" + Digits(m))[1..] == Digits(m);
  }

  /** The text determines the number: reading it back gives n. */
  lemma DecimalTextRoundTrip(n: int)
    ensures DecimalText(n)[0] == '-' <==> n < 0
    ensures n < 0 ==> ParseDigits(DecimalText(n)[1..]) == -n
    ensures n >= 0 ==> ParseDigits(DecimalText(n)) == n
  {
    if n < 0 {
      SignedDigits(-n);
    } else {
      ParseDigitsOfDigits(n);
    }
  }

  /** The line terminator DiskPart scripts use. */
  const CRLF := "\r\n"

  /** A script made of lines, each followed by CRLF. */
  function JoinLines(lines: seq<seq<char>>): seq<char>
    decreases |lines|
  {
    if lines == [] then [] else lines[0] + CRLF + JoinLines(lines[1..])
  }

  /** The characters before the first CR. */
  function LineLength(s: seq<char>): (k: nat)
    ensures k <= |s|
    ensures forall i :: 0 <= i < k ==> s[i] != '\r'
    ensures k < |s| ==> s[k] == '\r'
    decreases |s|
  {
    if s == [] || s[0] == '\r' then 0 else 1 + LineLength(s[1..])
  }

  /** A reader's split of a script into its CRLF-terminated lines; an unterminated tail is a last line of its own. */
  function SplitLines(s: seq<char>): seq<seq<char>>
    decreases |s|
  {
    if s == [] then []
    else
      var k := LineLength(s);
      if k + 2 <= |s| && s[k + 1] == '\n' then [s[..k]] + SplitLines(s[k + 2..])
      else [s]
  }

  predicate NoCR(s: seq<char>)
  {
    forall i :: 0 <= i < |s| ==> s[i] != '\r'
  }

  lemma LineLengthOfLine(line: seq<char>, rest: seq<char>)
    requires NoCR(line)
    ensures LineLength(line + CRLF + rest) == |line|
    decreases |line|
  {
    if line != [] {
      assert (line + CRLF + rest)[1..] == line[1..] + CRLF + rest;
      LineLengthOfLine(line[1..], rest);
    }
  }

  /** Lines without CR come back out of the script exactly as they went in. */
  lemma {:induction false} SplitJoin(lines: seq<seq<char>>)
    requires forall i :: 0 <= i < |lines| ==> NoCR(lines[i])
    ensures SplitLines(JoinLines(lines)) == lines
    decreases |lines|
  {
    if lines != [] {
      var s := JoinLines(lines);
      var rest := JoinLines(lines[1..]);
      assert s == lines[0] + CRLF + rest;
      LineLengthOfLine(lines[0], rest);
      var k := |lines[0]|;
      assert s[..k] == lines[0] && s[k + 1] == '\n' && s[k + 2..] == rest;
      SplitJoin(lines[1..]);
    }
  }

  /** No line of the list holds a CR. */
  predicate LinesOk(lines: seq<seq<char>>)
  {
    forall i :: 0 <= i < |lines| ==> NoCR(lines[i])
  }

  lemma NoCRAppend(a: seq<char>, b: seq<char>)
    ensures NoCR(a + b) <==> NoCR(a) && NoCR(b)
  {
    if NoCR(a) && NoCR(b) {
      forall i | 0 <= i < |a + b|
        ensures (a + b)[i] != '\r'
      {
        if i >= |a| {
          assert (a + b)[i] == b[i - |a|];
        }
      }
    }
    if NoCR(a + b) {
      forall i | 0 <= i < |b|
        ensures b[i] != '\r'
      {
        assert (a + b)[|a| + i] == b[i];
      }
      forall i | 0 <= i < |a|
        ensures a[i] != '\r'
      {
        assert (a + b)[i] == a[i];
      }
    }
  }

  /** Appending a line at the end of the list appends it, and its CRLF, to the script. */
  lemma {:induction false} JoinSnoc(lines: seq<seq<char>>, line: seq<char>)
    ensures JoinLines(lines + [line]) == JoinLines(lines) + line + CRLF
    decreases |lines|
  {
    if lines == [] {
      assert [line][1..] == [];
    } else {
      assert (lines + [line])[1..] == lines[1..] + [line];
      JoinSnoc(lines[1..], line);
    }
  }

  // Lists of lines built one element at a time, as displays.

  /** Used by Disk.RenameVolumeLines. */
  lemma Display3<T>(a: T, b: T, c: T)
    ensures [a] + [b] + [c] == [a, b, c]
  {
  }

  /** Used by JoinLines4 and JoinFour. */
  lemma Display4<T>(a: T, b: T, c: T, d: T)
    ensures [a] + [b] + [c] + [d] == [a, b, c, d]
  {
  }

  /** Used by Disk.CreatePartitionHead. */
  lemma Display5<T>(a: T, b: T, c: T, d: T, e: T)
    ensures [a] + [b] + [c] + [d] + [e] == [a, b, c, d, e]
  {
  }

  /** Used by Disk.ConvertShape. */
  lemma Display41<T>(a: T, b: T, c: T, d: T, e: T)
    ensures [a, b, c, d] + [e] == [a, b, c, d, e]
  {
  }

  /** Used by Disk.RecreateShape. */
  lemma Display44<T>(a: T, b: T, c: T, d: T, e: T, f: T, g: T, h: T)
    ensures [a, b, c, d] + [e, f, g, h] == [a, b, c, d, e, f, g, h]
  {
  }

  /** Used by Disk.RecreateTail. */
  lemma Snoc4<T>(ls: seq<T>, a: T, b: T, c: T, d: T)
    ensures ls + [a] + [b] + [c] + [d] == ls + [a, b, c, d]
  {
  }

  /** A builder step that appends one line and its CRLF. */
  lemma AddLine(s: seq<char>, lines: seq<seq<char>>, line: seq<char>)
    requires s == JoinLines(lines) && LinesOk(lines) && NoCR(line)
    ensures s + line + CRLF == JoinLines(lines + [line]) && LinesOk(lines + [line])
  {
    JoinSnoc(lines, line);
  }

  /** A builder step that appends a piece holding a whole line and its CRLF. */
  lemma AddPiece(s: seq<char>, lines: seq<seq<char>>, piece: seq<char>, line: seq<char>)
    requires s == JoinLines(lines) && LinesOk(lines) && NoCR(line) && piece == line + CRLF
    ensures s + piece == JoinLines(lines + [line]) && LinesOk(lines + [line])
  {
    JoinSnoc(lines, line);
  }

  /** A builder step that appends a line in two pieces, then CRLF. */
  lemma AddParts2(s: seq<char>, lines: seq<seq<char>>, a: seq<char>, b: seq<char>)
    requires s == JoinLines(lines) && LinesOk(lines) && NoCR(a) && NoCR(b)
    ensures s + a + b + CRLF == JoinLines(lines + [a + b]) && LinesOk(lines + [a + b])
  {
    NoCRAppend(a, b);
    JoinSnoc(lines, a + b);
  }

  /** A builder step that appends a line in three pieces, then CRLF. */
  lemma AddParts3(s: seq<char>, lines: seq<seq<char>>, a: seq<char>, b: seq<char>, c: seq<char>)
    requires s == JoinLines(lines) && LinesOk(lines) && NoCR(a) && NoCR(b) && NoCR(c)
    ensures s + a + b + c + CRLF == JoinLines(lines + [a + b + c]) && LinesOk(lines + [a + b + c])
  {
    NoCRAppend(a, b);
    NoCRAppend(a + b, c);
    JoinSnoc(lines, a + b + c);
  }

  /** Four lines joined into a script. */
  lemma JoinLines4(a: seq<char>, b: seq<char>, c: seq<char>, d: seq<char>)
    requires NoCR(a) && NoCR(b) && NoCR(c) && NoCR(d)
    ensures a + CRLF + b + CRLF + c + CRLF + d + CRLF == JoinLines([a, b, c, d])
    ensures LinesOk([a, b, c, d])
  {
    AddPiece([], [], a + CRLF, a);
    assert [] + (a + CRLF) == a + CRLF && [] + [a] == [a];
    AddLine(a + CRLF, [a], b);
    AddLine(a + CRLF + b + CRLF, [a] + [b], c);
    AddLine(a + CRLF + b + CRLF + c + CRLF, [a] + [b] + [c], d);
    Display4(a, b, c, d);
  }

  /** Four lines, the second built in two pieces, joined into a script. */
  lemma JoinFour(a: seq<char>, b1: seq<char>, b2: seq<char>, c: seq<char>, d: seq<char>)
    requires NoCR(a) && NoCR(b1) && NoCR(b2) && NoCR(c) && NoCR(d)
    ensures a + CRLF + b1 + b2 + CRLF + c + CRLF + d + CRLF == JoinLines([a, b1 + b2, c, d])
    ensures LinesOk([a, b1 + b2, c, d])
  {
    AddPiece([], [], a + CRLF, a);
    assert [] + (a + CRLF) == a + CRLF && [] + [a] == [a];
    AddParts2(a + CRLF, [a], b1, b2);
    AddLine(a + CRLF + b1 + b2 + CRLF, [a] + [b1 + b2], c);
    AddLine(a + CRLF + b1 + b2 + CRLF + c + CRLF, [a] + [b1 + b2] + [c], d);
    Display4(a, b1 + b2, c, d);
  }

  /** The digits of a number hold no CR. */
  lemma DecimalNoCR(n: int)
    ensures NoCR(DecimalText(n))
  {
  }

  /** The position of the last `sep` in s, or -1. */
  function LastSep(s: seq<char>, sep: char): (k: int)
    ensures -1 <= k < |s|
    ensures k >= 0 ==> s[k] == sep
    ensures forall j :: k < j < |s| ==> s[j] != sep
    decreases |s|
  {
    if s == [] then -1
    else if s[|s| - 1] == sep then |s| - 1
    else LastSep(s[..|s| - 1], sep)
  }

  /** The fields of s between the occurrences of `sep`. */
  function SplitOn(s: seq<char>, sep: char): seq<seq<char>>
    decreases |s|
  {
    var k := LastSep(s, sep);
    if k < 0 then [s] else SplitOn(s[..k], sep) + [s[k + 1..]]
  }

  /** The fields joined with `sep` between consecutive ones. */
  function JoinWith(fields: seq<seq<char>>, sep: char): seq<char>
    requires |fields| >= 1
    decreases |fields|
  {
    if |fields| == 1 then fields[0]
    else JoinWith(fields[..|fields| - 1], sep) + [sep] + fields[|fields| - 1]
  }

  lemma {:induction false} LastSepOf(a: seq<char>, sep: char, b: seq<char>)
    requires sep !in b
    ensures LastSep(a + [sep] + b, sep) == |a|
    decreases |b|
  {
    var s := a + [sep] + b;
    if b != [] {
      assert s[..|s| - 1] == a + [sep] + b[..|b| - 1];
      assert s[|s| - 1] == b[|b| - 1];
      LastSepOf(a, sep, b[..|b| - 1]);
    }
  }

  /** Appending a separator and a field without one splits off exactly that field. */
  lemma SplitOnSnoc(a: seq<char>, sep: char, b: seq<char>)
    requires sep !in b
    ensures SplitOn(a + [sep] + b, sep) == SplitOn(a, sep) + [b]
  {
    var s := a + [sep] + b;
    LastSepOf(a, sep, b);
    assert s[..|a|] == a && s[|a| + 1..] == b;
  }

  /** Fields without the separator come back out of the join unchanged. */
  lemma {:induction false} SplitJoinWith(fields: seq<seq<char>>, sep: char)
    requires |fields| >= 1
    requires forall i :: 0 <= i < |fields| ==> sep !in fields[i]
    ensures SplitOn(JoinWith(fields, sep), sep) == fields
    decreases |fields|
  {
    if |fields| == 1 {
      assert LastSep(fields[0], sep) == -1;
    } else {
      var init := fields[..|fields| - 1];
      var last := fields[|fields| - 1];
      forall i | 0 <= i < |init|
        ensures sep !in init[i]
      {
        assert init[i] == fields[i];
      }
      SplitJoinWith(init, sep);
      SplitOnSnoc(JoinWith(init, sep), sep, last);
      assert init + [last] == fields;
    }
  }

  predicate IsAsciiLetter(c: char)
  {
    ('A' <= c <= 'Z') || ('a' <= c <= 'z')
  }

  /** towupper on ASCII: a-z to A-Z, everything else unchanged. */
  function UpperChar(c: char): (u: char)
    ensures 'a' <= c <= 'z' ==> 'A' <= u <= 'Z' && u as int == c as int - 32
    ensures !('a' <= c <= 'z') ==> u == c
  {
    if 'a' <= c <= 'z' then (c as int - 32) as char else c
  }

  /** towlower on ASCII: A-Z to a-z, everything else unchanged. */
  function LowerChar(c: char): (l: char)
    ensures 'A' <= c <= 'Z' ==> 'a' <= l <= 'z' && l as int == c as int + 32
    ensures !('A' <= c <= 'Z') ==> l == c
  {
    if 'A' <= c <= 'Z' then (c as int + 32) as char else c
  }

  function Upper(s: seq<char>): (r: seq<char>)
    ensures |r| == |s| && forall i :: 0 <= i < |s| ==> r[i] == UpperChar(s[i])
  {
    seq(|s|, i requires 0 <= i < |s| => UpperChar(s[i]))
  }

  /** Case-blind equality on ASCII, as _wcsicmp(a, b) == 0 compares the lower-cased strings. */
  predicate EqualsIgnoreCase(a: seq<char>, b: seq<char>)
  {
    |a| == |b| && forall i :: 0 <= i < |a| ==> LowerChar(a[i]) == LowerChar(b[i])
  }

  /** Upper-casing does not change a character's lower-case form. */
  lemma LowerOfUpper(c: char)
    ensures LowerChar(UpperChar(c)) == LowerChar(c)
  {
  }
}
