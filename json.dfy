/**
 * HvkJsonWriter (settings.cpp): the hand-written JSON emitter behind both
 * ExportToHvk functions and CreateInstanceFile. It appends to a string
 * stream and keeps an indentation depth. Also here: the ReadImVec4 shape
 * check of the importers, and the narrowing of wide strings by WString
 * with the widening that ImportFromHvk applies to them.
 */
module Json {
  import opened Backend
  import opened Text

  /** A UTF-16 code unit, Windows' wchar_t. */
  type WChar = x: int | 0 <= x < 0x1_0000

  /** The optional comma after a value. */
  function Comma(comma: bool): seq<char>
  {
    if comma then "," else ""
  }

  /** What Indent writes: `n` tabs, and none when n <= 0. */
  function Tabs(n: int): (r: seq<char>)
    ensures |r| == if n <= 0 then 0 else n
    ensures forall i :: 0 <= i < |r| ==> r[i] == '\t'
    decreases n
  {
    if n <= 0 then [] else Tabs(n - 1) + ['\t']
  }

  // ---------------------------------------------------------------------
  // String escaping
  // ---------------------------------------------------------------------

  /** The five characters String escapes. */
  predicate Escaped(c: char)
  {
    c == '\\' || c == '\"' || c == '\n' || c == '\r' || c == '\t'
  }

  /** One character as String writes it: a two-character escape for the five, the character itself otherwise. */
  function EscapeChar(c: char): seq<char>
  {
    if c == '\\' then "\\\\"
    else if c == '\"' then "\\\""
    else if c == '\n' then "\\n"
    else if c == '\r' then "\\r"
    else if c == '\t' then "\\t"
    else [c]
  }

  /** The body String writes between the quotes. */
  function Escape(s: seq<char>): seq<char>
  {
    if s == [] then [] else EscapeChar(s[0]) + Escape(s[1..])
  }

  /** Escaping distributes over concatenation: the loop may escape one character at a time. */
  lemma {:induction false} EscapeAppend(a: seq<char>, b: seq<char>)
    ensures Escape(a + b) == Escape(a) + Escape(b)
  {
    if a == [] {
      assert a + b == b;
    } else {
      assert (a + b)[0] == a[0];
      assert (a + b)[1..] == a[1..] + b;
      EscapeAppend(a[1..], b);
    }
  }

  /** The two-character escapes of section 7 of RFC 8259: the character after the backslash. */
  predicate SimpleEscape(c: char)
  {
    c == '\"' || c == '\\' || c == '/' || c == 'b' || c == 'f' || c == 'n' || c == 'r' || c == 't'
  }

  /** The character a two-character escape stands for. */
  function Unescaped(e: char): char
  {
    if e == 'b' then '\U{8}'
    else if e == 'f' then '\U{C}'
    else if e == 'n' then '\n'
    else if e == 'r' then '\r'
    else if e == 't' then '\t'
    else e
  }

  /**
   * A JSON reader's decoding of a string body: each two-character escape
   * becomes its character, everything else is kept as it is.
   */
  function Decode(t: seq<char>): seq<char>
    decreases |t|
  {
    if t == [] then []
    else if t[0] == '\\' && |t| >= 2 && SimpleEscape(t[1]) then [Unescaped(t[1])] + Decode(t[2..])
    else [t[0]] + Decode(t[1..])
  }

  /** One escaped character followed by any escaped text decodes to that character first. */
  lemma DecodeEscapeChar(c: char, rest: seq<char>)
    ensures Decode(EscapeChar(c) + rest) == [c] + Decode(rest)
  {
    var t := EscapeChar(c) + rest;
    if Escaped(c) {
      assert t[0] == '\\' && t[2..] == rest;
    } else {
      assert t[0] == c && t[1..] == rest;
    }
  }

  /** The round trip: decoding what String writes gives back the written string. */
  lemma {:induction false} DecodeEscape(s: seq<char>)
    ensures Decode(Escape(s)) == s
  {
    if s != [] {
      DecodeEscapeChar(s[0], Escape(s[1..]));
      DecodeEscape(s[1..]);
    }
  }

  /** `unescaped` of section 7 of RFC 8259: %x20-21 / %x23-5B / %x5D-10FFFF. */
  predicate Unreserved(c: char)
  {
    c == ' ' || c == '!' || ('#' <= c <= '[') || ']' <= c
  }

  predicate IsHexDigit(c: char)
  {
    ('0' <= c <= '9') || ('a' <= c <= 'f') || ('A' <= c <= 'F')
  }

  /** The characters of a JSON string between its quotes, per section 7 of RFC 8259. */
  predicate ValidBody(t: seq<char>)
    decreases |t|
  {
    if t == [] then true
    else if t[0] == '\\' then
      (|t| >= 2 && SimpleEscape(t[1]) && ValidBody(t[2..]))
      || (|t| >= 6 && t[1] == 'u' && IsHexDigit(t[2]) && IsHexDigit(t[3]) && IsHexDigit(t[4]) && IsHexDigit(t[5])
          && ValidBody(t[6..]))
    else Unreserved(t[0]) && ValidBody(t[1..])
  }

  /** A character String either escapes or may copy into valid JSON: not a control character other than LF, CR and TAB. */
  predicate Writable(c: char)
  {
    c >= ' ' || c == '\n' || c == '\r' || c == '\t'
  }

  /** One escaped character keeps a valid body valid exactly when it is writable. */
  lemma ValidEscapeChar(c: char, rest: seq<char>)
    ensures ValidBody(EscapeChar(c) + rest) <==> Writable(c) && ValidBody(rest)
  {
    var t := EscapeChar(c) + rest;
    if Escaped(c) {
      assert t[0] == '\\' && SimpleEscape(t[1]) && t[1] != 'u' && t[2..] == rest;
    } else {
      assert t[0] == c && t[1..] == rest;
    }
  }

  /**
   * String's output is a valid JSON string exactly when its input has no
   * control character other than LF, CR and TAB: the others are copied raw.
   */
  lemma {:induction false} EscapeValid(s: seq<char>)
    ensures ValidBody(Escape(s)) <==> forall i :: 0 <= i < |s| ==> Writable(s[i])
  {
    if s != [] {
      ValidEscapeChar(s[0], Escape(s[1..]));
      EscapeValid(s[1..]);
      assert forall i :: 1 <= i < |s| ==> s[i] == s[1..][i - 1];
    }
  }

  // ---------------------------------------------------------------------
  // Wide strings
  // ---------------------------------------------------------------------

  /** One code unit converted to char, which keeps its low byte. */
  function NarrowUnit(w: WChar): (c: char)
    ensures c as int < 256 && c as int == w % 256
  {
    (w % 256) as char
  }

  /** What WString passes to String: std::string(v.begin(), v.end()). */
  function Narrow(v: seq<WChar>): (s: seq<char>)
    ensures |s| == |v|
    ensures forall i :: 0 <= i < |v| ==> s[i] == NarrowUnit(v[i])
  {
    seq(|v|, i requires 0 <= i < |v| => NarrowUnit(v[i]))
  }

  /** One byte widened through a signed char to wchar_t: the values 128..255 are sign-extended. */
  function WidenUnit(c: char): WChar
    requires c as int < 256
  {
    if c as int < 128 then c as int else c as int + 0xFF00
  }

  /** The import's std::wstring(s.begin(), s.end()) of bg_image_path. */
  function Widen(s: seq<char>): (v: seq<WChar>)
    requires forall i :: 0 <= i < |s| ==> s[i] as int < 256
    ensures |v| == |s|
    ensures forall i :: 0 <= i < |s| ==> v[i] == WidenUnit(s[i])
  {
    seq(|s|, i requires 0 <= i < |s| => WidenUnit(s[i]))
  }

  /** A code unit survives narrowing then widening exactly when it is ASCII or sign-extends from its low byte. */
  lemma NarrowWidenUnit(w: WChar)
    ensures WidenUnit(NarrowUnit(w)) == w <==> w < 128 || w >= 0xFF80
  {
    var b := w % 256;
    assert w == w / 256 * 256 + b;
    if w >= 0xFF80 {
      assert w / 256 == 0xFF;
    }
  }

  /** Narrowing then widening is the identity on exactly the strings whose code units are all ASCII or at least 0xFF80. */
  lemma NarrowWiden(v: seq<WChar>)
    ensures Widen(Narrow(v)) == v <==> forall i :: 0 <= i < |v| ==> v[i] < 128 || v[i] >= 0xFF80
  {
    var r := Widen(Narrow(v));
    forall i | 0 <= i < |v|
      ensures r[i] == v[i] <==> v[i] < 128 || v[i] >= 0xFF80
    {
      NarrowWidenUnit(v[i]);
    }
    if r != v {
      var k :| 0 <= k < |v| && r[k] != v[k];
    }
  }

  /** In particular an ASCII path comes back unchanged. */
  lemma NarrowWidenAscii(v: seq<WChar>)
    requires forall i :: 0 <= i < |v| ==> v[i] < 128
    ensures Widen(Narrow(v)) == v
  {
    NarrowWiden(v);
  }

  // ---------------------------------------------------------------------
  // The writer
  // ---------------------------------------------------------------------

  /** The calls the exporters make on a writer. */
  datatype Call =
    | BeginObjectCall
    | EndObjectCall(comma: bool)
    | KeyCall(key: seq<char>)
    | StringCall(s: seq<char>, comma: bool)
    | WStringCall(wide: seq<WChar>, comma: bool)
    | BoolCall(b: bool, comma: bool)
    | NumberCall(text: seq<char>, comma: bool)
    | ImVec4Call(x: seq<char>, y: seq<char>, z: seq<char>, w: seq<char>, comma: bool)

  /** A writer's stream contents and indentation depth. */
  datatype WriterState = WriterState(out: seq<char>, indent: int)

  const Initial := WriterState([], 0)

  /** What one call appends to the stream, at depth `indent`. */
  function Appended(indent: int, c: Call): seq<char>
  {
    match c
    case BeginObjectCall => "{\n"
    case EndObjectCall(comma) => "\n" + Tabs(indent - 1) + "}" + Comma(comma) + "\n"
    case KeyCall(key) => Tabs(indent) + "\"" + key + "\": "
    case StringCall(s, comma) => "\"" + Escape(s) + "\"" + Comma(comma) + "\n"
    case WStringCall(w, comma) => "\"" + Escape(Narrow(w)) + "\"" + Comma(comma) + "\n"
    case BoolCall(b, comma) => (if b then "true" else "false") + Comma(comma) + "\n"
    case NumberCall(text, comma) => text + Comma(comma) + "\n"
    case ImVec4Call(x, y, z, w, comma) => "[ " + x + ", " + y + ", " + z + ", " + w + " ]" + Comma(comma) + "\n"
  }

  /** BeginObject goes one level deeper, EndObject one level back; the other calls keep the depth. */
  function NextIndent(indent: int, c: Call): int
  {
    match c
    case BeginObjectCall => indent + 1
    case EndObjectCall(_) => indent - 1
    case _ => indent
  }

  /** One call on a writer. */
  function Apply(st: WriterState, c: Call): WriterState
  {
    WriterState(st.out + Appended(st.indent, c), NextIndent(st.indent, c))
  }

  /** A sequence of calls, in order. */
  function Run(st: WriterState, calls: seq<Call>): WriterState
    decreases |calls|
  {
    if calls == [] then st else Run(Apply(st, calls[0]), calls[1..])
  }

  lemma {:induction false} RunAppend(st: WriterState, a: seq<Call>, b: seq<Call>)
    ensures Run(st, a + b) == Run(Run(st, a), b)
    decreases |a|
  {
    if a == [] {
      assert a + b == b;
    } else {
      assert (a + b)[0] == a[0];
      assert (a + b)[1..] == a[1..] + b;
      RunAppend(Apply(st, a[0]), a[1..], b);
    }
  }

  /** The writer only appends: every call keeps what the stream already holds. */
  lemma {:induction false} RunExtends(st: WriterState, calls: seq<Call>)
    ensures |st.out| <= |Run(st, calls).out| && Run(st, calls).out[..|st.out|] == st.out
    decreases |calls|
  {
    if calls != [] {
      var st1 := Apply(st, calls[0]);
      ApplyExtends(st, calls[0]);
      RunExtends(st1, calls[1..]);
      var r := Run(st1, calls[1..]).out;
      assert r[..|st.out|] == r[..|st1.out|][..|st.out|];
    }
  }

  lemma ApplyExtends(st: WriterState, c: Call)
    ensures |st.out| <= |Apply(st, c).out| && Apply(st, c).out[..|st.out|] == st.out
  {
    var t := Appended(st.indent, c);
    assert (st.out + t)[..|st.out|] == st.out;
  }

  /** No call in the sequence runs with the depth below `floor`, and none leaves it there. */
  predicate StaysAtLeast(st: WriterState, calls: seq<Call>, floor: int)
    decreases |calls|
  {
    st.indent >= floor && (calls != [] ==> StaysAtLeast(Apply(st, calls[0]), calls[1..], floor))
  }

  /** The pieces of an EndObject, appended in turn, are the stream followed by what the call appends. */
  lemma Concat6<T>(o: seq<T>, a: seq<T>, b: seq<T>, c: seq<T>, d: seq<T>, e: seq<T>)
    ensures o + a + b + (c + d + e) == o + (a + b + c + d + e)
  {
  }

  /** A single call runs as Apply, and stays above a floor when both its depths do. */
  lemma SingleCall(st: WriterState, c: Call, floor: int)
    ensures Run(st, [c]) == Apply(st, c) && Apply(st, c).indent == NextIndent(st.indent, c)
    ensures StaysAtLeast(st, [c], floor) <==> st.indent >= floor && NextIndent(st.indent, c) >= floor
  {
    assert [c][1..] == [];
  }

  lemma {:induction false} StaysAtLeastAppend(st: WriterState, a: seq<Call>, b: seq<Call>, floor: int)
    requires StaysAtLeast(st, a, floor) && StaysAtLeast(Run(st, a), b, floor)
    ensures StaysAtLeast(st, a + b, floor)
    decreases |a|
  {
    if a == [] {
      assert a + b == b;
    } else {
      assert (a + b)[0] == a[0];
      assert (a + b)[1..] == a[1..] + b;
      StaysAtLeastAppend(Apply(st, a[0]), a[1..], b, floor);
    }
  }

  lemma {:induction false} StaysAtLeastLower(st: WriterState, calls: seq<Call>, floor: int)
    requires StaysAtLeast(st, calls, floor + 1)
    ensures StaysAtLeast(st, calls, floor)
    decreases |calls|
  {
    if calls != [] {
      StaysAtLeastLower(Apply(st, calls[0]), calls[1..], floor);
    }
  }

  /** A value to export: the tree of Key and value calls an exporter makes. */
  datatype Value =
    | Object(members: seq<Member>)
    | Str(s: seq<char>)
    | WStr(wide: seq<WChar>)
    | Flag(b: bool)
    | Number(text: seq<char>)
    | Vector(x: seq<char>, y: seq<char>, z: seq<char>, w: seq<char>)

  datatype Member = Member(key: seq<char>, value: Value)

  /**
   * The calls that write a value: an object is BeginObject, its members and
   * EndObject; every member is Key and its value, with a comma after all
   * but the last member, as the exporters pass it.
   */
  function Calls(v: Value, comma: bool): seq<Call>
    decreases v
  {
    match v
    case Object(ms) => [BeginObjectCall] + MemberCalls(ms) + [EndObjectCall(comma)]
    case Str(s) => [StringCall(s, comma)]
    case WStr(w) => [WStringCall(w, comma)]
    case Flag(b) => [BoolCall(b, comma)]
    case Number(text) => [NumberCall(text, comma)]
    case Vector(x, y, z, w) => [ImVec4Call(x, y, z, w, comma)]
  }

  /** The calls of an object's members. */
  function MemberCalls(ms: seq<Member>): seq<Call>
    decreases ms
  {
    if ms == [] then []
    else [KeyCall(ms[0].key)] + Calls(ms[0].value, |ms| > 1) + MemberCalls(ms[1..])
  }

  /**
   * Writing a value returns the depth to where it was and never goes below
   * it: every BeginObject is matched by its EndObject.
   */
  lemma {:induction false} CallsBalanced(st: WriterState, v: Value, comma: bool)
    ensures Run(st, Calls(v, comma)).indent == st.indent
    ensures StaysAtLeast(st, Calls(v, comma), st.indent)
    decreases v, 1
  {
    match v
    case Object(ms) => ObjectBalanced(st, ms, comma);
    case Str(s) => SingleCall(st, StringCall(s, comma), st.indent);
    case WStr(w) => SingleCall(st, WStringCall(w, comma), st.indent);
    case Flag(b) => SingleCall(st, BoolCall(b, comma), st.indent);
    case Number(text) => SingleCall(st, NumberCall(text, comma), st.indent);
    case Vector(x, y, z, w) => SingleCall(st, ImVec4Call(x, y, z, w, comma), st.indent);
  }

  /** An object's BeginObject, members and EndObject: one level deeper inside, and back. */
  lemma {:induction false} ObjectBalanced(st: WriterState, ms: seq<Member>, comma: bool)
    ensures Run(st, Calls(Object(ms), comma)).indent == st.indent
    ensures StaysAtLeast(st, Calls(Object(ms), comma), st.indent)
    decreases Object(ms), 0
  {
    var st1 := Apply(st, BeginObjectCall);
    var inner := MemberCalls(ms);
    MembersBalanced(st1, ms);
    var st2 := Run(st1, inner);
    var close := [EndObjectCall(comma)];
    RunAppend(st, [BeginObjectCall], inner);
    RunAppend(st, [BeginObjectCall] + inner, close);
    SingleCall(st, BeginObjectCall, st.indent);
    SingleCall(st2, EndObjectCall(comma), st.indent);
    StaysAtLeastLower(st1, inner, st.indent);
    StaysAtLeastAppend(st, [BeginObjectCall], inner, st.indent);
    StaysAtLeastAppend(st, [BeginObjectCall] + inner, close, st.indent);
  }

  lemma {:induction false} MembersBalanced(st: WriterState, ms: seq<Member>)
    ensures Run(st, MemberCalls(ms)).indent == st.indent
    ensures StaysAtLeast(st, MemberCalls(ms), st.indent)
    decreases ms
  {
    if ms != [] {
      var key := [KeyCall(ms[0].key)];
      var value := Calls(ms[0].value, |ms| > 1);
      var rest := MemberCalls(ms[1..]);
      var st1 := Apply(st, key[0]);
      assert Run(st, key) == st1;
      CallsBalanced(st1, ms[0].value, |ms| > 1);
      var st2 := Run(st1, value);
      MembersBalanced(st2, ms[1..]);
      RunAppend(st, key, value);
      RunAppend(st, key + value, rest);
      StaysAtLeastAppend(st, key, value, st.indent);
      StaysAtLeastAppend(st, key + value, rest, st.indent);
    }
  }

  /** The text an exporter hands to WriteFile: the document written by a fresh writer. */
  function ExportText(doc: Value): seq<char>
  {
    Run(Initial, Calls(doc, false)).out
  }

  /** An exported object starts with "{" and a line break, so the text is never empty. */
  lemma ExportStartsWithBrace(ms: seq<Member>)
    ensures |ExportText(Object(ms))| >= 2 && ExportText(Object(ms))[..2] == "{\n"
  {
    var doc := Object(ms);
    var st1 := Apply(Initial, BeginObjectCall);
    assert Calls(doc, false) == [BeginObjectCall] + (MemberCalls(ms) + [EndObjectCall(false)]);
    RunExtends(st1, MemberCalls(ms) + [EndObjectCall(false)]);
    assert st1.out == "{\n";
  }

  /** The writer class: the string stream and the depth, one method per call. */
  class HvkJsonWriter {
    var out: seq<char>
    var indent: int

    function State(): WriterState
      reads this
    {
      WriterState(out, indent)
    }

    /** A fresh writer: an empty stream at depth 0. */
    constructor ()
      ensures State() == Initial
    {
      out, indent := [], 0;
    }

    /** One tab per level of depth. */
    method Indent()
      modifies this`out
      ensures out == old(out) + Tabs(indent)
    {
      var i := 0;
      while i < indent
        invariant 0 <= i && (indent > 0 ==> i <= indent) && (indent <= 0 ==> i == 0)
        invariant out == old(out) + Tabs(i)
      {
        out := out + ['\t'];
        i := i + 1;
      }
    }

    method BeginObject()
      modifies this`out, this`indent
      ensures State() == Apply(old(State()), BeginObjectCall)
    {
      out := out + "{\n";
      indent := indent + 1;
    }

    method EndObject(comma: bool)
      modifies this`out, this`indent
      ensures State() == Apply(old(State()), EndObjectCall(comma))
    {
      out := out + "\n";
      indent := indent - 1;
      Indent();
      var tail := "}";
      if comma {
        tail := tail + ",";
      }
      assert tail == "}" + Comma(comma);
      Append(tail + "\n");
      Concat6(old(out), "\n", Tabs(old(indent) - 1), "}", Comma(comma), "\n");
    }

    method Key(key: seq<char>)
      modifies this`out
      ensures State() == Apply(old(State()), KeyCall(key))
    {
      Indent();
      Append("\"" + key + "\": ");
    }

    /** The stream's operator<<, for text already put together. */
    method Append(text: seq<char>)
      modifies this`out
      ensures out == old(out) + text
    {
      out := out + text;
    }

    /** The quoted, escaped string, then the optional comma and a line break. */
    method String(v: seq<char>, comma: bool)
      modifies this`out
      ensures State() == Apply(old(State()), StringCall(v, comma))
    {
      var body := "";
      for k := 0 to |v|
        invariant body == Escape(v[..k])
        invariant out == old(out)
      {
        assert v[..k + 1] == v[..k] + [v[k]];
        assert [v[k]][1..] == [];
        EscapeAppend(v[..k], [v[k]]);
        var c := v[k];
        if c == '\\' {
          body := body + "\\\\";
        } else if c == '\"' {
          body := body + "\\\"";
        } else if c == '\n' {
          body := body + "\\n";
        } else if c == '\r' {
          body := body + "\\r";
        } else if c == '\t' {
          body := body + "\\t";
        } else {
          body := body + [c];
        }
      }
      assert v[..|v|] == v;
      var tail := "\"";
      if comma {
        tail := tail + ",";
      }
      assert tail == "\"" + Comma(comma);
      var text := "\"" + body + tail + "\n";
      assert text == Appended(indent, StringCall(v, comma));
      Append(text);
    }

    /** A wide string, narrowed code unit by code unit. */
    method WString(v: seq<WChar>, comma: bool)
      modifies this`out
      ensures State() == Apply(old(State()), WStringCall(v, comma))
    {
      String(Narrow(v), comma);
    }

    method Bool(v: bool, comma: bool)
      modifies this`out
      ensures State() == Apply(old(State()), BoolCall(v, comma))
    {
      var text := if v then "true" else "false";
      if comma {
        text := text + ",";
      }
      Append(text + "\n");
    }

    /** A number, given as the text the stream prints for it. */
    method Number(text: seq<char>, comma: bool)
      modifies this`out
      ensures State() == Apply(old(State()), NumberCall(text, comma))
    {
      var t := text;
      if comma {
        t := t + ",";
      }
      Append(t + "\n");
    }
  }

  /** WriteImVec4: the four components as a bracketed list. */
  method WriteImVec4(w: HvkJsonWriter, x: seq<char>, y: seq<char>, z: seq<char>, v: seq<char>, comma: bool)
    modifies w`out
    ensures w.State() == Apply(old(w.State()), ImVec4Call(x, y, z, v, comma))
  {
    var text := "[ " + x + ", " + y + ", " + z + ", " + v + " ]";
    if comma {
      text := text + ",";
    }
    w.Append(text + "\n");
  }

  /** One writer call made on `w`. */
  method Perform(w: HvkJsonWriter, c: Call)
    modifies w`out, w`indent
    ensures w.State() == Apply(old(w.State()), c)
  {
    match c
    case BeginObjectCall => w.BeginObject();
    case EndObjectCall(comma) => w.EndObject(comma);
    case KeyCall(key) => w.Key(key);
    case StringCall(s, comma) => w.String(s, comma);
    case WStringCall(v, comma) => w.WString(v, comma);
    case BoolCall(b, comma) => w.Bool(b, comma);
    case NumberCall(text, comma) => w.Number(text, comma);
    case ImVec4Call(x, y, z, v, comma) => WriteImVec4(w, x, y, z, v, comma);
  }

  /** An exporter's calls, made one after the other on `w`. */
  method Write(w: HvkJsonWriter, calls: seq<Call>)
    modifies w`out, w`indent
    ensures w.State() == Run(old(w.State()), calls)
  {
    ghost var start := w.State();
    for k := 0 to |calls|
      invariant w.State() == Run(start, calls[..k])
    {
      RunAppend(start, calls[..k], [calls[k]]);
      assert calls[..k + 1] == calls[..k] + [calls[k]];
      assert [calls[k]][1..] == [];
      Perform(w, calls[k]);
    }
    assert calls[..|calls|] == calls;
  }

  /**
   * An exporter: a fresh writer, the document's calls, then the stream's
   * text; the depth is back at 0 when it is taken.
   */
  method Export(doc: Value) returns (text: seq<char>, depth: int)
    ensures text == ExportText(doc)
    ensures depth == 0
  {
    var w := new HvkJsonWriter();
    Write(w, Calls(doc, false));
    CallsBalanced(Initial, doc, false);
    text, depth := w.out, w.indent;
  }

  // ---------------------------------------------------------------------
  // The exported documents
  // ---------------------------------------------------------------------

  /** An RGBA colour. */
  datatype Vec4 = Vec4(x: real, y: real, z: real, w: real)

  /** The visibility flags of c_settings. */
  datatype Visibility = Visibility(winMain: bool, winDev: bool, winSelector: bool,
                                   diskInfo: bool, partInfo: bool, diskAndPartInfo: bool)

  /** FormatUIState as ExportToHvk writes it. */
  datatype FormatUI = FormatUI(selectedDisk: int, selectedPartition: int, volumeLabel: seq<char>, fileSystem: int,
                               quickFormat: bool, confirmPopup: bool, confirmRecreate: bool,
                               confirmCreatePartition: bool, confirmDeletePartition: bool, renameLabel: seq<char>)

  /** The exported fields of c_settings. */
  datatype Settings = Settings(isFirstRun: bool, mainTab: int, vsync: bool, isLoading: bool,
                               visibility: Visibility, formatUI: FormatUI, loadingThemeIdx: int, bgThemeIdx: int)

  /** The exported fields of c_usersettings; `floatText` prints a float as the stream does. */
  datatype UserSettings = UserSettings(
    wmRenderInterval: int, targetFps: int, bgImagePath: seq<WChar>,
    toggleMain: int, toggleDev: int, shutdown: int,
    wmBgColor: Vec4, wmTextColor: Vec4, wmOpacity: real,
    mainBgColor: Vec4, mainTextColor: Vec4, mainBorderColor: Vec4, mainOpacity: real,
    tabbarTextColor: Vec4, tabbarSelectedColor: Vec4, tabbarInactiveOpacity: real,
    buttonColor: Vec4, buttonTextColor: Vec4, buttonHoverColor: Vec4, buttonHoverTextColor: Vec4, buttonActiveColor: Vec4,
    loadingTheme: LoadingTheme, bgTheme: BgTheme, mainSecondaryColor: Vec4)

  /** The enumerators' values, as the (int) casts print them. */
  function LoadingThemeIndex(t: LoadingTheme): int
  {
    match t
    case DARKMODE => 0
    case LIGHTMODE => 1
  }

  function BgThemeIndex(t: BgTheme): int
  {
    match t
    case BLACK => 0
    case PURPLE => 1
    case YELLOW => 2
    case BLUE => 3
    case GREEN => 4
    case RED => 5
  }

  /** c_settings::ExportToHvk's document, member by member in its order. */
  function SettingsDocument(s: Settings): Value
  {
    var v := s.visibility;
    var ui := s.formatUI;
    Object([
      Member("is_first_run", Flag(s.isFirstRun)),
      Member("g_MainTab", Number(DecimalText(s.mainTab))),
      Member("vsync", Flag(s.vsync)),
      Member("isLoading", Flag(s.isLoading)),
      Member("visibility", Object([
        Member("win_main", Flag(v.winMain)),
        Member("win_dev", Flag(v.winDev)),
        Member("win_selector", Flag(v.winSelector)),
        Member("disk_info", Flag(v.diskInfo)),
        Member("part_info", Flag(v.partInfo)),
        Member("disk_and_part_info", Flag(v.diskAndPartInfo))])),
      Member("format_ui", Object([
        Member("SelectedDisk", Number(DecimalText(ui.selectedDisk))),
        Member("SelectedPartition", Number(DecimalText(ui.selectedPartition))),
        Member("VolumeLabel", Str(ui.volumeLabel)),
        Member("FileSystem", Number(DecimalText(ui.fileSystem))),
        Member("QuickFormat", Flag(ui.quickFormat)),
        Member("ConfirmPopup", Flag(ui.confirmPopup)),
        Member("ConfirmRecreate", Flag(ui.confirmRecreate)),
        Member("ConfirmCreatePartition", Flag(ui.confirmCreatePartition)),
        Member("ConfirmDeletePartition", Flag(ui.confirmDeletePartition)),
        Member("RenameLabel", Str(ui.renameLabel))])),
      Member("themecombos", Object([
        Member("LoadingThemeIdx", Number(DecimalText(s.loadingThemeIdx))),
        Member("BgThemeIdx", Number(DecimalText(s.bgThemeIdx)))]))])
  }

  function Color(c: Vec4, floatText: real -> seq<char>): Value
  {
    Vector(floatText(c.x), floatText(c.y), floatText(c.z), floatText(c.w))
  }

  /** c_usersettings::ExportToHvk's document, member by member in its order. */
  function UserDocument(u: UserSettings, floatText: real -> seq<char>): Value
  {
    Object([
      Member("render", Object([
        Member("wm_render_interval", Number(DecimalText(u.wmRenderInterval))),
        Member("target_fps", Number(DecimalText(u.targetFps))),
        Member("bg_image_path", WStr(u.bgImagePath))])),
      Member("binds", Object([
        Member("toggle_main", Number(DecimalText(u.toggleMain))),
        Member("toggle_dev", Number(DecimalText(u.toggleDev))),
        Member("shutdown", Number(DecimalText(u.shutdown)))])),
      Member("style", Object([
        Member("wm_bg_color", Color(u.wmBgColor, floatText)),
        Member("wm_text_color", Color(u.wmTextColor, floatText)),
        Member("wm_opacity", Number(floatText(u.wmOpacity))),
        Member("main_bg_color", Color(u.mainBgColor, floatText)),
        Member("main_text_color", Color(u.mainTextColor, floatText)),
        Member("main_border_color", Color(u.mainBorderColor, floatText)),
        Member("main_opacity", Number(floatText(u.mainOpacity))),
        Member("tabbar_text_color", Color(u.tabbarTextColor, floatText)),
        Member("tabbar_selected_color", Color(u.tabbarSelectedColor, floatText)),
        Member("tabbar_inactive_opacity", Number(floatText(u.tabbarInactiveOpacity))),
        Member("button_color", Color(u.buttonColor, floatText)),
        Member("button_text_color", Color(u.buttonTextColor, floatText)),
        Member("button_hover_color", Color(u.buttonHoverColor, floatText)),
        Member("button_hover_text_color", Color(u.buttonHoverTextColor, floatText)),
        Member("button_active_color", Color(u.buttonActiveColor, floatText)),
        Member("loading_theme", Number(DecimalText(LoadingThemeIndex(u.loadingTheme)))),
        Member("bg_theme", Number(DecimalText(BgThemeIndex(u.bgTheme)))),
        Member("main_secondary_color", Color(u.mainSecondaryColor, floatText))]))])
  }

  /** CreateInstanceFile's document: the application name, the identifier and the creation time. */
  function InstanceDocument(uuid: seq<char>, createdUnix: nat): Value
  {
    Object([
      Member("app", Str("PSHVK")),
      Member("uuid", Str(uuid)),
      Member("created_unix", Number(DecimalText(createdUnix)))])
  }

  /** Both exporters end at depth 0, having never gone below it. */
  lemma ExportsBalanced(s: Settings, u: UserSettings, floatText: real -> seq<char>)
    ensures Run(Initial, Calls(SettingsDocument(s), false)).indent == 0
    ensures Run(Initial, Calls(UserDocument(u, floatText), false)).indent == 0
    ensures StaysAtLeast(Initial, Calls(SettingsDocument(s), false), 0)
    ensures StaysAtLeast(Initial, Calls(UserDocument(u, floatText), false), 0)
  {
    CallsBalanced(Initial, SettingsDocument(s), false);
    CallsBalanced(Initial, UserDocument(u, floatText), false);
  }

  // ---------------------------------------------------------------------
  // Import
  // ---------------------------------------------------------------------

  /** A parsed JSON value, as the importers see it. */
  datatype JsonValue =
    | JNull
    | JBool(b: bool)
    | JNumber(n: real)
    | JString(s: seq<char>)
    | JArray(items: seq<JsonValue>)
    | JObject(members: seq<(seq<char>, JsonValue)>)

  /** The shape ReadImVec4 accepts: an array of exactly four numbers. */
  predicate IsVec4(j: JsonValue)
  {
    j.JArray? && |j.items| == 4 && forall i :: 0 <= i < 4 ==> j.items[i].JNumber?
  }

  /** ReadImVec4: the four numbers of a four-number array, the fallback for anything else. */
  method ReadImVec4(j: JsonValue, fallback: Vec4) returns (v: Vec4)
    ensures !IsVec4(j) ==> v == fallback
    ensures IsVec4(j) ==> v == Vec4(j.items[0].n, j.items[1].n, j.items[2].n, j.items[3].n)
  {
    if !j.JArray? || |j.items| != 4 {
      return fallback;
    }
    for i := 0 to 4
      invariant forall k :: 0 <= k < i ==> j.items[k].JNumber?
    {
      if !j.items[i].JNumber? {
        return fallback;
      }
    }
    v := Vec4(j.items[0].n, j.items[1].n, j.items[2].n, j.items[3].n);
  }
}
