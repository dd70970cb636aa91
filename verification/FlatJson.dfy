/**
  JSON objects (RFC 8259) whose members are texts and integers, printed as
  `json.dumps(..., separators=(",", ":"))` does and read back.
 */
module FlatJson {
  import opened Common
  import Decimal
  import Uuids

  datatype Value = Text(text: string) | Number(number: int)

  type Member = (string, Value)

  // ---------------------------------------------------------------------- printing

  /** `\uXXXX`. */
  function Unicode(n: nat): (s: string)
    ensures |s| == 6
  {
    "\\u" + Uuids.Digits(n, 4)
  }

  /** How one character stands inside a JSON text when only ASCII is written. */
  function Escape(c: char): string {
    if c == '"' then "\\\""
    else if c == '\\' then "\\\\"
    else if c == '\n' then "\\n"
    else if c == '\r' then "\\r"
    else if c == '\t' then "\\t"
    else if c as int == 8 then "\\b"
    else if c as int == 12 then "\\f"
    else if ' ' <= c <= '~' then [c]
    else if c as int < 0x10000 then Unicode(c as nat)
    else
      var n := c as nat - 0x10000;
      Unicode(0xD800 + n / 0x400) + Unicode(0xDC00 + n % 0x400)
  }

  function Escaped(s: string): string {
    if s == "" then "" else Escape(s[0]) + Escaped(s[1..])
  }

  function PrintText(s: string): string {
    "\"" + (Escaped(s) + "\"")
  }

  function PrintNumber(n: int): string {
    if n < 0 then "-" + Decimal.Print(-n) else Decimal.Print(n)
  }

  function PrintValue(v: Value): string {
    match v
    case Text(s) => PrintText(s)
    case Number(n) => PrintNumber(n)
  }

  function PrintMember(m: Member): string {
    PrintText(m.0) + (":" + PrintValue(m.1))
  }

  /** The members, separated by commas, and the closing brace. */
  function PrintRest(ms: seq<Member>): string {
    if ms == [] then "}" else "," + (PrintMember(ms[0]) + PrintRest(ms[1..]))
  }

  function Print(ms: seq<Member>): string {
    if ms == [] then "{}" else "{" + (PrintMember(ms[0]) + PrintRest(ms[1..]))
  }

  // ----------------------------------------------------------------------- parsing

  /** A parsed item and the text after it. */
  type Parsed<T> = Option<(T, string)>

  function Expect(s: string, c: char): Option<string> {
    if s != "" && s[0] == c then Some(s[1..]) else None
  }

  function HexAt(s: string): Option<nat> {
    if |s| < 6 || s[0] != '\\' || s[1] != 'u' then None else Uuids.ValueOf(s[2..6])
  }

  function Simple(e: char): Option<char> {
    match e
    case '"' => Some('"')
    case '\\' => Some('\\')
    case '/' => Some('/')
    case 'b' => Some(8 as char)
    case 'f' => Some(12 as char)
    case 'n' => Some('\n')
    case 'r' => Some('\r')
    case 't' => Some('\t')
    case _ => None
  }

  /** One character of a JSON text: itself, a short escape, a unit or a surrogate pair. */
  function ParseChar(s: string): Parsed<char>
    requires s != ""
    ensures ParseChar(s).Some? ==> |ParseChar(s).value.1| < |s|
  {
    if s[0] as int < 32 then None
    else if s[0] != '\\' then Some((s[0], s[1..]))
    else if |s| >= 2 && Simple(s[1]).Some? then Some((Simple(s[1]).value, s[2..]))
    else if HexAt(s).None? then None
    else
      var n := HexAt(s).value;
      if 0xD800 <= n < 0xDC00 then
        var low := HexAt(s[6..]);
        if low.Some? && 0xDC00 <= low.value < 0xE000 then
          Some(((0x10000 + (n - 0xD800) * 0x400 + (low.value - 0xDC00)) as char, s[12..]))
        else None
      else if n < 0xD800 || 0xE000 <= n < 0x10000 then Some((n as char, s[6..]))
      else None
  }

  /** The characters up to the closing quote. */
  function ParseChars(s: string): (r: Parsed<string>)
    ensures r.Some? ==> |r.value.1| < |s|
    decreases |s|
  {
    if s == "" then None
    else if s[0] == '"' then Some(("", s[1..]))
    else
      var c := ParseChar(s);
      if c.None? then None
      else
        var rest := ParseChars(c.value.1);
        if rest.Some? then Some(([c.value.0] + rest.value.0, rest.value.1)) else None
  }

  function ParseText(s: string): (r: Parsed<string>)
    ensures r.Some? ==> |r.value.1| < |s|
  {
    var open := Expect(s, '"');
    if open.Some? then ParseChars(open.value) else None
  }

  /** How many digits `s` starts with. */
  function DigitRun(s: string): (n: nat)
    ensures n <= |s| && Decimal.AllDigits(s[..n])
    ensures n < |s| ==> !Decimal.IsDigit(s[n])
  {
    if s == "" || !Decimal.IsDigit(s[0]) then 0 else 1 + DigitRun(s[1..])
  }

  /** A number without needless zeros in front. */
  function ParseNat(s: string): (r: Parsed<nat>)
    ensures r.Some? ==> |r.value.1| < |s|
  {
    var n := DigitRun(s);
    if n == 0 then None
    else if s[0] == '0' then Some((0, s[1..]))
    else Some((Decimal.Value(s[..n]), s[n..]))
  }

  function ParseNumber(s: string): (r: Parsed<int>)
    ensures r.Some? ==> |r.value.1| < |s|
  {
    var minus := Expect(s, '-');
    var n := ParseNat(if minus.Some? then minus.value else s);
    if n.None? then None
    else
      var number: int := n.value.0;
      Some((if minus.Some? then -number else number, n.value.1))
  }

  function ParseValue(s: string): Parsed<Value> {
    var t := ParseText(s);
    if t.Some? then Some((Text(t.value.0), t.value.1))
    else
      var n := ParseNumber(s);
      if n.Some? then Some((Number(n.value.0), n.value.1)) else None
  }

  function ParseMember(s: string): Parsed<Member> {
    var key := ParseText(s);
    if key.None? then None
    else
      var colon := Expect(key.value.1, ':');
      if colon.None? then None
      else
        var v := ParseValue(colon.value);
        if v.None? then None else Some(((key.value.0, v.value.0), v.value.1))
  }

  /** What follows a member: the end of the object and of the text, or more members. */
  function ParseRest(s: string): Option<seq<Member>>
    decreases |s|
  {
    if s == "}" then Some([])
    else
      var comma := Expect(s, ',');
      if comma.None? then None
      else
        var m := ParseMember(comma.value);
        if m.None? || |m.value.1| >= |s| then None
        else
          var rest := ParseRest(m.value.1);
          if rest.None? then None else Some([m.value.0] + rest.value)
  }

  function Parse(s: string): Option<seq<Member>> {
    if s == "{}" then Some([])
    else
      var open := Expect(s, '{');
      if open.None? then None
      else
        var m := ParseMember(open.value);
        if m.None? then None
        else
          var rest := ParseRest(m.value.1);
          if rest.None? then None else Some([m.value.0] + rest.value)
  }

  /** `payload.get(key)`: a later member of the same name wins. */
  function Get(ms: seq<Member>, key: string): Option<Value> {
    if ms == [] then None
    else if ms[|ms| - 1].0 == key then Some(ms[|ms| - 1].1)
    else Get(ms[..|ms| - 1], key)
  }

  // -------------------------------------------------------------------- round trip

  lemma UnicodeReads(n: nat, tail: string)
    requires n < 0x10000
    ensures HexAt(Unicode(n) + tail) == Some(n)
    ensures (Unicode(n) + tail)[6..] == tail
  {
    assert Uuids.Pow16(4) == 0x10000;
    Uuids.ValueOfDigits(n, 4);
    assert (Unicode(n) + tail)[2..6] == Uuids.Digits(n, 4);
  }

  /** A printed character reads back, whatever follows. */
  lemma EscapeReads(c: char, tail: string)
    ensures var s := Escape(c) + tail;
            s != "" && s[0] != '"' && ParseChar(s) == Some((c, tail))
  {
    var s := Escape(c) + tail;
    if c as int >= 0x10000 {
      PairReads(c, tail);
    } else if |Escape(c)| == 6 {
      UnicodeReads(c as nat, tail);
      assert s[1] == 'u';
    } else if |Escape(c)| == 2 {
      assert s[2..] == tail;
    } else {
      assert s[1..] == tail;
    }
  }

  lemma PairReads(c: char, tail: string)
    requires c as int >= 0x10000
    ensures var s := Escape(c) + tail;
            s[0] != '"' && ParseChar(s) == Some((c, tail))
  {
    var n := c as nat - 0x10000;
    var (high, low) := (0xD800 + n / 0x400, 0xDC00 + n % 0x400);
    var rest := Unicode(low) + tail;
    assert Escape(c) + tail == Unicode(high) + rest;
    UnicodeReads(high, rest);
    UnicodeReads(low, tail);
    var s := Unicode(high) + rest;
    assert s[0] == '\\' && s[1] == 'u';
    assert s[12..] == s[6..][6..];
  }

  lemma OneMoreChar(c: char, more: string, rest: string, tail: string)
    requires ParseChars(more) == Some((rest, tail))
    ensures ParseChars(Escape(c) + more) == Some(([c] + rest, tail))
  {
    EscapeReads(c, more);
  }

  lemma {:induction false} EscapedReads(t: string, tail: string)
    ensures ParseChars(Escaped(t) + ("\"" + tail)) == Some((t, tail))
  {
    hide Escape, ParseChar;
    var after := "\"" + tail;
    if t == "" {
      assert Escaped(t) + after == after && after[1..] == tail;
    } else {
      EscapedReads(t[1..], tail);
      OneMoreChar(t[0], Escaped(t[1..]) + after, t[1..], tail);
      assert Escaped(t) + after == Escape(t[0]) + (Escaped(t[1..]) + after);
      assert [t[0]] + t[1..] == t;
    }
  }

  lemma TextReads(t: string, tail: string)
    ensures ParseText(PrintText(t) + tail) == Some((t, tail))
  {
    var s := PrintText(t) + tail;
    assert s[1..] == Escaped(t) + ("\"" + tail);
    EscapedReads(t, tail);
  }

  predicate NoDigitFirst(s: string) {
    s == "" || !Decimal.IsDigit(s[0])
  }

  lemma {:induction false} DigitRunIs(d: string, tail: string)
    requires Decimal.AllDigits(d) && NoDigitFirst(tail)
    ensures DigitRun(d + tail) == |d|
  {
    if d == "" {
      assert d + tail == tail;
    } else {
      assert (d + tail)[1..] == d[1..] + tail;
      DigitRunIs(d[1..], tail);
    }
  }

  lemma NatReads(n: nat, tail: string)
    requires NoDigitFirst(tail)
    ensures ParseNat(Decimal.Print(n) + tail) == Some((n, tail))
  {
    var d := Decimal.Print(n);
    var s := d + tail;
    DigitRunIs(d, tail);
    Decimal.ValuePrint(n);
    assert s[..|d|] == d && s[|d|..] == tail;
    assert s[0] == d[0];
    if n > 0 { Decimal.NoLeadingZero(n); }
  }

  lemma NumberReads(n: int, tail: string)
    requires NoDigitFirst(tail)
    ensures ParseNumber(PrintNumber(n) + tail) == Some((n, tail))
    ensures (PrintNumber(n) + tail)[0] != '"'
  {
    var s := PrintNumber(n) + tail;
    if n < 0 {
      NatReads(-n, tail);
      MinusFirst(Decimal.Print(-n), tail);
    } else {
      NatReads(n, tail);
      assert s[0] == Decimal.Print(n)[0];
    }
  }

  lemma MinusFirst(d: string, tail: string)
    ensures Expect("-" + d + tail, '-') == Some(d + tail)
  {
    assert ("-" + d + tail)[1..] == d + tail;
  }

  lemma ValueReads(v: Value, tail: string)
    requires NoDigitFirst(tail)
    ensures ParseValue(PrintValue(v) + tail) == Some((v, tail))
  {
    match v
    case Text(t) => TextReads(t, tail);
    case Number(n) => NumberReads(n, tail);
  }

  lemma MemberReads(m: Member, tail: string)
    requires NoDigitFirst(tail)
    ensures ParseMember(PrintMember(m) + tail) == Some((m, tail))
  {
    hide ParseValue, PrintValue, ParseChars, Escaped;
    var after := ":" + (PrintValue(m.1) + tail);
    assert PrintMember(m) + tail == PrintText(m.0) + after;
    TextReads(m.0, after);
    assert after[1..] == PrintValue(m.1) + tail;
    ValueReads(m.1, tail);
  }

  lemma OneMoreReads(m: Member, tail: string, ms: seq<Member>)
    requires NoDigitFirst(tail) && ParseRest(tail) == Some(ms)
    ensures ParseRest("," + (PrintMember(m) + tail)) == Some([m] + ms)
  {
    var s := "," + (PrintMember(m) + tail);
    assert s[1..] == PrintMember(m) + tail;
    MemberReads(m, tail);
  }

  lemma {:induction false} RestReads(ms: seq<Member>)
    ensures NoDigitFirst(PrintRest(ms)) && ParseRest(PrintRest(ms)) == Some(ms)
  {
    if ms != [] {
      RestReads(ms[1..]);
      OneMoreReads(ms[0], PrintRest(ms[1..]), ms[1..]);
      assert [ms[0]] + ms[1..] == ms;
    }
  }

  lemma ObjectReads(m: Member, tail: string, ms: seq<Member>)
    requires NoDigitFirst(tail) && ParseRest(tail) == Some(ms)
    ensures Parse("{" + (PrintMember(m) + tail)) == Some([m] + ms)
  {
    var s := "{" + (PrintMember(m) + tail);
    assert s[1..] == PrintMember(m) + tail;
    assert s[1] == '"';
    MemberReads(m, tail);
  }

  /** Reading a printed object gives its members back, for all texts and integers. */
  lemma ParsePrint(ms: seq<Member>)
    ensures Parse(Print(ms)) == Some(ms)
  {
    if ms != [] {
      RestReads(ms[1..]);
      ObjectReads(ms[0], PrintRest(ms[1..]), ms[1..]);
      assert [ms[0]] + ms[1..] == ms;
    }
  }

  // ------------------------------------------------------------------------- ASCII

  lemma AsciiJoins(a: string, b: string)
    requires IsAscii(a) && IsAscii(b)
    ensures IsAscii(a + b)
  {}

  lemma EscapeIsAscii(c: char)
    ensures IsAscii(Escape(c))
  {
    assert forall n: nat, i :: 0 <= i < 4 ==> Uuids.IsHexDigit(Uuids.Digits(n, 4)[i]);
  }

  lemma {:induction false} EscapedIsAscii(s: string)
    ensures IsAscii(Escaped(s))
  {
    if s != "" {
      EscapeIsAscii(s[0]);
      EscapedIsAscii(s[1..]);
    }
  }

  lemma MemberIsAscii(m: Member)
    ensures IsAscii(PrintMember(m))
  {
    EscapedIsAscii(m.0);
    AsciiJoins(Escaped(m.0), "\"");
    AsciiJoins("\"", Escaped(m.0) + "\"");
    if m.1.Text? {
      EscapedIsAscii(m.1.text);
      AsciiJoins(Escaped(m.1.text), "\"");
      AsciiJoins("\"", Escaped(m.1.text) + "\"");
    }
    AsciiJoins(":", PrintValue(m.1));
    AsciiJoins(PrintText(m.0), ":" + PrintValue(m.1));
  }

  lemma {:induction false} RestIsAscii(ms: seq<Member>)
    ensures IsAscii(PrintRest(ms))
  {
    if ms != [] {
      MemberIsAscii(ms[0]);
      RestIsAscii(ms[1..]);
      AsciiJoins(PrintMember(ms[0]), PrintRest(ms[1..]));
    }
  }

  /** Only ASCII is written, whatever the texts contain. */
  lemma PrintIsAscii(ms: seq<Member>)
    ensures IsAscii(Print(ms))
  {
    if ms != [] {
      MemberIsAscii(ms[0]);
      RestIsAscii(ms[1..]);
      AsciiJoins(PrintMember(ms[0]), PrintRest(ms[1..]));
    }
  }
}
