/** Unpadded base64url (section 5 of RFC 4648), with Python's permissive decoder. */
module Base64Url {
  import opened Common

  type Byte = n: nat | n < 256

  function Symbol(v: nat): char
    requires v < 64
  {
    if v < 26 then 'A' + v as char
    else if v < 52 then 'a' + (v - 26) as char
    else if v < 62 then '0' + (v - 52) as char
    else if v == 62 then '-' else '_'
  }

  /** The decoder's table; it still knows the symbols of plain base64. */
  function SymbolValue(c: char): Option<nat> {
    if 'A' <= c <= 'Z' then Some(c as nat - 'A' as nat)
    else if 'a' <= c <= 'z' then Some(c as nat - 'a' as nat + 26)
    else if '0' <= c <= '9' then Some(c as nat - '0' as nat + 52)
    else if c == '-' || c == '+' then Some(62)
    else if c == '_' || c == '/' then Some(63)
    else None
  }

  predicate InAlphabet(c: char) {
    'A' <= c <= 'Z' || 'a' <= c <= 'z' || '0' <= c <= '9' || c == '-' || c == '_'
  }

  lemma SymbolRoundTrip(v: nat)
    requires v < 64
    ensures InAlphabet(Symbol(v)) && SymbolValue(Symbol(v)) == Some(v)
  {}

  // ---------------------------------------------------------------------- encoding

  /** The symbols that carry one group of three bytes, or the last one or two bytes. */
  function Quantum(b: seq<Byte>): string
    requires 1 <= |b| <= 3
  {
    if |b| == 3 then
      [Symbol(b[0] / 4), Symbol(b[0] % 4 * 16 + b[1] / 16), Symbol(b[1] % 16 * 4 + b[2] / 64), Symbol(b[2] % 64)]
    else if |b| == 2 then
      [Symbol(b[0] / 4), Symbol(b[0] % 4 * 16 + b[1] / 16), Symbol(b[1] % 16 * 4)]
    else
      [Symbol(b[0] / 4), Symbol(b[0] % 4 * 16)]
  }

  /** `base64.urlsafe_b64encode`. */
  function Padded(b: seq<Byte>): string {
    if b == [] then ""
    else if |b| == 1 then Quantum(b) + "=="
    else if |b| == 2 then Quantum(b) + "="
    else Quantum(b[..3]) + Padded(b[3..])
  }

  /** `rstrip("=")`. */
  function StripPadding(s: string): string {
    if s != "" && s[|s| - 1] == '=' then StripPadding(s[..|s| - 1]) else s
  }

  /** `_b64encode`. */
  function Encode(b: seq<Byte>): string {
    StripPadding(Padded(b))
  }

  // ---------------------------------------------------------------------- decoding

  /** `"=" * (-len(text) % 4)`. */
  function Padding(n: nat): (s: string)
    ensures |s| < 4 && (n + |s|) % 4 == 0
  {
    if n % 4 == 0 then "" else if n % 4 == 1 then "===" else if n % 4 == 2 then "==" else "="
  }

  /**
    The bytes `binascii.a2b_base64` still reads from `s`: `quad` symbols of the current
    group are in, `left` holds their bits not yet given out and `pads` counts the padding
    since. Foreign characters are skipped, enough padding ends the text, and a group left
    open is an error.
   */
  function Scan(s: string, quad: nat, left: nat, pads: nat): Option<seq<Byte>>
    requires quad < 4 && left < 64
    decreases |s|
  {
    if s == "" then if quad == 0 then Some([]) else None
    else if s[0] == '=' then
      if quad >= 2 && quad + pads + 1 >= 4 then Some([])
      else Scan(s[1..], quad, left, if quad >= 2 then pads + 1 else pads)
    else
      var v := SymbolValue(s[0]);
      if v.None? then Scan(s[1..], quad, left, pads)
      else if quad == 0 then Scan(s[1..], 1, v.value, 0)
      else if quad == 1 then Give(left * 4 + v.value / 16, Scan(s[1..], 2, v.value % 16, 0))
      else if quad == 2 then Give(left % 16 * 16 + v.value / 4, Scan(s[1..], 3, v.value % 4, 0))
      else Give(left % 4 * 64 + v.value, Scan(s[1..], 0, 0, 0))
  }

  function Give(b: nat, rest: Option<seq<Byte>>): Option<seq<Byte>>
    requires b < 256
  {
    if rest.Some? then Some([b] + rest.value) else None
  }

  /** `_b64decode`: only characters outside ASCII and open groups are refused. */
  function Decode(text: string): Option<seq<Byte>> {
    if IsAscii(text) then Scan(text + Padding(|text|), 0, 0, 0) else None
  }

  // -------------------------------------------------------------------- round trip

  /** One symbol of the encoder moves the decoder on by one place in its group. */
  lemma SymbolScans(v: nat, rest: string, quad: nat, left: nat, pads: nat)
    requires v < 64 && quad < 4 && left < 64
    ensures Scan([Symbol(v)] + rest, quad, left, pads) ==
            if quad == 0 then Scan(rest, 1, v, 0)
            else if quad == 1 then Give(left * 4 + v / 16, Scan(rest, 2, v % 16, 0))
            else if quad == 2 then Give(left % 16 * 16 + v / 4, Scan(rest, 3, v % 4, 0))
            else Give(left % 4 * 64 + v, Scan(rest, 0, 0, 0))
  {
    SymbolRoundTrip(v);
    assert ([Symbol(v)] + rest)[1..] == rest;
  }

  lemma FirstTwoScan(v0: nat, v1: nat, rest: string)
    requires v0 < 64 && v1 < 64
    ensures Scan([Symbol(v0)] + ([Symbol(v1)] + rest), 0, 0, 0) == Give(v0 * 4 + v1 / 16, Scan(rest, 2, v1 % 16, 0))
  {
    SymbolScans(v0, [Symbol(v1)] + rest, 0, 0, 0);
    SymbolScans(v1, rest, 1, v0, 0);
  }

  lemma LastTwoScan(left: nat, v2: nat, v3: nat, rest: string)
    requires left < 16 && v2 < 64 && v3 < 64
    ensures Scan([Symbol(v2)] + ([Symbol(v3)] + rest), 2, left, 0) ==
            Give(left * 16 + v2 / 4, Give(v2 % 4 * 64 + v3, Scan(rest, 0, 0, 0)))
  {
    SymbolScans(v2, [Symbol(v3)] + rest, 2, left, 0);
    SymbolScans(v3, rest, 3, v2 % 4, 0);
  }

  lemma FourSymbolsScan(v0: nat, v1: nat, v2: nat, v3: nat, rest: string)
    requires v0 < 64 && v1 < 64 && v2 < 64 && v3 < 64
    ensures Scan([Symbol(v0), Symbol(v1), Symbol(v2), Symbol(v3)] + rest, 0, 0, 0) ==
            Give(v0 * 4 + v1 / 16, Give(v1 % 16 * 16 + v2 / 4, Give(v2 % 4 * 64 + v3, Scan(rest, 0, 0, 0))))
  {
    var half := [Symbol(v2)] + ([Symbol(v3)] + rest);
    FirstTwoScan(v0, v1, half);
    LastTwoScan(v1 % 16, v2, v3, rest);
    FourInTwos(Symbol(v0), Symbol(v1), Symbol(v2), Symbol(v3), rest);
  }

  lemma FourInTwos(c0: char, c1: char, c2: char, c3: char, rest: string)
    ensures [c0, c1, c2, c3] + rest == [c0] + ([c1] + ([c2] + ([c3] + rest)))
  {}

  lemma ThreeBytesScan(b: seq<Byte>, rest: string)
    requires |b| == 3
    ensures Scan(Quantum(b) + rest, 0, 0, 0) == Give(b[0], Give(b[1], Give(b[2], Scan(rest, 0, 0, 0))))
  {
    var (v0, v1) := (b[0] / 4, b[0] % 4 * 16 + b[1] / 16);
    var (v2, v3) := (b[1] % 16 * 4 + b[2] / 64, b[2] % 64);
    FourSymbolsScan(v0, v1, v2, v3, rest);
    assert v1 / 16 == b[0] % 4 && v1 % 16 == b[1] / 16;
    assert v2 / 4 == b[1] % 16 && v2 % 4 == b[2] / 64;
  }

  lemma LastSymbolScans(left: nat, v: nat)
    requires left < 16 && v < 64
    ensures Scan([Symbol(v)] + "=", 2, left, 0) == Some([left * 16 + v / 4])
  {
    SymbolScans(v, "=", 2, left, 0);
    assert Scan("=", 3, v % 4, 0) == Some([]);
    assert [left * 16 + v / 4] + [] == [left * 16 + v / 4];
  }

  lemma GiveTwo(a: Byte, b: Byte)
    ensures Give(a, Some([b])) == Some([a, b])
  {
    assert [a] + [b] == [a, b];
  }

  lemma ThreeSymbolsScan(v0: nat, v1: nat, v2: nat)
    requires v0 < 64 && v1 < 64 && v2 < 64
    ensures Scan([Symbol(v0), Symbol(v1), Symbol(v2)] + "=", 0, 0, 0) ==
            Some([v0 * 4 + v1 / 16, v1 % 16 * 16 + v2 / 4])
  {
    FirstTwoScan(v0, v1, [Symbol(v2)] + "=");
    LastSymbolScans(v1 % 16, v2);
    ThreeInOnes(Symbol(v0), Symbol(v1), Symbol(v2), "=");
    GiveTwo(v0 * 4 + v1 / 16, v1 % 16 * 16 + v2 / 4);
  }

  lemma ThreeInOnes(c0: char, c1: char, c2: char, rest: string)
    ensures [c0, c1, c2] + rest == [c0] + ([c1] + ([c2] + rest))
  {}

  lemma TwoBytesScan(b: seq<Byte>)
    requires |b| == 2
    ensures Scan(Quantum(b) + "=", 0, 0, 0) == Some(b)
  {
    var (v0, v1, v2) := (b[0] / 4, b[0] % 4 * 16 + b[1] / 16, b[1] % 16 * 4);
    ThreeSymbolsScan(v0, v1, v2);
    assert [v0 * 4 + v1 / 16, v1 % 16 * 16 + v2 / 4] == b;
  }

  lemma OneByteScans(b: seq<Byte>)
    requires |b| == 1
    ensures Scan(Quantum(b) + "==", 0, 0, 0) == Some(b)
  {
    var (v0, v1) := (b[0] / 4, b[0] % 4 * 16);
    var s1 := [Symbol(v1)] + "==";
    assert Quantum(b) + "==" == [Symbol(v0)] + s1;
    SymbolScans(v0, s1, 0, 0, 0);
    SymbolScans(v1, "==", 1, v0, 0);
    assert "=="[1..] == "=";
    assert [b[0]] + [] == b;
  }

  lemma {:induction false} PaddedScans(b: seq<Byte>)
    ensures Scan(Padded(b), 0, 0, 0) == Some(b)
  {
    if |b| == 1 {
      OneByteScans(b);
    } else if |b| == 2 {
      TwoBytesScan(b);
    } else if |b| >= 3 {
      ThreeBytesScan(b[..3], Padded(b[3..]));
      PaddedScans(b[3..]);
      assert [b[0]] + ([b[1]] + ([b[2]] + b[3..])) == b;
    }
  }

  predicate AllInAlphabet(s: string) {
    forall i :: 0 <= i < |s| ==> InAlphabet(s[i])
  }

  /** What is left of the padded text when its padding is gone. */
  function Unpadded(b: seq<Byte>): string {
    if b == [] then "" else if |b| <= 2 then Quantum(b) else Quantum(b[..3]) + Unpadded(b[3..])
  }

  lemma QuantumInAlphabet(b: seq<Byte>)
    requires 1 <= |b| <= 3
    ensures AllInAlphabet(Quantum(b)) && |Quantum(b)| == |b| + 1
  {}

  lemma {:induction false} UnpaddedLength(b: seq<Byte>)
    ensures |Unpadded(b)| == (4 * |b| + 2) / 3
  {
    if |b| >= 3 { UnpaddedLength(b[3..]); }
  }

  lemma JoinQuantum(q: string, rest: string)
    requires AllInAlphabet(q) && |q| == 4 && AllInAlphabet(rest)
    ensures AllInAlphabet(q + rest)
    ensures q + (rest + Padding(|rest|)) == q + rest + Padding(|q + rest|)
  {
    assert Padding(|q + rest|) == Padding(|rest|);
  }

  lemma {:induction false} PaddedIs(b: seq<Byte>)
    ensures AllInAlphabet(Unpadded(b))
    ensures Padded(b) == Unpadded(b) + Padding(|Unpadded(b)|)
  {
    if |b| >= 3 {
      var q, rest := Quantum(b[..3]), Unpadded(b[3..]);
      PaddedIs(b[3..]);
      QuantumInAlphabet(b[..3]);
      JoinQuantum(q, rest);
    } else if b != [] {
      QuantumInAlphabet(b);
    }
  }

  lemma {:induction false} StripAll(s: string, pad: string)
    requires AllInAlphabet(s)
    requires forall i :: 0 <= i < |pad| ==> pad[i] == '='
    ensures StripPadding(s + pad) == s
  {
    if pad == "" {
      assert s + pad == s;
    } else {
      assert (s + pad)[..|s + pad| - 1] == s + pad[..|pad| - 1];
      StripAll(s, pad[..|pad| - 1]);
    }
  }

  /** Stripping takes away exactly the padding. */
  lemma EncodeIs(b: seq<Byte>)
    ensures Encode(b) == Unpadded(b)
  {
    PaddedIs(b);
    StripAll(Unpadded(b), Padding(|Unpadded(b)|));
  }

  /** The encoder uses only the URL-safe alphabet, in particular neither a dot nor '='. */
  lemma EncodeUsesAlphabet(b: seq<Byte>)
    ensures AllInAlphabet(Encode(b)) && '.' !in Encode(b) && '=' !in Encode(b) && IsAscii(Encode(b))
    ensures |Encode(b)| == (4 * |b| + 2) / 3
    ensures Encode(b) + Padding(|Encode(b)|) == Padded(b)
  {
    EncodeIs(b);
    PaddedIs(b);
    UnpaddedLength(b);
    AlphabetExcludes(Unpadded(b));
  }

  lemma AlphabetExcludes(s: string)
    requires AllInAlphabet(s)
    ensures '.' !in s && '=' !in s && IsAscii(s)
  {}

  /** Decoding undoes encoding for every byte string. */
  lemma RoundTrip(b: seq<Byte>)
    ensures Decode(Encode(b)) == Some(b)
  {
    EncodeUsesAlphabet(b);
    PaddedScans(b);
  }
}
