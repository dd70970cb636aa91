/** UUIDs, their canonical text and the tenant schema names made from it. */
module Uuids {
  import opened Common
  import SharedPool

  /** One lower-case hexadecimal digit. */
  function HexDigit(d: nat): (c: char)
    requires d < 16
    ensures IsHexDigit(c) && HexValue(c) == Some(d)
  {
    if d < 10 then '0' + d as char else 'a' + (d - 10) as char
  }

  predicate IsHexDigit(c: char) {
    '0' <= c <= '9' || 'a' <= c <= 'f'
  }

  function Pow16(k: nat): (p: nat)
    ensures p >= 1
  {
    if k == 0 then 1 else 16 * Pow16(k - 1)
  }

  /** The 128-bit value of a UUID. */
  type Uuid = n: nat | n < 0x1_0000_0000_0000_0000_0000_0000_0000_0000 witness 0

  /** The last `k` lower-case hexadecimal digits of `n`, most significant first. */
  function Digits(n: nat, k: nat): (s: string)
    ensures |s| == k
    ensures forall i :: 0 <= i < k ==> IsHexDigit(s[i])
  {
    if k == 0 then "" else Digits(n / 16, k - 1) + [HexDigit(n % 16)]
  }

  /** `str(uuid)`: 8-4-4-4-12 digits. */
  function Text(u: nat): string {
    var d := Digits(u, 32);
    d[..8] + ("-" + (d[8..12] + ("-" + (d[12..16] + ("-" + (d[16..20] + ("-" + d[20..])))))))
  }

  /** `s.replace('-', '')`. */
  function WithoutDashes(s: string): string {
    if s == "" then ""
    else if s[0] == '-' then WithoutDashes(s[1..])
    else [s[0]] + WithoutDashes(s[1..])
  }

  /** `Wholesaler.get_tenant_schema`. */
  function TenantSchema(u: nat): string {
    "t_" + WithoutDashes(Text(u))
  }

  function HexValue(c: char): Option<nat> {
    if '0' <= c <= '9' then Some(c as nat - '0' as nat)
    else if 'a' <= c <= 'f' then Some(c as nat - 'a' as nat + 10)
    else if 'A' <= c <= 'F' then Some(c as nat - 'A' as nat + 10)
    else None
  }

  function ValueOf(s: string): Option<nat> {
    if s == "" then Some(0)
    else
      var v, d := ValueOf(s[..|s| - 1]), HexValue(s[|s| - 1]);
      if v.Some? && d.Some? then Some(16 * v.value + d.value) else None
  }

  /** `uuid.UUID(text)` for texts of hexadecimal digits and dashes. */
  function Parse(s: string): Option<nat> {
    var d := WithoutDashes(s);
    if |d| == 32 then ValueOf(d) else None
  }

  lemma {:induction false} NoDashesKept(s: string)
    requires forall i :: 0 <= i < |s| ==> s[i] != '-'
    ensures WithoutDashes(s) == s
  {
    if s != "" {
      NoDashesKept(s[1..]);
      assert s == [s[0]] + s[1..];
    }
  }

  lemma {:induction false} ValueOfDigits(n: nat, k: nat)
    requires n < Pow16(k)
    ensures ValueOf(Digits(n, k)) == Some(n)
  {
    if k > 0 {
      ValueOfDigits(n / 16, k - 1);
      ValueOfSnoc(Digits(n / 16, k - 1), HexDigit(n % 16));
    }
  }

  lemma ValueOfSnoc(s: string, c: char)
    ensures ValueOf(s + [c]) ==
            if ValueOf(s).Some? && HexValue(c).Some? then Some(16 * ValueOf(s).value + HexValue(c).value) else None
  {
    assert (s + [c])[..|s|] == s;
  }

  /** A dash after a group of digits disappears. */
  lemma {:induction false} GroupThenDash(group: string, rest: string)
    requires forall i :: 0 <= i < |group| ==> group[i] != '-'
    ensures WithoutDashes(group + ("-" + rest)) == group + WithoutDashes(rest)
  {
    if group == "" {
      assert group + ("-" + rest) == "-" + rest;
      assert ("-" + rest)[1..] == rest;
    } else {
      var s := group + ("-" + rest);
      assert s[0] == group[0] && s[1..] == group[1..] + ("-" + rest);
      GroupThenDash(group[1..], rest);
      assert [group[0]] + (group[1..] + WithoutDashes(rest)) == group + WithoutDashes(rest);
    }
  }

  lemma TextWithoutDashes(u: nat)
    ensures WithoutDashes(Text(u)) == Digits(u, 32)
  {
    var d := Digits(u, 32);
    var tail4 := d[20..];
    NoDashesKept(tail4);
    var tail3 := d[16..20] + ("-" + tail4);
    GroupThenDash(d[16..20], tail4);
    var tail2 := d[12..16] + ("-" + tail3);
    GroupThenDash(d[12..16], tail3);
    var tail1 := d[8..12] + ("-" + tail2);
    GroupThenDash(d[8..12], tail2);
    GroupThenDash(d[..8], tail1);
    assert d[16..20] + tail4 == d[16..];
    assert d[12..16] + d[16..] == d[12..];
    assert d[8..12] + d[12..] == d[8..];
    assert d[..8] + d[8..] == d;
  }

  lemma Pow16Adds(j: nat, k: nat)
    ensures Pow16(j + k) == Pow16(j) * Pow16(k)
  {
    if j > 0 { Pow16Adds(j - 1, k); }
  }

  /** 32 hexadecimal digits make 128 bits. */
  lemma UuidWidth()
    ensures Pow16(32) == 0x1_0000_0000_0000_0000_0000_0000_0000_0000
  {
    var p8 := 0x1_0000_0000;
    assert Pow16(8) == p8;
    Pow16Adds(8, 8);
    Pow16Adds(16, 16);
  }

  /** Parsing the canonical text gives the UUID back. */
  lemma ParseText(u: Uuid)
    ensures Parse(Text(u)) == Some(u)
  {
    TextWithoutDashes(u);
    UuidWidth();
    ValueOfDigits(u, 32);
  }

  /** The same digit, perhaps in the other letter case. */
  predicate SameDigit(c: char, d: char) {
    c == d || ('a' <= c <= 'z' && d == c - 'a' + 'A') || ('a' <= d <= 'z' && c == d - 'a' + 'A')
  }

  predicate SameDigits(s: string, t: string) {
    |s| == |t| && forall i :: 0 <= i < |s| ==> SameDigit(s[i], t[i])
  }

  lemma {:induction false} DashesAreSame(s: string, t: string)
    requires SameDigits(s, t)
    ensures SameDigits(WithoutDashes(s), WithoutDashes(t))
  {
    if s != "" {
      assert SameDigits(s[1..], t[1..]);
      DashesAreSame(s[1..], t[1..]);
    }
  }

  lemma SameValue(c: char, d: char)
    requires SameDigit(c, d)
    ensures HexValue(c) == HexValue(d)
  {}

  lemma {:induction false} ValuesAreSame(s: string, t: string)
    requires SameDigits(s, t)
    ensures ValueOf(s) == ValueOf(t)
  {
    if s != "" {
      ValuesAreSame(s[..|s| - 1], t[..|t| - 1]);
      SameValue(s[|s| - 1], t[|t| - 1]);
    }
  }

  /** Letter case does not matter to the parser. */
  lemma ParseIgnoresCase(s: string, t: string)
    requires SameDigits(s, t)
    ensures Parse(s) == Parse(t)
  {
    DashesAreSame(s, t);
    ValuesAreSame(WithoutDashes(s), WithoutDashes(t));
  }

  /** Different wholesalers never share a tenant schema. */
  lemma SchemasAreDistinct(u: Uuid, v: Uuid)
    ensures TenantSchema(u) == TenantSchema(v) <==> u == v
  {
    ParseText(u);
    ParseText(v);
    assert TenantSchema(u)[2..] == WithoutDashes(Text(u));
    assert TenantSchema(v)[2..] == WithoutDashes(Text(v));
  }

  /** Every tenant schema name is a plain identifier, so it passes `validate_identifier`. */
  lemma SchemaIsSafeIdentifier(u: nat)
    ensures SharedPool.PlainIdentifier(TenantSchema(u)) && SharedPool.SafeIdentifier(TenantSchema(u))
  {
    TextWithoutDashes(u);
    var s, d := TenantSchema(u), Digits(u, 32);
    forall i | 0 < i < |s| ensures SharedPool.IsIdentifierChar(s[i], false) {
      if i >= 2 {
        assert s[i] == d[i - 2];
        assert IsHexDigit(d[i - 2]);
      }
    }
  }

  predicate Letter(c: char) {
    'a' <= c <= 'z' || 'A' <= c <= 'Z' || c == '_'
  }

  /** Identifiers are the texts that start with a letter or an underscore and grow by letters,
      underscores and digits to at most 63 characters. */
  lemma IdentifiersGrow(name: string, c: char)
    ensures !SharedPool.PlainIdentifier("")
    ensures SharedPool.PlainIdentifier([c]) <==> Letter(c)
    ensures name != "" ==>
              (SharedPool.PlainIdentifier(name + [c]) <==>
               SharedPool.PlainIdentifier(name) && |name| < 63 && (Letter(c) || '0' <= c <= '9'))
  {
    if name != "" {
      var more := name + [c];
      assert more[|name|] == c && forall i :: 0 <= i < |name| ==> more[i] == name[i];
    }
  }

  /** The identifier check accepts more than identifiers: each of them with one line feed
      behind it, and nothing else. */
  lemma OnlyALineFeedMore(name: string)
    ensures SharedPool.SafeIdentifier(name) && !SharedPool.PlainIdentifier(name) <==>
            exists plain: string :: SharedPool.PlainIdentifier(plain) && name == plain + "\n"
  {
    if SharedPool.SafeIdentifier(name) && !SharedPool.PlainIdentifier(name) {
      var plain := name[..|name| - 1];
      assert SharedPool.PlainIdentifier(plain) && name == plain + "\n";
    }
    forall plain: string | SharedPool.PlainIdentifier(plain) && name == plain + "\n"
      ensures SharedPool.SafeIdentifier(name) && !SharedPool.PlainIdentifier(name)
    {
      assert name[..|name| - 1] == plain;
      assert !SharedPool.IsIdentifierChar(name[|name| - 1], false);
    }
  }
}
