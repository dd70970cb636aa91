/**
  What an issued join intent is good for, in seconds and bytes: how long it is accepted, and
  what its signature covers.
 */
module IntentLifetime {
  import opened JoinIntent
  import opened Joined
  import opened Common
  import Base64Url
  import FlatJson
  import Uuids

  // ---------------------------------------------------------------------- lifetime

  /** The second that microsecond `t` lies in, counted towards 1970. */
  function WholeSecond(t: int): int {
    if t < 0 then -((-t) / 1000000) else t / 1000000
  }

  lemma IssueSays(key: Key, ws: Uuids.Uuid, code: string, ttl: int, issued: Instant, jti: string)
    ensures var end := issued.micros + 1000000 * ttl;
            var answer := Issue(key, ws, code, ttl, issued, jti);
            && (answer.Some? <==> -62135596800000000 <= end < 253402300800000000)
            && (answer.Some? ==> answer.value.expiresAt == Instant(end)
                                 && Seconds(answer.value.expiresAt) == WholeSecond(end))
  {}

  /** An intent issued at one time for `ttl` seconds, for all times and lifetimes: it is issued
      if and only if it ends within the years 1 to 9999, ends exactly `ttl` seconds later, and
      is accepted before the second of its end and never after, for exactly the supplier and
      the code it was issued for. */
  lemma AcceptedExactlyWhile(key: Key, ws: Uuids.Uuid, code: string, ttl: int, issued: Instant, jti: string,
                             now: Instant)
    ensures var end := issued.micros + 1000000 * ttl;
            var issuedIntent := Issue(key, ws, code, ttl, issued, jti);
            && (issuedIntent.Some? <==> -62135596800000000 <= end < 253402300800000000)
            && (issuedIntent.Some? ==>
                  var answer := Verify(key, issuedIntent.value.intent, now);
                  && issuedIntent.value.expiresAt.micros - issued.micros == 1000000 * ttl
                  && (answer.Some? <==> now.micros < 1000000 * WholeSecond(end))
                  && (answer.Some? ==> && answer.value.wholesalerId == ws && answer.value.wholesalerCode == code
                                       && answer.value.expiresAt.micros == 1000000 * WholeSecond(end)))
  {
    hide Issue, Verify, Seconds, WholeSecond, Plus;
    IssueSays(key, ws, code, ttl, issued, jti);
    if Issue(key, ws, code, ttl, issued, jti).Some? {
      VerifyIssued(key, ws, code, ttl, issued, jti, now);
    }
  }

  // --------------------------------------------------------------------- signature

  const DOMAIN: string := "join_intent:v1"

  /** Each character as one byte. */
  predicate AreBytesOf(b: Bytes, s: string) {
    |b| == |s| && forall i :: 0 <= i < |s| ==> b[i] as int == s[i] as int
  }

  lemma AsciiIsBytes(s: string)
    requires IsAscii(s)
    ensures AreBytesOf(AsciiBytes(s), s)
  {}

  lemma EncodedIsAscii(b: Bytes)
    ensures IsAscii(Base64Url.Encode(b))
  {
    Base64Url.EncodeUsesAlphabet(b);
  }

  lemma DomainIsAscii()
    ensures KEY_DOMAIN == DOMAIN && IsAscii(DOMAIN)
  {
    assert KEY_DOMAIN == DOMAIN;
    assert forall i :: 0 <= i < |DOMAIN| ==> DOMAIN[i] as int < 128;
  }

  /** An issued intent is the payload, a dot, and the hash of the payload text under a key
      that is itself the hash of the domain text under the server's secret. */
  lemma WhatIsSigned(key: Key, c: Claims) returns (domain: Bytes, payload: Bytes)
    ensures AreBytesOf(domain, DOMAIN) && AreBytesOf(payload, PayloadText(c))
    ensures SplitOnce(SignedIntent(key, c), '.') ==
            Some((PayloadText(c), Base64Url.Encode(key.hmac(key.hmac(key.secret, domain), payload))))
  {
    domain, payload := AsciiBytes(KEY_DOMAIN), AsciiBytes(PayloadText(c));
    DomainIsAscii();
    AsciiIsBytes(KEY_DOMAIN);
    EncodedIsAscii(AsciiBytes(Json(c)));
    AsciiIsBytes(PayloadText(c));
    PayloadHasNoDot(c);
    SplitOnceJoined(PayloadText(c), Base64Url.Encode(Mac(key, PayloadText(c))), '.');
  }

  /** No two messages have the same hash under one key. */
  ghost predicate Injective(key: Key) {
    forall k, a, b :: key.hmac(k, a) == key.hmac(k, b) ==> a == b
  }

  lemma BytesTell(a: string, b: string)
    requires IsAscii(a) && IsAscii(b) && AsciiBytes(a) == AsciiBytes(b)
    ensures a == b
  {
    TextOfAscii(a);
    TextOfAscii(b);
  }

  /** The signature covers the whole payload: put before another payload, the signature of
      an issued one is refused, whatever differs: supplier, code, expiry or nonce. */
  lemma SignatureIsNotTransferable(key: Key, c: Claims, d: Claims, now: Instant)
    requires Injective(key) && c != d && -62135596800 <= d.exp <= 253402300799
    ensures SplitOnce(SignedIntent(key, c), '.').Some?
    ensures Verify(key, PayloadText(d) + ['.'] + SplitOnce(SignedIntent(key, c), '.').value.1, now).None?
  {
    hide Verify, SignedIntent, PayloadText, AsciiBytes;
    var (p, q) := (PayloadText(c), PayloadText(d));
    SignedSplits(key, c);
    var signature := Base64Url.Encode(Mac(key, p));
    AnySignature(key, d, signature, now);
    Base64Url.RoundTrip(Mac(key, p));
    if Mac(key, p) == Mac(key, q) {
      assert AsciiBytes(p) == AsciiBytes(q);
      PayloadIsAscii(c);
      PayloadIsAscii(d);
      BytesTell(p, q);
      IntentsAreUnambiguous(c, d, "", "");
    }
  }

  lemma PayloadIsAscii(c: Claims)
    ensures IsAscii(PayloadText(c))
  {
    EncodedIsAscii(AsciiBytes(Json(c)));
  }

  lemma SignedSplits(key: Key, c: Claims)
    ensures SplitOnce(SignedIntent(key, c), '.') == Some((PayloadText(c), Base64Url.Encode(Mac(key, PayloadText(c)))))
  {
    PayloadHasNoDot(c);
    SplitOnceJoined(PayloadText(c), Base64Url.Encode(Mac(key, PayloadText(c))), '.');
  }

  // ---------------------------------------------------------------- any signed object

  /** The server's signature on these members, whatever they are. */
  function SignedMembers(key: Key, ms: seq<FlatJson.Member>): string {
    var payload := Base64Url.Encode(AsciiBytes(FlatJson.Print(ms)));
    payload + ['.'] + Base64Url.Encode(Mac(key, payload))
  }

  /** The members that a verifier needs: version 1, a future second, a supplier and a code. */
  predicate Complete(ms: seq<FlatJson.Member>, now: Instant) {
    && FlatJson.Get(ms, "v") == Some(FlatJson.Number(1))
    && (var exp := FlatJson.Get(ms, "exp");
        exp.Some? && exp.value.Number? && -62135596800 <= exp.value.number <= 253402300799
        && now.micros < 1000000 * exp.value.number)
    && (var ws := FlatJson.Get(ms, "ws"); ws.Some? && ws.value.Text? && Uuids.Parse(ws.value.text).Some?)
    && FlatJson.Get(ms, "code").Some?
  }

  /** Bytes are read as text if and only if all of them are ASCII, and then one by one. */
  lemma AsciiIsRead(b: Bytes)
    ensures AsciiText(b).Some? <==> forall x :: x in b ==> x < 128
    ensures AsciiText(b).Some? ==> AreBytesOf(b, AsciiText(b).value)
  {
    if i :| 0 <= i < |b| && b[i] >= 128 {
      assert b[i] in b;
    } else {
      assert forall x :: x in b ==> x < 128;
    }
  }

  /** A payload with a byte outside ASCII is refused, whatever its signature. */
  lemma OtherBytesAreRefused(key: Key, b: Bytes, signatureText: string, now: Instant)
    requires exists x :: x in b && x >= 128
    ensures Verify(key, Base64Url.Encode(b) + ['.'] + signatureText, now).None?
  {
    hide AsciiText, AsciiBytes;
    AsciiIsRead(b);
    Base64Url.EncodeUsesAlphabet(b);
    SplitOnceJoined(Base64Url.Encode(b), signatureText, '.');
    Base64Url.RoundTrip(b);
  }

  /** Even with the right signature, an object is accepted only if it is complete. */
  lemma SignedIsNotEnough(key: Key, ms: seq<FlatJson.Member>, now: Instant)
    ensures Verify(key, SignedMembers(key, ms), now).Some? <==> Complete(ms, now)
  {
    hide FlatJson.Print, FlatJson.Parse, FlatJson.Get, Base64Url.Encode, Base64Url.Decode, SplitOnce, Mac;
    hide AsciiBytes, AsciiText, Uuids.Parse;
    var bytes := AsciiBytes(FlatJson.Print(ms));
    var payload := Base64Url.Encode(bytes);
    Base64Url.EncodeUsesAlphabet(bytes);
    SplitOnceJoined(payload, Base64Url.Encode(Mac(key, payload)), '.');
    Base64Url.RoundTrip(bytes);
    Base64Url.RoundTrip(Mac(key, payload));
    FlatJson.PrintIsAscii(ms);
    TextOfAscii(FlatJson.Print(ms));
    FlatJson.ParsePrint(ms);
  }

  // ------------------------------------------------------------------- the payload's text

  /** Characters that JSON writes as they are. */
  predicate Plain(s: string) {
    forall i :: 0 <= i < |s| ==> ' ' <= s[i] <= '~' && s[i] != '"' && s[i] != '\\'
  }

  lemma {:induction false} PlainStays(s: string)
    requires Plain(s)
    ensures FlatJson.Escaped(s) == s
  {
    if s != "" {
      PlainStays(s[1..]);
      assert s == [s[0]] + s[1..];
    }
  }

  lemma PlainMember(name: string, v: FlatJson.Value)
    requires Plain(name)
    ensures FlatJson.PrintMember((name, v)) == "\"" + name + "\":" + FlatJson.PrintValue(v)
  {
    PlainStays(name);
  }

  lemma UuidIsPlain(u: Uuids.Uuid)
    ensures Plain(Uuids.Text(u))
  {
    var (d, t) := (Uuids.Digits(u, 32), Uuids.Text(u));
    forall i | 0 <= i < |t| ensures Uuids.IsHexDigit(t[i]) || t[i] == '-' {
      assert |t| == 36;
      if i < 8 { assert t[i] == d[i]; }
      else if 8 < i < 13 { assert t[i] == d[i - 1]; }
      else if 13 < i < 18 { assert t[i] == d[i - 2]; }
      else if 18 < i < 23 { assert t[i] == d[i - 3]; }
      else if 23 < i { assert t[i] == d[i - 4]; }
    }
  }

  lemma OneMember(m: FlatJson.Member, rest: seq<FlatJson.Member>)
    ensures FlatJson.PrintRest([m] + rest) == "," + FlatJson.PrintMember(m) + FlatJson.PrintRest(rest)
    ensures FlatJson.Print([m] + rest) == "{" + FlatJson.PrintMember(m) + FlatJson.PrintRest(rest)
  {
    hide FlatJson.PrintMember;
    assert ([m] + rest)[1..] == rest;
  }

  lemma FiveMembers(a: FlatJson.Member, b: FlatJson.Member, c: FlatJson.Member, d: FlatJson.Member, e: FlatJson.Member)
    ensures FlatJson.Print([a, b, c, d, e]) ==
            "{" + FlatJson.PrintMember(a) + "," + FlatJson.PrintMember(b) + "," + FlatJson.PrintMember(c) + ","
            + FlatJson.PrintMember(d) + "," + FlatJson.PrintMember(e) + "}"
  {
    hide FlatJson.PrintMember, FlatJson.Print, FlatJson.PrintRest;
    assert [a] + [b, c, d, e] == [a, b, c, d, e] && [b] + [c, d, e] == [b, c, d, e];
    assert [c] + [d, e] == [c, d, e] && [d] + [e] == [d, e] && [e] + [] == [e];
    OneMember(a, [b, c, d, e]);
    OneMember(b, [c, d, e]);
    OneMember(c, [d, e]);
    OneMember(d, [e]);
    OneMember(e, []);
    NoMember();
  }

  lemma NoMember()
    ensures FlatJson.PrintRest([]) == "}"
  {}

  lemma VersionIs()
    ensures FlatJson.PrintNumber(1) == "1"
  {}

  lemma TextValue(s: string)
    ensures FlatJson.PrintValue(FlatJson.Text(s)) == "\"" + FlatJson.Escaped(s) + "\""
  {}

  lemma NumberValue(n: int)
    ensures FlatJson.PrintValue(FlatJson.Number(n)) == FlatJson.PrintNumber(n)
  {}

  /** The five members of the payload with their values, each printed. */
  lemma PrintedMembers(c: Claims)
    ensures FlatJson.PrintMember(("code", FlatJson.Text(c.code))) == "\"code\":\"" + FlatJson.Escaped(c.code) + "\""
    ensures FlatJson.PrintMember(("exp", FlatJson.Number(c.exp))) == "\"exp\":" + FlatJson.PrintNumber(c.exp)
    ensures FlatJson.PrintMember(("jti", FlatJson.Text(c.jti))) == "\"jti\":\"" + FlatJson.Escaped(c.jti) + "\""
    ensures FlatJson.PrintMember(("v", FlatJson.Number(1))) == "\"v\":1"
    ensures FlatJson.PrintMember(("ws", FlatJson.Text(Uuids.Text(c.ws)))) == "\"ws\":\"" + Uuids.Text(c.ws) + "\""
  {
    hide FlatJson.PrintMember, FlatJson.PrintValue, FlatJson.Escaped, FlatJson.PrintNumber, Uuids.Text;
    PlainMember("code", FlatJson.Text(c.code));
    PlainMember("exp", FlatJson.Number(c.exp));
    PlainMember("jti", FlatJson.Text(c.jti));
    PlainMember("v", FlatJson.Number(1));
    PlainMember("ws", FlatJson.Text(Uuids.Text(c.ws)));
    TextValue(c.code);
    NumberValue(c.exp);
    TextValue(c.jti);
    NumberValue(1);
    TextValue(Uuids.Text(c.ws));
    VersionIs();
    UuidIsPlain(c.ws);
    PlainStays(Uuids.Text(c.ws));
  }

  /** The payload is this JSON object, member by member: sorted by name, without white space. */
  lemma PayloadSpelledOut(c: Claims)
    ensures Json(c) ==
            "{" + ("\"code\":\"" + FlatJson.Escaped(c.code) + "\"") + "," + ("\"exp\":" + FlatJson.PrintNumber(c.exp))
            + "," + ("\"jti\":\"" + FlatJson.Escaped(c.jti) + "\"") + "," + "\"v\":1"
            + "," + ("\"ws\":\"" + Uuids.Text(c.ws) + "\"") + "}"
  {
    hide FlatJson.PrintMember, FlatJson.Print, FlatJson.Escaped, FlatJson.PrintNumber, Uuids.Text;
    FiveMembers(("code", FlatJson.Text(c.code)), ("exp", FlatJson.Number(c.exp)), ("jti", FlatJson.Text(c.jti)),
                ("v", FlatJson.Number(1)), ("ws", FlatJson.Text(Uuids.Text(c.ws))));
    PrintedMembers(c);
  }
}
