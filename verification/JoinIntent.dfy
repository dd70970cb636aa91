/**
  Signed join intents: `issue_join_intent` and `verify_join_intent`. HMAC stays
  uninterpreted, and the random `jti` is a parameter.
 */
module JoinIntent {
  import opened Common
  import opened Joined
  import Base64Url
  import FlatJson
  import Uuids

  type Bytes = seq<Base64Url.Byte>

  /** The keyed hash, and the server secret. */
  datatype Key = Key(hmac: (Bytes, Bytes) -> Bytes, secret: Bytes)

  /** What an intent says: one supplier, its code, the expiry second and a nonce. */
  datatype Claims = Claims(ws: Uuids.Uuid, code: string, exp: int, jti: string)

  datatype Payload = Payload(wholesalerId: nat, wholesalerCode: string, expiresAt: Instant)

  /** A point in time, in microseconds since 1970. */
  datatype Instant = Instant(micros: int)

  /** `issued_at + timedelta(seconds=ttl)`. */
  function Plus(t: Instant, seconds: int): Instant {
    Instant(t.micros + seconds * 1000000)
  }

  /** `datetime.fromtimestamp(second)`. */
  function AtSecond(second: int): Instant {
    Instant(second * 1000000)
  }

  predicate Before(a: Instant, b: Instant) {
    a.micros < b.micros
  }

  /** The first and the last second a `datetime` can hold. */
  const MIN_SECOND: int := -62135596800
  const MAX_SECOND: int := 253402300799

  const KEY_DOMAIN: string := "join_intent:v1"

  // ----------------------------------------------------------------- bytes and keys

  /** Encoding as ASCII, one byte per character. Every text that is encoded here is ASCII:
      printed JSON, or a payload that base64url has decoded. */
  function AsciiBytes(s: string): Bytes {
    seq(|s|, i requires 0 <= i < |s| => s[i] as nat % 256)
  }

  /** Decoding bytes as UTF-8, for bytes that are ASCII. */
  function AsciiText(b: Bytes): Option<string> {
    if exists i :: 0 <= i < |b| && b[i] >= 128 then None
    else Some(seq(|b|, i requires 0 <= i < |b| => b[i] as char))
  }

  function DomainKey(key: Key): Bytes {
    key.hmac(key.secret, AsciiBytes(KEY_DOMAIN))
  }

  function Mac(key: Key, payload: string): Bytes {
    key.hmac(DomainKey(key), AsciiBytes(payload))
  }

  // ------------------------------------------------------------------------- issue

  /** `int(expires_at.timestamp())` truncates towards zero. */
  function Seconds(t: Instant): int {
    if t.micros >= 0 then t.micros / 1000000 else -(-t.micros / 1000000)
  }

  /** The payload's members, sorted by name. */
  function Members(c: Claims): seq<FlatJson.Member> {
    [("code", FlatJson.Text(c.code)), ("exp", FlatJson.Number(c.exp)), ("jti", FlatJson.Text(c.jti)),
     ("v", FlatJson.Number(1)), ("ws", FlatJson.Text(Uuids.Text(c.ws)))]
  }

  function Json(c: Claims): string {
    FlatJson.Print(Members(c))
  }

  /** The part of an intent before the dot. */
  function PayloadText(c: Claims): string {
    Base64Url.Encode(AsciiBytes(Json(c)))
  }

  function SignedIntent(key: Key, c: Claims): string {
    PayloadText(c) + ['.'] + Base64Url.Encode(Mac(key, PayloadText(c)))
  }

  predicate IsDatetime(t: Instant) {
    MIN_SECOND * 1000000 <= t.micros < (MAX_SECOND + 1) * 1000000
  }

  datatype Issued = Issued(intent: string, expiresAt: Instant)

  function IssueUntil(key: Key, ws: Uuids.Uuid, code: string, expiresAt: Instant, jti: string): Option<Issued> {
    if IsDatetime(expiresAt) then
      Some(Issued(SignedIntent(key, Claims(ws, code, Seconds(expiresAt), jti)), expiresAt))
    else None
  }

  /** `issue_join_intent`: the intent and when it expires; `None` is an overflow. */
  function Issue(key: Key, ws: Uuids.Uuid, code: string, ttl: int, now: Instant, jti: string): Option<Issued> {
    IssueUntil(key, ws, code, Plus(now, ttl), jti)
  }

  // ------------------------------------------------------------------------ verify

  /** The payload once the signature is known to be right. */
  function ReadPayload(ms: seq<FlatJson.Member>, now: Instant): Option<Payload> {
    var exp, ws, code := FlatJson.Get(ms, "exp"), FlatJson.Get(ms, "ws"), FlatJson.Get(ms, "code");
    if exp.None? || ws.None? || code.None? || !exp.value.Number? || !ws.value.Text? then None
    else
      var seconds := exp.value.number;
      if !(MIN_SECOND <= seconds <= MAX_SECOND) || !Before(now, AtSecond(seconds)) then None
      else
        var id := Uuids.Parse(ws.value.text);
        if id.None? then None
        else
          var text := if code.value.Text? then code.value.text else FlatJson.PrintNumber(code.value.number);
          Some(Payload(id.value, text, AtSecond(seconds)))
  }

  /** `verify_join_intent`; `None` is the one neutral error. */
  function Verify(key: Key, intent: string, now: Instant): Option<Payload> {
    var parts := SplitOnce(intent, '.');
    if parts.None? then None
    else
      var (payloadText, signatureText) := parts.value;
      var bytes, signature := Base64Url.Decode(payloadText), Base64Url.Decode(signatureText);
      if bytes.None? || signature.None? then None
      else
        var text := AsciiText(bytes.value);
        var ms := if text.Some? then FlatJson.Parse(text.value) else None;
        if ms.None? || FlatJson.Get(ms.value, "v") != Some(FlatJson.Number(1)) then None
        else if signature.value != Mac(key, payloadText) then None
        else ReadPayload(ms.value, now)
  }

  // ---------------------------------------------------------------------- theorems

  lemma TextOfAscii(s: string)
    requires IsAscii(s)
    ensures AsciiText(AsciiBytes(s)) == Some(s)
  {
    var b := AsciiBytes(s);
    assert forall i :: 0 <= i < |b| ==> b[i] as char == s[i];
    assert AsciiText(b).value == s;
  }

  /** What the verifier reads out of an issued payload text. */
  lemma PayloadReads(c: Claims)
    ensures Base64Url.Decode(PayloadText(c)) == Some(AsciiBytes(Json(c)))
    ensures AsciiText(AsciiBytes(Json(c))) == Some(Json(c))
    ensures FlatJson.Parse(Json(c)) == Some(Members(c))
  {
    Base64Url.RoundTrip(AsciiBytes(Json(c)));
    FlatJson.PrintIsAscii(Members(c));
    TextOfAscii(Json(c));
    FlatJson.ParsePrint(Members(c));
  }

  lemma GetSnoc(ms: seq<FlatJson.Member>, m: FlatJson.Member, key: string)
    ensures FlatJson.Get(ms + [m], key) == if m.0 == key then Some(m.1) else FlatJson.Get(ms, key)
  {
    assert (ms + [m])[..|ms|] == ms;
  }

  /** Looking a name up in the printed members. */
  lemma MemberReads(c: Claims, key: string)
    ensures FlatJson.Get(Members(c), key) ==
            if key == "ws" then Some(FlatJson.Text(Uuids.Text(c.ws)))
            else if key == "v" then Some(FlatJson.Number(1))
            else if key == "jti" then Some(FlatJson.Text(c.jti))
            else if key == "exp" then Some(FlatJson.Number(c.exp))
            else if key == "code" then Some(FlatJson.Text(c.code))
            else None
  {
    var ms := Members(c);
    var m0: seq<FlatJson.Member> := [];
    var (m1, m2) := (m0 + [ms[0]], [ms[0]] + [ms[1]]);
    var (m3, m4) := ([ms[0], ms[1]] + [ms[2]], [ms[0], ms[1], ms[2]] + [ms[3]]);
    assert m2 == m1 + [ms[1]] && m3 == m2 + [ms[2]] && m4 == m3 + [ms[3]] && ms == m4 + [ms[4]];
    GetSnoc(m4, ms[4], key);
    GetSnoc(m3, ms[3], key);
    GetSnoc(m2, ms[2], key);
    GetSnoc(m1, ms[1], key);
    GetSnoc(m0, ms[0], key);
  }

  lemma MembersRead(c: Claims)
    ensures var ms := Members(c);
            && FlatJson.Get(ms, "v") == Some(FlatJson.Number(1))
            && FlatJson.Get(ms, "ws") == Some(FlatJson.Text(Uuids.Text(c.ws)))
            && FlatJson.Get(ms, "code") == Some(FlatJson.Text(c.code))
            && FlatJson.Get(ms, "exp") == Some(FlatJson.Number(c.exp))
            && FlatJson.Get(ms, "jti") == Some(FlatJson.Text(c.jti))
  {
    MemberReads(c, "v");
    MemberReads(c, "ws");
    MemberReads(c, "code");
    MemberReads(c, "exp");
    MemberReads(c, "jti");
  }

  /** A payload text that was issued, under any key and with any text after the first dot:
      it is accepted exactly when that text decodes to the signature and the expiry second
      is not reached, and then it names exactly what was issued. */
  lemma AnySignature(key: Key, c: Claims, signatureText: string, now: Instant)
    requires MIN_SECOND <= c.exp <= MAX_SECOND
    ensures Verify(key, PayloadText(c) + ['.'] + signatureText, now) ==
            if Base64Url.Decode(signatureText) == Some(Mac(key, PayloadText(c))) && Before(now, AtSecond(c.exp))
            then Some(Payload(c.ws, c.code, AtSecond(c.exp))) else None
  {
    PayloadHasNoDot(c);
    SplitOnceJoined(PayloadText(c), signatureText, '.');
    PayloadReads(c);
    MembersRead(c);
    Uuids.ParseText(c.ws);
  }

  lemma PayloadHasNoDot(c: Claims)
    ensures '.' !in PayloadText(c)
  {
    Base64Url.EncodeUsesAlphabet(AsciiBytes(Json(c)));
  }

  lemma SecondsInRange(t: Instant)
    requires IsDatetime(t)
    ensures MIN_SECOND <= Seconds(t) <= MAX_SECOND
  {}

  /** An intent signed under one key is accepted under another only if the two keys sign
      its payload alike. */
  lemma OtherKeysReject(mine: Key, other: Key, c: Claims, now: Instant)
    requires MIN_SECOND <= c.exp <= MAX_SECOND
    ensures Verify(mine, SignedIntent(other, c), now) ==
            if Mac(mine, PayloadText(c)) == Mac(other, PayloadText(c)) && Before(now, AtSecond(c.exp))
            then Some(Payload(c.ws, c.code, AtSecond(c.exp))) else None
  {
    Base64Url.RoundTrip(Mac(other, PayloadText(c)));
    AnySignature(mine, c, Base64Url.Encode(Mac(other, PayloadText(c))), now);
  }

  lemma VerifyIssuedUntil(key: Key, ws: Uuids.Uuid, code: string, expiresAt: Instant, jti: string, now: Instant)
    requires IssueUntil(key, ws, code, expiresAt, jti).Some?
    ensures var r := IssueUntil(key, ws, code, expiresAt, jti).value;
            var until := AtSecond(Seconds(r.expiresAt));
            Verify(key, r.intent, now) == if Before(now, until) then Some(Payload(ws, code, until)) else None
  {
    SecondsInRange(expiresAt);
    OtherKeysReject(key, key, Claims(ws, code, Seconds(expiresAt), jti), now);
  }

  /** Round trip: an issued intent verifies to exactly its supplier until the expiry second,
      and never afterwards. */
  lemma VerifyIssued(key: Key, ws: Uuids.Uuid, code: string, ttl: int, issued: Instant, jti: string, now: Instant)
    requires Issue(key, ws, code, ttl, issued, jti).Some?
    ensures var r := Issue(key, ws, code, ttl, issued, jti).value;
            var until := AtSecond(Seconds(r.expiresAt));
            Verify(key, r.intent, now) == if Before(now, until) then Some(Payload(ws, code, until)) else None
  {
    VerifyIssuedUntil(key, ws, code, Plus(issued, ttl), jti, now);
  }

  lemma SecondsBounds(t: Instant)
    ensures -1000000 < t.micros - AtSecond(Seconds(t)).micros < 1000000
    ensures !Before(t, AtSecond(Seconds(t))) <==> t.micros >= 0 || t.micros % 1000000 == 0
  {
    var m := t.micros;
    if m < 0 {
      assert -m == -m / 1000000 * 1000000 + -m % 1000000;
    }
  }

  /** No intent verifies at or after the expiry that `issue` returned, exactly when that
      expiry is not before 1970 or is a whole second. */
  lemma NeverOutlivesItsExpiry(key: Key, ws: Uuids.Uuid, code: string, ttl: int, issued: Instant, jti: string)
    requires Issue(key, ws, code, ttl, issued, jti).Some?
    ensures var r := Issue(key, ws, code, ttl, issued, jti).value;
            var expiry := r.expiresAt.micros;
            && -1000000 < expiry - AtSecond(Seconds(r.expiresAt)).micros < 1000000
            && ((forall now :: Verify(key, r.intent, now).Some? ==> Before(now, r.expiresAt)) <==>
                expiry >= 0 || expiry % 1000000 == 0)
  {
    var r := Issue(key, ws, code, ttl, issued, jti).value;
    var until := AtSecond(Seconds(r.expiresAt));
    forall now ensures Verify(key, r.intent, now).Some? <==> Before(now, until) {
      VerifyIssued(key, ws, code, ttl, issued, jti, now);
    }
    SecondsBounds(r.expiresAt);
    if Before(r.expiresAt, until) {
      assert Verify(key, r.intent, r.expiresAt).Some?;
    }
  }

  /** An intent names one supplier: two calls never issue the same text for different ones. */
  lemma IntentsAreUnambiguous(c: Claims, d: Claims, signatureC: string, signatureD: string)
    ensures PayloadText(c) + ['.'] + signatureC == PayloadText(d) + ['.'] + signatureD <==>
            c == d && signatureC == signatureD
  {
    if PayloadText(c) + ['.'] + signatureC == PayloadText(d) + ['.'] + signatureD {
      PayloadHasNoDot(c);
      PayloadHasNoDot(d);
      SplitOnceJoined(PayloadText(c), signatureC, '.');
      SplitOnceJoined(PayloadText(d), signatureD, '.');
      PayloadReads(c);
      PayloadReads(d);
      MembersRead(c);
      MembersRead(d);
      Uuids.ParseText(c.ws);
      Uuids.ParseText(d.ws);
    }
  }

  /** The signature on `intent`, if it is right, is one the server made for some `claims`. */
  ghost predicate SignedOnly(key: Key, intent: string, claims: set<Claims>) {
    var parts := SplitOnce(intent, '.');
    parts.Some? && Base64Url.Decode(parts.value.1) == Some(Mac(key, parts.value.0)) ==>
      exists c :: c in claims && parts.value.0 == PayloadText(c)
  }

  lemma {:induction false} SplitOnceJoins(s: string, sep: char)
    requires SplitOnce(s, sep).Some?
    ensures s == SplitOnce(s, sep).value.0 + [sep] + SplitOnce(s, sep).value.1
  {
    if s[0] != sep {
      SplitOnceJoins(s[1..], sep);
      assert s == [s[0]] + s[1..];
    }
  }

  /** Whatever text a client presents: if signatures cannot be made without the key, it is
      refused or it names a supplier the server issued an intent for. */
  lemma OnlyIssuedSuppliers(key: Key, intent: string, now: Instant, claims: set<Claims>)
    requires SignedOnly(key, intent, claims)
    requires forall c :: c in claims ==> MIN_SECOND <= c.exp <= MAX_SECOND
    ensures Verify(key, intent, now).Some? ==>
              exists c :: c in claims && Before(now, AtSecond(c.exp))
                && Verify(key, intent, now) == Some(Payload(c.ws, c.code, AtSecond(c.exp)))
  {
    if Verify(key, intent, now).Some? {
      SplitOnceJoins(intent, '.');
      var (payload, signature) := SplitOnce(intent, '.').value;
      var c :| c in claims && payload == PayloadText(c);
      AnySignature(key, c, signature, now);
    }
  }
}
