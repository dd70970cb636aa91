/**
  Completion reports of the worktree executor: the payload is printed, its commit ids are
  shortened, the text is parsed and what was parsed is printed again into the report file.
 */
module ReportShas {
  import opened Common
  import Decimal
  import FlatJson
  import Uuids
  import opened NestedJson
  import opened ShaRuns

  // ------------------------------------------------------- shortening side by side

  /** No run of hexadecimal digits crosses from `a` to `b`. */
  predicate Apart(a: string, b: string) {
    a == "" || b == "" || !IsHex(a[|a| - 1]) || !IsHex(b[0])
  }

  lemma Regroup(a: string, b: string, c: string)
    ensures a + (b + c) == (a + b) + c
  {}

  lemma {:induction false} JoinedConcat(a: seq<Piece>, b: seq<Piece>)
    ensures Joined(a + b) == Joined(a) + Joined(b)
  {
    if a == [] {
      assert a + b == b;
    } else {
      JoinedConcat(a[1..], b);
      assert (a + b)[1..] == a[1..] + b;
      Regroup(PieceText(a[0]), Joined(a[1..]), Joined(b));
    }
  }

  /** The first and last characters tell the first and last pieces. */
  lemma {:induction false} LastPiece(s: string)
    requires s != ""
    ensures Pieces(s) != [] && Pieces(s)[|Pieces(s)| - 1].Run? == IsHex(s[|s| - 1])
    decreases |s|
  {
    var n := RunLength(s);
    if n == 0 {
      if s[1..] != "" { LastPiece(s[1..]); }
    } else if n < |s| {
      LastPiece(s[n..]);
    } else {
      assert s[..n] == s && Pieces(s[n..]) == [];
    }
  }

  lemma FirstPiece(s: string)
    requires s != ""
    ensures Pieces(s) != [] && Pieces(s)[0].Run? == IsHex(s[0])
  {
    if IsHex(s[0]) { assert RunLength(s) > 0; }
  }

  lemma ConcatIsOk(p: seq<Piece>, q: seq<Piece>)
    requires PiecesOk(p) && PiecesOk(q) && (p == [] || q == [] || !p[|p| - 1].Run? || !q[0].Run?)
    ensures PiecesOk(p + q)
  {
    var all := p + q;
    forall i | 0 <= i < |all| ensures PieceOk(all[i]) {
      assert all[i] == if i < |p| then p[i] else q[i - |p|];
    }
    forall i | 0 < i < |all| ensures !(all[i - 1].Run? && all[i].Run?) {
      if i < |p| {
        assert !(p[i - 1].Run? && p[i].Run?);
      } else if i > |p| {
        assert !(q[i - |p| - 1].Run? && q[i - |p|].Run?);
      }
    }
  }

  lemma PiecesConcat(a: string, b: string)
    requires Apart(a, b)
    ensures Pieces(a + b) == Pieces(a) + Pieces(b)
  {
    PiecesAreOk(a);
    PiecesAreOk(b);
    if a != "" && b != "" {
      LastPiece(a);
      FirstPiece(b);
    }
    ConcatIsOk(Pieces(a), Pieces(b));
    JoinedPieces(a);
    JoinedPieces(b);
    JoinedConcat(Pieces(a), Pieces(b));
    PiecesOfJoined(Pieces(a) + Pieces(b));
  }

  lemma ShortPiecesConcat(p: seq<Piece>, q: seq<Piece>)
    ensures ShortPieces(p + q) == ShortPieces(p) + ShortPieces(q)
  {}

  lemma ShortenConcat(a: string, b: string)
    requires Apart(a, b)
    ensures Shorten(a + b) == Shorten(a) + Shorten(b)
  {
    PiecesConcat(a, b);
    SubstituteIs(a + b);
    SubstituteIs(a);
    SubstituteIs(b);
    ShortPiecesConcat(Pieces(a), Pieces(b));
    JoinedConcat(ShortPieces(Pieces(a)), ShortPieces(Pieces(b)));
  }

  /** A text that shortening keeps and that ends in no hexadecimal digit. */
  predicate Frame(s: string) {
    s != "" && !IsHex(s[|s| - 1]) && Shorten(s) == s
  }

  predicate NoHex(s: string) {
    forall i :: 0 <= i < |s| ==> !IsHex(s[i])
  }

  lemma {:induction false} NoHexStays(s: string)
    requires NoHex(s)
    ensures Shorten(s) == s
  {
    if s != "" {
      NoHexStays(s[1..]);
      assert [s[0]] + s[1..] == s;
      OtherIsCopied(s[0], s[1..], false);
    }
  }

  lemma NoHexIsFrame(s: string)
    requires NoHex(s) && s != ""
    ensures Frame(s)
  {
    NoHexStays(s);
  }

  /** Text between a frame and what does not continue a run is shortened by itself. */
  lemma ShortenFramed(a: string, x: string, b: string)
    requires Frame(a) && NoHexFirst(b)
    ensures Shorten(a + (x + b)) == a + (Shorten(x) + Shorten(b))
  {
    ShortenConcat(a, x + b);
    ShortenConcat(x, b);
  }

  lemma ShortenBehind(a: string, x: string)
    requires Frame(a)
    ensures Shorten(a + x) == a + Shorten(x)
  {
    ShortenConcat(a, x);
  }

  lemma {:induction false} ShortTextStays(s: string, after: bool)
    requires |s| < SHA_LEN
    ensures Substitute(s, after) == s
  {
    if s != "" {
      ShortTextStays(s[1..], IsHex(s[0]));
      assert [s[0]] + s[1..] == s;
    }
  }

  /** A text of nothing but hexadecimal digits is one run. */
  lemma OneRun(h: string)
    requires AllHex(h)
    ensures Shorten(h) == if |h| == SHA_LEN then h[..SHORT_SHA_LEN] else h
  {
    if h != "" {
      RunIsShortened(h, "");
      assert h + "" == h;
    }
  }

  // ------------------------------------------------------------------------- texts

  /** How many hexadecimal digits the printed form of a character ends with. */
  function HexTail(c: char): (n: nat)
    requires !IsHex(c)
    ensures n <= 4 && n < |FlatJson.Escape(c)|
  {
    if c as int == 8 || c as int == 12 then 1
    else if |FlatJson.Escape(c)| > 2 then 4
    else 0
  }

  function Front(c: char): string
    requires !IsHex(c)
  {
    FlatJson.Escape(c)[..|FlatJson.Escape(c)| - HexTail(c)]
  }

  function Tail(c: char): string
    requires !IsHex(c)
  {
    FlatJson.Escape(c)[|FlatJson.Escape(c)| - HexTail(c)..]
  }

  lemma DigitsAreHex(n: nat)
    ensures AllHex(Uuids.Digits(n, 4))
  {
    assert forall i :: 0 <= i < 4 ==> Uuids.IsHexDigit(Uuids.Digits(n, 4)[i]);
  }

  lemma LongEscape(c: char)
    requires |FlatJson.Escape(c)| > 2
    ensures |FlatJson.Escape(c)| <= 12
    ensures var e := FlatJson.Escape(c); |e| >= 6 && AllHex(e[|e| - 4..]) && e[|e| - 5] == 'u'
  {
    var e := FlatJson.Escape(c);
    if c as int < 0x10000 {
      assert e[2..] == Uuids.Digits(c as nat, 4);
      DigitsAreHex(c as nat);
    } else {
      var low := 0xDC00 + (c as nat - 0x10000) % 0x400;
      assert e[8..] == Uuids.Digits(low, 4);
      DigitsAreHex(low);
    }
  }

  /** A printed character is a frame and the digits that may start a run. */
  lemma EscapeParts(c: char)
    requires !IsHex(c)
    ensures FlatJson.Escape(c) == Front(c) + Tail(c) && Frame(Front(c)) && AllHex(Tail(c))
    ensures !IsHex(FlatJson.Escape(c)[0])
  {
    hide Substitute;
    if |FlatJson.Escape(c)| > 2 { LongEscape(c); }
    ShortTextStays(Front(c), false);
  }

  /** What is left of a run behind `before` more of its digits. */
  function Cut(digits: string, before: nat): string
    requires before <= SHORT_SHA_LEN
  {
    if before + |digits| == SHA_LEN then digits[..SHORT_SHA_LEN - before] else digits
  }

  /** The text whose printed form is the shortened printed form of `t`. A run may start
      inside the printed form of the character in front of it. */
  function ShortText(t: string): string
    decreases |t|
  {
    if t == "" then ""
    else if IsHex(t[0]) then
      var n := RunLength(t);
      Cut(t[..n], 0) + ShortText(t[n..])
    else
      var n := RunLength(t[1..]);
      [t[0]] + (Cut(t[1..][..n], HexTail(t[0])) + ShortText(t[1..][n..]))
  }

  lemma EscapedCons(c: char, t: string)
    ensures FlatJson.Escaped([c] + t) == FlatJson.Escape(c) + FlatJson.Escaped(t)
  {
    assert ([c] + t)[1..] == t;
  }

  lemma OneMoreEscaped(c: char, a: string, b: string, front: string, all: string)
    requires FlatJson.Escaped(a + b) == FlatJson.Escaped(a) + FlatJson.Escaped(b)
    requires front == [c] + a && all == [c] + (a + b)
    ensures FlatJson.Escaped(all) == FlatJson.Escaped(front) + FlatJson.Escaped(b)
  {
    EscapedCons(c, a + b);
    EscapedCons(c, a);
    Regroup(FlatJson.Escape(c), FlatJson.Escaped(a), FlatJson.Escaped(b));
  }

  lemma SplitFront(a: string, b: string)
    requires a != ""
    ensures a == [a[0]] + a[1..] && a + b == [a[0]] + (a[1..] + b)
  {}

  lemma {:induction false} EscapedConcat(a: string, b: string)
    ensures FlatJson.Escaped(a + b) == FlatJson.Escaped(a) + FlatJson.Escaped(b)
  {
    if a == "" {
      assert a + b == b;
    } else {
      EscapedConcat(a[1..], b);
      SplitFront(a, b);
      OneMoreEscaped(a[0], a[1..], b, a, a + b);
    }
  }

  lemma EscapedStart(t: string)
    requires NoHexFirst(t)
    ensures NoHexFirst(FlatJson.Escaped(t))
  {
    if t != "" { EscapeParts(t[0]); }
  }

  lemma CutRun(tail: string, digits: string)
    requires AllHex(tail) && AllHex(digits) && |tail| <= SHORT_SHA_LEN
    ensures Shorten(tail + digits) == tail + Cut(digits, |tail|)
  {
    OneRun(tail + digits);
  }

  lemma CutIsHex(digits: string, before: nat)
    requires AllHex(digits) && before <= SHORT_SHA_LEN
    ensures AllHex(Cut(digits, before))
  {}

  /** A run, and what follows it. */
  lemma RunThen(digits: string, t: string)
    requires AllHex(digits) && NoHexFirst(t)
    requires FlatJson.Escaped(ShortText(t)) == Shorten(FlatJson.Escaped(t))
    ensures FlatJson.Escaped(Cut(digits, 0) + ShortText(t)) == Shorten(FlatJson.Escaped(digits + t))
  {
    CutIsHex(digits, 0);
    EscapedConcat(digits, t);
    EscapedConcat(Cut(digits, 0), ShortText(t));
    HexIsNotEscaped(digits);
    HexIsNotEscaped(Cut(digits, 0));
    EscapedStart(t);
    ShortenConcat(digits, FlatJson.Escaped(t));
    CutRun("", digits);
    assert "" + digits == digits && "" + Cut(digits, 0) == Cut(digits, 0);
  }

  lemma ShortenEscape(c: char, digits: string, after: string)
    requires !IsHex(c) && AllHex(digits) && NoHexFirst(after)
    ensures Shorten(FlatJson.Escape(c) + (digits + after)) ==
            FlatJson.Escape(c) + (Cut(digits, HexTail(c)) + Shorten(after))
  {
    EscapeParts(c);
    CutRun(Tail(c), digits);
    ShortenFramed(Front(c), Tail(c) + digits, after);
    Regroup(Front(c), Tail(c), digits + after);
    Regroup(Tail(c), digits, after);
    Regroup(Tail(c), Cut(digits, HexTail(c)), Shorten(after));
    Regroup(Front(c), Tail(c), Cut(digits, HexTail(c)) + Shorten(after));
  }

  /** Any other character, the run behind it and what follows. */
  lemma CharacterThen(c: char, digits: string, t: string)
    requires !IsHex(c) && AllHex(digits) && NoHexFirst(t)
    requires FlatJson.Escaped(ShortText(t)) == Shorten(FlatJson.Escaped(t))
    ensures FlatJson.Escaped([c] + (Cut(digits, HexTail(c)) + ShortText(t))) ==
            Shorten(FlatJson.Escaped([c] + (digits + t)))
  {
    var cut := Cut(digits, HexTail(c));
    CutIsHex(digits, HexTail(c));
    EscapedCons(c, digits + t);
    EscapedConcat(digits, t);
    HexIsNotEscaped(digits);
    EscapedCons(c, cut + ShortText(t));
    EscapedConcat(cut, ShortText(t));
    HexIsNotEscaped(cut);
    EscapedStart(t);
    ShortenEscape(c, digits, FlatJson.Escaped(t));
  }

  predicate ShortFits(t: string) {
    FlatJson.Escaped(ShortText(t)) == Shorten(FlatJson.Escaped(t))
  }

  /** How the shortened text starts. */
  lemma ShortTextStart(t: string)
    requires t != ""
    ensures IsHex(t[0]) ==> ShortText(t) == Cut(t[..RunLength(t)], 0) + ShortText(t[RunLength(t)..])
    ensures !IsHex(t[0]) ==>
              var n := RunLength(t[1..]);
              ShortText(t) == [t[0]] + (Cut(t[1..][..n], HexTail(t[0])) + ShortText(t[1..][n..]))
  {}

  lemma RunFits(t: string, digits: string, more: string)
    requires AllHex(digits) && NoHexFirst(more) && ShortFits(more)
    requires t == digits + more && ShortText(t) == Cut(digits, 0) + ShortText(more)
    ensures ShortFits(t)
  {
    RunThen(digits, more);
  }

  lemma CharacterFits(t: string, c: char, digits: string, more: string)
    requires !IsHex(c) && AllHex(digits) && NoHexFirst(more) && ShortFits(more)
    requires t == [c] + (digits + more) && ShortText(t) == [c] + (Cut(digits, HexTail(c)) + ShortText(more))
    ensures ShortFits(t)
  {
    CharacterThen(c, digits, more);
  }

  lemma SplitRun(t: string)
    ensures t == t[..RunLength(t)] + t[RunLength(t)..] && NoHexFirst(t[RunLength(t)..])
  {}

  lemma SplitCharacter(t: string)
    requires t != ""
    ensures var n := RunLength(t[1..]);
            t == [t[0]] + (t[1..][..n] + t[1..][n..]) && NoHexFirst(t[1..][n..])
  {
    SplitRun(t[1..]);
  }

  lemma RunStep(t: string)
    requires t != "" && IsHex(t[0]) && ShortFits(t[RunLength(t)..])
    ensures ShortFits(t)
  {
    SplitRun(t);
    ShortTextStart(t);
    RunFits(t, t[..RunLength(t)], t[RunLength(t)..]);
  }

  lemma CharacterStep(t: string)
    requires t != "" && !IsHex(t[0]) && ShortFits(t[1..][RunLength(t[1..])..])
    ensures ShortFits(t)
  {
    var n := RunLength(t[1..]);
    SplitCharacter(t);
    ShortTextStart(t);
    CharacterFits(t, t[0], t[1..][..n], t[1..][n..]);
  }

  lemma NothingFits()
    ensures ShortFits("")
  {}

  lemma {:induction false} EscapedShort(t: string)
    ensures ShortFits(t)
    decreases |t|
  {
    if t == "" {
      NothingFits();
    } else if IsHex(t[0]) {
      EscapedShort(t[RunLength(t)..]);
      RunStep(t);
    } else {
      EscapedShort(t[1..][RunLength(t[1..])..]);
      CharacterStep(t);
    }
  }

  /** Shortening a printed text prints the shortened text. */
  lemma ShortenPrintedText(t: string)
    ensures Shorten(FlatJson.PrintText(t)) == FlatJson.PrintText(ShortText(t))
  {
    EscapedShort(t);
    NoHexIsFrame("\"");
    ShortenFramed("\"", FlatJson.Escaped(t), "\"");
  }

  // ----------------------------------------------------------------------- numbers

  function ShortNat(n: nat): nat {
    var d := Decimal.Print(n);
    if |d| == SHA_LEN then Decimal.Value(d[..SHORT_SHA_LEN]) else n
  }

  function ShortNumber(n: int): int {
    var size: int := ShortNat(if n < 0 then -n else n);
    if n < 0 then -size else size
  }

  lemma ShortenDigits(n: nat)
    ensures Shorten(Decimal.Print(n)) == Decimal.Print(ShortNat(n))
    ensures n > 0 ==> ShortNat(n) > 0
  {
    var d := Decimal.Print(n);
    OneRun(d);
    if |d| == SHA_LEN {
      assert Decimal.Print(0) == "0";
      Decimal.NoLeadingZero(n);
      Decimal.PrintValue(d[..SHORT_SHA_LEN]);
    }
  }

  lemma ShortenPrintedNumber(n: int)
    ensures Shorten(FlatJson.PrintNumber(n)) == FlatJson.PrintNumber(ShortNumber(n))
  {
    hide Shorten, ShortNat;
    if n < 0 {
      ShortenDigits(-n);
      NoHexIsFrame("-");
      ShortenBehind("-", Decimal.Print(-n));
    } else {
      ShortenDigits(n);
    }
  }

  // ------------------------------------------------------------------------ values

  function ShortValue(v: Json): Json
    decreases v
  {
    match v
    case Integer(n) => Integer(ShortNumber(n))
    case String(t) => String(ShortText(t))
    case List(items) => List(ShortItems(items))
    case Object(ms) => Object(ShortMembers(ms))
    case _ => v
  }

  function ShortItems(items: Items): (r: Items)
    ensures r.Item? == items.Item?
    decreases items
  {
    match items
    case NoItem => NoItem
    case Item(head, rest) => Item(ShortValue(head), ShortItems(rest))
  }

  function ShortMembers(ms: Members): (r: Members)
    ensures r.Pair? == ms.Pair?
    decreases ms
  {
    match ms
    case NoMember => NoMember
    case Pair(key, v, more) => Pair(ShortText(key), ShortValue(v), ShortMembers(more))
  }

  lemma {:induction false} SpacesHaveNoHex(n: nat)
    ensures NoHex(Spaces(n))
  {}

  lemma NewLineHasNoHex(level: nat)
    ensures NoHex(NewLine(level))
  {
    SpacesHaveNoHex(2 * level);
  }

  /** An opening bracket or a comma, and the line break behind it. */
  lemma BreakIsFrame(c: char, level: nat, x: string)
    requires !IsHex(c)
    ensures Shorten([c] + (NewLine(level) + x)) == [c] + (NewLine(level) + Shorten(x))
  {
    NewLineHasNoHex(level);
    NoHexIsFrame([c] + NewLine(level));
    ShortenBehind([c] + NewLine(level), x);
    Regroup([c], NewLine(level), x);
    Regroup([c], NewLine(level), Shorten(x));
  }

  lemma ClosingStays(level: nat, c: char)
    requires !IsHex(c)
    ensures Shorten(NewLine(level) + [c]) == NewLine(level) + [c]
  {
    NewLineHasNoHex(level);
    NoHexStays(NewLine(level) + [c]);
  }

  lemma ShortenKey(key: string, x: string)
    ensures Shorten(FlatJson.PrintText(key) + (": " + x)) == FlatJson.PrintText(ShortText(key)) + (": " + Shorten(x))
  {
    ShortenPrintedText(key);
    NoHexIsFrame(": ");
    ShortenBehind(": ", x);
    ShortenConcat(FlatJson.PrintText(key), ": " + x);
  }

  /** Shortening a printed value prints the value with every text, key and number shortened:
      the text stays well-formed. */
  lemma {:induction false} ShortenPrinted(v: Json, level: nat)
    ensures Shorten(PrintAt(v, level)) == PrintAt(ShortValue(v), level)
    decreases v
  {
    hide Substitute, ShortText, ShortNumber, ShortItems, ShortMembers;
    match v
    case Null => ShortTextStays(PrintAt(v, level), false);
    case Bool(_) => ShortTextStays(PrintAt(v, level), false);
    case Integer(n) => ShortenPrintedNumber(n);
    case String(t) => ShortenPrintedText(t);
    case List(items) =>
      if items.NoItem? {
        ShortTextStays(PrintAt(v, level), false);
      } else {
        ShortenPrintedItems(items, level + 1);
        BreakIsFrame('[', level + 1, PrintItems(items, level + 1));
      }
    case Object(ms) =>
      if ms.NoMember? {
        ShortTextStays(PrintAt(v, level), false);
      } else {
        ShortenPrintedMembers(ms, level + 1);
        BreakIsFrame('{', level + 1, PrintMembers(ms, level + 1));
      }
  }

  lemma {:induction false} ShortenPrintedItems(items: Items, level: nat)
    requires items.Item? && level > 0
    ensures Shorten(PrintItems(items, level)) == PrintItems(ShortItems(items), level)
    decreases items
  {
    var printed := PrintAt(items.head, level);
    ShortenPrinted(items.head, level);
    if items.rest.NoItem? {
      ClosingStays(level - 1, ']');
      ShortenConcat(printed, NewLine(level - 1) + "]");
    } else {
      var next := PrintItems(items.rest, level);
      ShortenPrintedItems(items.rest, level);
      BreakIsFrame(',', level, next);
      ShortenConcat(printed, "," + (NewLine(level) + next));
    }
  }

  lemma {:induction false} ShortenPrintedMembers(ms: Members, level: nat)
    requires ms.Pair? && level > 0
    ensures Shorten(PrintMembers(ms, level)) == PrintMembers(ShortMembers(ms), level)
    decreases ms
  {
    var printed := PrintAt(ms.value, level);
    ShortenPrinted(ms.value, level);
    if ms.more.NoMember? {
      ClosingStays(level - 1, '}');
      ShortenConcat(printed, NewLine(level - 1) + "}");
      ShortenKey(ms.key, printed + (NewLine(level - 1) + "}"));
    } else {
      var next := PrintMembers(ms.more, level);
      ShortenPrintedMembers(ms.more, level);
      BreakIsFrame(',', level, next);
      ShortenConcat(printed, "," + (NewLine(level) + next));
      ShortenKey(ms.key, printed + ("," + (NewLine(level) + next)));
    }
  }

  // ------------------------------------------------------------------- the reports

  /** `sanitize_payload`: `None` would be a decoding error. */
  function SanitizePayload(payload: Json): Option<Json> {
    Loads(Shorten(Dumps(payload)))
  }

  /** What `build_report` and `write_report` put into the report file. */
  function ReportText(payload: Json): Option<string> {
    var sane := SanitizePayload(payload);
    if sane.Some? then Some(Dumps(sane.value) + "\n") else None
  }

  /** The shortened text always parses: it is the payload with every text, key and number
      shortened by itself, and a dictionary for each object. */
  lemma SanitizedPayload(payload: Json)
    ensures SanitizePayload(payload) == Some(Loaded(ShortValue(payload)))
  {
    ShortenPrinted(payload, 0);
    LoadsDumps(ShortValue(payload));
  }

  /** Nothing in the value is left to shorten. */
  predicate Clean(v: Json) {
    ShortValue(v) == v
  }

  lemma ShortValueIsClean(v: Json)
    ensures Clean(ShortValue(v))
  {
    var w := ShortValue(v);
    ShortenPrinted(v, 0);
    ShortenPrinted(w, 0);
    ShortenRemovesThemAll(Dumps(v));
    DumpsInjective(ShortValue(w), w);
  }

  lemma CleanHasNoFullSha(v: Json)
    requires Clean(v)
    ensures !HasFullSha(Dumps(v)) && Shorten(Dumps(v)) == Dumps(v)
  {
    ShortenPrinted(v, 0);
    ShortenRemovesThemAll(Dumps(v));
  }

  lemma {:induction false} PutKeepsClean(d: Members, key: string, v: Json)
    requires ShortMembers(d) == d && ShortText(key) == key && Clean(v)
    ensures ShortMembers(Put(d, key, v)) == Put(d, key, v)
  {
    if d.Pair? && d.key != key { PutKeepsClean(d.more, key, v); }
  }

  /** Merging keys leaves only what was there. */
  lemma {:induction false} LoadedIsClean(v: Json)
    requires Clean(v)
    ensures Clean(Loaded(v))
    decreases v
  {
    match v
    case List(items) => LoadedItemsAreClean(items);
    case Object(ms) => LoadedMembersAreClean(ms, NoMember);
    case _ =>
  }

  lemma {:induction false} LoadedItemsAreClean(items: Items)
    requires ShortItems(items) == items
    ensures ShortItems(LoadedItems(items)) == LoadedItems(items)
    decreases items
  {
    if items.Item? {
      LoadedIsClean(items.head);
      LoadedItemsAreClean(items.rest);
    }
  }

  lemma {:induction false} LoadedMembersAreClean(ms: Members, d: Members)
    requires ShortMembers(ms) == ms && ShortMembers(d) == d
    ensures ShortMembers(LoadedMembers(ms, d)) == LoadedMembers(ms, d)
    decreases ms
  {
    if ms.Pair? {
      LoadedIsClean(ms.value);
      PutKeepsClean(d, ms.key, Loaded(ms.value));
      LoadedMembersAreClean(ms.more, Put(d, ms.key, Loaded(ms.value)));
    }
  }

  lemma SaneIsClean(payload: Json)
    ensures SanitizePayload(payload).Some? && Clean(SanitizePayload(payload).value)
    ensures Distinct(SanitizePayload(payload).value)
  {
    SanitizedPayload(payload);
    ShortValueIsClean(payload);
    LoadedIsClean(ShortValue(payload));
    LoadedIsDistinct(ShortValue(payload));
  }

  /** Every payload can be written, and no written report text holds a full commit id. */
  lemma WrittenReportHasNoFullSha(payload: Json)
    ensures ReportText(payload).Some? && !HasFullSha(ReportText(payload).value)
  {
    SaneIsClean(payload);
    var text := Dumps(SanitizePayload(payload).value);
    CleanHasNoFullSha(SanitizePayload(payload).value);
    NoHexIsFrame("\n");
    ShortenConcat(text, "\n");
    ShortenRemovesThemAll(text + "\n");
  }

  /** Sanitising a payload again changes nothing. */
  lemma SanitizeIsIdempotent(payload: Json)
    ensures SanitizePayload(payload).Some?
    ensures SanitizePayload(SanitizePayload(payload).value) == SanitizePayload(payload)
  {
    SaneIsClean(payload);
    var sane := SanitizePayload(payload).value;
    SanitizedPayload(sane);
    DistinctIsLoaded(sane);
  }

  /** The report is the shortened text of the payload, unless keys of one object that differ
      become the same: then members are lost. */
  lemma WrittenIsShortenedExactlyWhen(payload: Json)
    ensures ReportText(payload) == Some(Shorten(Dumps(payload)) + "\n") <==> Distinct(ShortValue(payload))
  {
    var short := ShortValue(payload);
    ShortenPrinted(payload, 0);
    SanitizedPayload(payload);
    LoadedExactlyWhen(short);
    if ReportText(payload) == Some(Dumps(short) + "\n") {
      var (a, b) := (Dumps(Loaded(short)), Dumps(short));
      assert (a + "\n")[..|a|] == a && (b + "\n")[..|b|] == b;
      DumpsInjective(Loaded(short), short);
    }
  }

  /** Two commit ids as keys that agree in their first twelve digits: only the last member is
      reported. */
  lemma KeysMayMerge(a: string, b: string, v: Json, w: Json)
    requires AllHex(a) && AllHex(b) && |a| == |b| == SHA_LEN && a != b
    requires a[..SHORT_SHA_LEN] == b[..SHORT_SHA_LEN]
    ensures var payload := Object(Pair(a, v, Pair(b, w, NoMember)));
            && (Distinct(v) && Distinct(w) ==> Distinct(payload))
            && SanitizePayload(payload) ==
               Some(Object(Pair(a[..SHORT_SHA_LEN], Loaded(ShortValue(w)), NoMember)))
  {
    var payload := Object(Pair(a, v, Pair(b, w, NoMember)));
    SanitizedPayload(payload);
    KeyIsCut(a);
    KeyIsCut(b);
    OneKeyTwice(a[..SHORT_SHA_LEN], ShortValue(v), ShortValue(w));
    assert !HasKey(Pair(b, w, NoMember), a) && DistinctMembers(NoMember);
    assert ShortMembers(Pair(b, w, NoMember)) == Pair(ShortText(b), ShortValue(w), NoMember);
  }

  lemma OneKeyTwice(key: string, v: Json, w: Json)
    ensures Loaded(Object(Pair(key, v, Pair(key, w, NoMember)))) == Object(Pair(key, Loaded(w), NoMember))
  {
    var last := Pair(key, w, NoMember);
    assert Put(NoMember, key, Loaded(v)) == Pair(key, Loaded(v), NoMember);
    assert LoadedMembers(Pair(key, v, last), NoMember) == LoadedMembers(last, Pair(key, Loaded(v), NoMember));
    assert LoadedMembers(last, Pair(key, Loaded(v), NoMember)) ==
           LoadedMembers(NoMember, Pair(key, Loaded(w), NoMember));
  }

  lemma KeyIsCut(key: string)
    requires AllHex(key) && |key| == SHA_LEN
    ensures ShortText(key) == key[..SHORT_SHA_LEN]
  {
    RunLengthIs(key, "");
    assert key + "" == key && key[..SHA_LEN] == key && key[SHA_LEN..] == "";
    assert key[..SHORT_SHA_LEN] + "" == key[..SHORT_SHA_LEN];
  }
}
