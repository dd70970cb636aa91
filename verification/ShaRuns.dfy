/** Shortening full commit ids in report texts: `shorten_shas`. */
module ShaRuns {
  import FlatJson

  predicate IsHex(c: char) {
    '0' <= c <= '9' || 'A' <= c <= 'F' || 'a' <= c <= 'f'
  }

  predicate AllHex(s: string) {
    forall i :: 0 <= i < |s| ==> IsHex(s[i])
  }

  const SHA_LEN: nat := 40
  const SHORT_SHA_LEN: nat := 12

  /** The pattern matches the front of `s`: 40 hexadecimal digits with none before (`after`
      says whether the previous character is one) and none behind. */
  predicate Matches(s: string, after: bool) {
    !after && SHA_LEN <= |s| && AllHex(s[..SHA_LEN]) && (SHA_LEN < |s| ==> !IsHex(s[SHA_LEN]))
  }

  /** `SHA40_RE.sub` on the rest of a text: a match is cut, anything else is copied. */
  function Substitute(s: string, after: bool): string
    decreases |s|
  {
    if s == "" then ""
    else if Matches(s, after) then s[..SHORT_SHA_LEN] + Substitute(s[SHA_LEN..], true)
    else [s[0]] + Substitute(s[1..], IsHex(s[0]))
  }

  function Shorten(s: string): string {
    Substitute(s, false)
  }

  // ----------------------------------------------------------------------- pieces

  /** A text is made of maximal runs of hexadecimal digits and of other characters. */
  datatype Piece = Run(digits: string) | Other(c: char)

  function RunLength(s: string): (n: nat)
    ensures n <= |s| && AllHex(s[..n]) && (n < |s| ==> !IsHex(s[n]))
  {
    if s == "" || !IsHex(s[0]) then 0
    else
      var n := RunLength(s[1..]);
      assert s[..n + 1] == [s[0]] + s[1..][..n];
      n + 1
  }

  function Pieces(s: string): seq<Piece>
    decreases |s|
  {
    var n := RunLength(s);
    if s == "" then []
    else if n == 0 then [Other(s[0])] + Pieces(s[1..])
    else [Run(s[..n])] + Pieces(s[n..])
  }

  function PieceText(p: Piece): string {
    match p
    case Run(digits) => digits
    case Other(c) => [c]
  }

  function Joined(ps: seq<Piece>): string {
    if ps == [] then "" else PieceText(ps[0]) + Joined(ps[1..])
  }

  /** A run of exactly 40 digits is cut to 12; nothing else changes. */
  function ShortPiece(p: Piece): Piece {
    if p.Run? && |p.digits| == SHA_LEN then Run(p.digits[..SHORT_SHA_LEN]) else p
  }

  function ShortPieces(ps: seq<Piece>): (r: seq<Piece>)
    ensures |r| == |ps|
    ensures forall i :: 0 <= i < |ps| ==> r[i] == ShortPiece(ps[i])
  {
    if ps == [] then [] else [ShortPiece(ps[0])] + ShortPieces(ps[1..])
  }

  predicate PieceOk(p: Piece) {
    match p
    case Run(digits) => digits != "" && AllHex(digits)
    case Other(c) => !IsHex(c)
  }

  /** Runs are maximal: never two next to each other. */
  predicate PiecesOk(ps: seq<Piece>) {
    && (forall i :: 0 <= i < |ps| ==> PieceOk(ps[i]))
    && (forall i :: 0 < i < |ps| ==> !(ps[i - 1].Run? && ps[i].Run?))
  }

  lemma JoinedCons(p: Piece, ps: seq<Piece>)
    ensures Joined([p] + ps) == PieceText(p) + Joined(ps)
  {
    assert ([p] + ps)[1..] == ps;
  }

  lemma {:induction false} JoinedPieces(s: string)
    ensures Joined(Pieces(s)) == s
    decreases |s|
  {
    if s != "" {
      var n := RunLength(s);
      if n == 0 {
        JoinedPieces(s[1..]);
        JoinedCons(Other(s[0]), Pieces(s[1..]));
        assert [s[0]] + s[1..] == s;
      } else {
        JoinedPieces(s[n..]);
        JoinedCons(Run(s[..n]), Pieces(s[n..]));
        assert s[..n] + s[n..] == s;
      }
    }
  }

  lemma {:induction false} PiecesAreOk(s: string)
    ensures PiecesOk(Pieces(s))
    ensures s != "" && !IsHex(s[0]) ==> Pieces(s) != [] && Pieces(s)[0].Other?
    decreases |s|
  {
    if s != "" {
      var n := RunLength(s);
      PiecesAreOk(if n == 0 then s[1..] else s[n..]);
    }
  }

  lemma {:induction false} RunLengthIs(digits: string, tail: string)
    requires AllHex(digits) && (tail == "" || !IsHex(tail[0]))
    ensures RunLength(digits + tail) == |digits|
  {
    if digits == "" {
      assert digits + tail == tail;
    } else {
      assert (digits + tail)[1..] == digits[1..] + tail;
      RunLengthIs(digits[1..], tail);
    }
  }

  lemma OkTail(ps: seq<Piece>)
    requires PiecesOk(ps) && ps != []
    ensures PieceOk(ps[0]) && PiecesOk(ps[1..])
    ensures ps[0].Run? ==> ps[1..] == [] || ps[1..][0].Other?
  {
    if |ps| > 1 {
      var i := 1;
      assert 0 < i < |ps| && !(ps[i - 1].Run? && ps[i].Run?);
    }
  }

  /** Pieces and texts determine each other. */
  lemma {:induction false} PiecesOfJoined(ps: seq<Piece>)
    requires PiecesOk(ps)
    ensures Pieces(Joined(ps)) == ps
    ensures ps != [] ==> Joined(ps) != "" && IsHex(Joined(ps)[0]) == ps[0].Run?
  {
    if ps != [] {
      OkTail(ps);
      PiecesOfJoined(ps[1..]);
      var s, tail := Joined(ps), Joined(ps[1..]);
      assert [ps[0]] + ps[1..] == ps;
      if ps[0].Run? {
        RunLengthIs(ps[0].digits, tail);
        assert s[..|ps[0].digits|] == ps[0].digits && s[|ps[0].digits|..] == tail;
      } else {
        assert RunLength(s) == 0 && s[1..] == tail;
      }
    }
  }

  // --------------------------------------------------------- what shortening does

  predicate NoHexFirst(s: string) {
    s == "" || !IsHex(s[0])
  }

  lemma OtherIsCopied(c: char, rest: string, after: bool)
    requires !IsHex(c)
    ensures Substitute([c] + rest, after) == [c] + Substitute(rest, false)
  {
    var s := [c] + rest;
    assert s[1..] == rest;
    if SHA_LEN <= |s| { assert s[..SHA_LEN][0] == c; }
  }

  /** What stands in front does not matter where no run starts. */
  lemma FrontDoesNotMatter(s: string)
    requires NoHexFirst(s)
    ensures Substitute(s, true) == Substitute(s, false)
  {
    if s != "" {
      assert [s[0]] + s[1..] == s;
      OtherIsCopied(s[0], s[1..], true);
      OtherIsCopied(s[0], s[1..], false);
    }
  }

  lemma FirstAndRest(s: string, tail: string)
    requires s != ""
    ensures [s[0]] + (s[1..] + tail) == s + tail
  {}

  /** Inside a run nothing matches, so the rest of the run is copied. */
  lemma {:induction false} RestOfRunIsCopied(digits: string, tail: string)
    requires AllHex(digits)
    ensures Substitute(digits + tail, true) == digits + Substitute(tail, true)
  {
    if digits == "" {
      assert digits + tail == tail;
    } else {
      assert (digits + tail)[1..] == digits[1..] + tail;
      RestOfRunIsCopied(digits[1..], tail);
      FirstAndRest(digits, Substitute(tail, true));
    }
  }

  /** A run of exactly 40 digits matches at its start. */
  lemma FullRunIsCut(digits: string, tail: string)
    requires AllHex(digits) && |digits| == SHA_LEN && NoHexFirst(tail)
    ensures Substitute(digits + tail, false) == digits[..SHORT_SHA_LEN] + Substitute(tail, true)
  {
    var s := digits + tail;
    assert s[..SHA_LEN] == digits && s[SHA_LEN..] == tail;
    assert s[..SHORT_SHA_LEN] == digits[..SHORT_SHA_LEN];
  }

  lemma OtherRunDoesNotMatch(digits: string, tail: string)
    requires AllHex(digits) && |digits| != SHA_LEN && NoHexFirst(tail)
    ensures !Matches(digits + tail, false)
  {
    var s := digits + tail;
    if |digits| < SHA_LEN <= |s| {
      assert s[..SHA_LEN][|digits|] == tail[0];
    } else if |digits| > SHA_LEN {
      assert s[SHA_LEN] == digits[SHA_LEN];
    }
  }

  /** A run of any other length is copied. */
  lemma OtherRunIsCopied(digits: string, tail: string)
    requires digits != "" && AllHex(digits) && |digits| != SHA_LEN && NoHexFirst(tail)
    ensures Substitute(digits + tail, false) == digits + Substitute(tail, true)
  {
    OtherRunDoesNotMatch(digits, tail);
    assert (digits + tail)[1..] == digits[1..] + tail;
    RestOfRunIsCopied(digits[1..], tail);
    FirstAndRest(digits, Substitute(tail, true));
  }

  lemma RunIsShortened(digits: string, tail: string)
    requires digits != "" && AllHex(digits) && NoHexFirst(tail)
    ensures Substitute(digits + tail, false) == PieceText(ShortPiece(Run(digits))) + Substitute(tail, false)
  {
    FrontDoesNotMatter(tail);
    if |digits| == SHA_LEN { FullRunIsCut(digits, tail); } else { OtherRunIsCopied(digits, tail); }
  }

  lemma {:induction false} SubstituteIs(s: string)
    ensures Substitute(s, false) == Joined(ShortPieces(Pieces(s)))
    decreases |s|
  {
    if s != "" {
      var n := RunLength(s);
      if n == 0 {
        SubstituteIs(s[1..]);
        assert [s[0]] + s[1..] == s;
        OtherIsCopied(s[0], s[1..], false);
        ShortPiecesOfCons(Other(s[0]), Pieces(s[1..]));
      } else {
        SubstituteIs(s[n..]);
        assert s[..n] + s[n..] == s;
        RunIsShortened(s[..n], s[n..]);
        ShortPiecesOfCons(Run(s[..n]), Pieces(s[n..]));
      }
    }
  }

  lemma ShortPiecesOfCons(p: Piece, ps: seq<Piece>)
    ensures Joined(ShortPieces([p] + ps)) == PieceText(ShortPiece(p)) + Joined(ShortPieces(ps))
  {
    assert ([p] + ps)[1..] == ps;
    assert ([ShortPiece(p)] + ShortPieces(ps))[1..] == ShortPieces(ps);
  }

  lemma ShortPiecesOk(ps: seq<Piece>)
    requires PiecesOk(ps)
    ensures PiecesOk(ShortPieces(ps))
  {
    var qs := ShortPieces(ps);
    forall i | 0 <= i < |qs| ensures PieceOk(qs[i]) {
      assert PieceOk(ps[i]);
    }
  }

  /** Shortening acts on the pieces one by one: every run of exactly 40 digits becomes its
      first 12, every other run and character stays, in the same order. */
  lemma ShortenActsOnPieces(s: string)
    ensures Pieces(Shorten(s)) == ShortPieces(Pieces(s))
  {
    SubstituteIs(s);
    PiecesAreOk(s);
    ShortPiecesOk(Pieces(s));
    PiecesOfJoined(ShortPieces(Pieces(s)));
  }

  /** The text has a maximal hexadecimal run of commit-id length. */
  predicate HasFullSha(s: string) {
    exists i :: 0 <= i < |Pieces(s)| && IsSha(Pieces(s)[i])
  }

  predicate IsSha(p: Piece) {
    p.Run? && |p.digits| == SHA_LEN
  }

  /** No full commit id is left, and shortening again changes nothing. A text without one is
      not touched at all. */
  lemma ShortenRemovesThemAll(s: string)
    ensures !HasFullSha(Shorten(s))
    ensures Shorten(Shorten(s)) == Shorten(s)
    ensures !HasFullSha(s) <==> Shorten(s) == s
  {
    ShortenActsOnPieces(s);
    KeptWithoutSha(Shorten(s));
    if !HasFullSha(s) { KeptWithoutSha(s); }
  }

  lemma KeptWithoutSha(s: string)
    requires !HasFullSha(s)
    ensures Shorten(s) == s
  {
    var ps := Pieces(s);
    ShortenActsOnPieces(s);
    assert ShortPieces(ps) == ps by {
      forall i | 0 <= i < |ps| ensures ShortPiece(ps[i]) == ps[i] { assert !IsSha(ps[i]); }
    }
    JoinedPieces(s);
    JoinedPieces(Shorten(s));
  }

  function ShaCount(ps: seq<Piece>): nat {
    if ps == [] then 0 else (if IsSha(ps[0]) then 1 else 0) + ShaCount(ps[1..])
  }

  predicate Digit(c: char) {
    '0' <= c <= '9' || 'a' <= c <= 'f' || 'A' <= c <= 'F'
  }

  /** A run of digits, in either letter case, between two characters that are none: forty of
      them become the first twelve, and any other number stays. */
  lemma LoneRun(before: char, digits: string, behind: char)
    requires digits != "" && (forall i :: 0 <= i < |digits| ==> Digit(digits[i])) && !Digit(before) && !Digit(behind)
    ensures Shorten([before] + digits + [behind]) ==
            [before] + (if |digits| == 40 then digits[..12] else digits) + [behind]
  {
    assert AllHex(digits) && !IsHex(before) && !IsHex(behind);
    assert [before] + digits + [behind] == [before] + (digits + [behind]);
    OtherIsCopied(before, digits + [behind], false);
    RunIsShortened(digits, [behind]);
    OtherIsCopied(behind, "", false);
    assert [behind] + "" == [behind];
  }

  lemma {:induction false} JoinedLength(ps: seq<Piece>)
    ensures |Joined(ShortPieces(ps))| + 28 * ShaCount(ps) == |Joined(ps)|
  {
    if ps != [] {
      JoinedLength(ps[1..]);
      assert ps == [ps[0]] + ps[1..];
      ShortPiecesOfCons(ps[0], ps[1..]);
    }
  }

  /** Each hit takes 28 characters away. */
  lemma ShortenLength(s: string)
    ensures |Shorten(s)| == |s| - 28 * ShaCount(Pieces(s))
  {
    JoinedLength(Pieces(s));
    JoinedPieces(s);
    SubstituteIs(s);
  }

  // ------------------------------------------------------------ inside a JSON text

  lemma {:induction false} HexIsNotEscaped(digits: string)
    requires AllHex(digits)
    ensures FlatJson.Escaped(digits) == digits
  {
    if digits != "" {
      HexIsNotEscaped(digits[1..]);
      assert [digits[0]] + digits[1..] == digits;
    }
  }

  lemma BehindBackspace(digits: string)
    requires AllHex(digits) && |digits| == SHA_LEN
    ensures HasFullSha([8 as char] + digits)
  {
    var ps := [Other(8 as char)] + ([Run(digits)] + []);
    JoinedCons(Run(digits), []);
    JoinedCons(Other(8 as char), [Run(digits)] + []);
    PiecesOfJoined(ps);
    assert IsSha(ps[1]);
    assert digits + "" == digits;
  }

  lemma QuotedRunIsKept(long: string)
    requires AllHex(long) && |long| == SHA_LEN + 1
    ensures Shorten("\"" + ("\\" + (long + "\""))) == "\"" + ("\\" + (long + "\""))
  {
    var p3 := [Other('"')] + [];
    var p2 := [Run(long)] + p3;
    var p1 := [Other('\\')] + p2;
    var ps := [Other('"')] + p1;
    JoinedCons(Other('"'), []);
    JoinedCons(Run(long), p3);
    JoinedCons(Other('\\'), p2);
    JoinedCons(Other('"'), p1);
    PiecesOfJoined(ps);
    assert ps == [Other('"'), Other('\\'), Run(long), Other('"')];
    assert forall i :: 0 <= i < |ps| ==> !IsSha(ps[i]);
    KeptWithoutSha(Joined(ps));
    assert Joined([]) == "" && "\"" + "" == "\"";
    assert Joined(ps) == "\"" + ("\\" + (long + "\""));
  }

  /** A report is sanitised as JSON text. Behind an escape that ends in a hexadecimal digit,
      such as that of a backspace, a commit id is part of a longer run: it is kept, and the
      decoded text holds it. */
  lemma DecodedTextMayKeepOne(digits: string)
    requires AllHex(digits) && |digits| == SHA_LEN
    ensures var text := [8 as char] + digits;
            HasFullSha(text) && Shorten(FlatJson.PrintText(text)) == FlatJson.PrintText(text)
  {
    hide Shorten, HasFullSha;
    var text := [8 as char] + digits;
    BehindBackspace(digits);
    HexIsNotEscaped(digits);
    assert text[1..] == digits;
    var long := "b" + digits;
    assert FlatJson.PrintText(text) == "\"" + ("\\" + (long + "\""));
    QuotedRunIsKept(long);
  }
}
