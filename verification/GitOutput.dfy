/**
  What git prints about file names (`core.quotePath` unset) and what is left of it once a
  script has stripped its output.
 */
module GitOutput {
  import opened Common
  import opened PathText

  // --------------------------------------------------------------------- stripping

  const WHITESPACE: set<char> :=
    {' ', '\t', '\n', '\r', 11 as char, 12 as char, 28 as char, 29 as char, 30 as char, 31 as char}

  function StripLeft(s: string, cs: set<char>): (r: string)
    ensures |r| <= |s| && (r != "" ==> r[0] !in cs)
  {
    if s != "" && s[0] in cs then StripLeft(s[1..], cs) else s
  }

  function StripRight(s: string, cs: set<char>): (r: string)
    ensures |r| <= |s|
  {
    if s != "" && s[|s| - 1] in cs then StripRight(s[..|s| - 1], cs) else s
  }

  function Strip(s: string, cs: set<char>): (r: string)
    ensures |r| <= |s|
  {
    StripRight(StripLeft(s, cs), cs)
  }

  /** Stripping a whole output takes blank lines off both ends, and the blanks in front of
      the first line and behind the last. */
  function StripFront(lines: seq<string>): seq<string> {
    if lines == [] then []
    else if StripLeft(lines[0], WHITESPACE) == "" then StripFront(lines[1..])
    else [StripLeft(lines[0], WHITESPACE)] + lines[1..]
  }

  function StripBack(lines: seq<string>): seq<string> {
    if lines == [] then []
    else
      var last := |lines| - 1;
      if StripRight(lines[last], WHITESPACE) == "" then StripBack(lines[..last])
      else lines[..last] + [StripRight(lines[last], WHITESPACE)]
  }

  function StripLines(lines: seq<string>): seq<string> {
    StripBack(StripFront(lines))
  }

  /** The first line that is not blank, or the number of lines. */
  function FirstKept(lines: seq<string>): (i: nat)
    ensures i <= |lines| && (i < |lines| ==> !Blank(lines[i]))
  {
    if lines == [] || !Blank(lines[0]) then 0 else 1 + FirstKept(lines[1..])
  }

  /** The number of lines up to the last that is not blank. */
  function LastKept(lines: seq<string>): (n: nat)
    ensures n <= |lines| && (n > 0 ==> !Blank(lines[n - 1]))
  {
    if lines == [] then 0
    else
      var last := |lines| - 1;
      if !Blank(lines[last]) then |lines| else LastKept(lines[..last])
  }

  lemma {:induction false} BetweenFirstAndLast(lines: seq<string>, i: nat)
    requires i < |lines| && !Blank(lines[i])
    ensures FirstKept(lines) <= i < LastKept(lines)
  {
    NotBeforeFirst(lines, i);
    NotBehindLast(lines, i);
  }

  lemma {:induction false} NotBeforeFirst(lines: seq<string>, i: nat)
    requires i < |lines| && !Blank(lines[i])
    ensures FirstKept(lines) <= i
  {
    if i > 0 { NotBeforeFirst(lines[1..], i - 1); }
  }

  lemma {:induction false} NotBehindLast(lines: seq<string>, i: nat)
    requires i < |lines| && !Blank(lines[i])
    ensures i < LastKept(lines)
  {
    if i < |lines| - 1 { NotBehindLast(lines[..|lines| - 1], i); }
  }

  /** What stripping leaves of the `i`-th line. */
  function CutLine(lines: seq<string>, i: nat): string
    requires i < |lines|
  {
    CutEnds(lines[i], i == FirstKept(lines), i == LastKept(lines) - 1)
  }

  function CutEnds(line: string, first: bool, last: bool): string {
    var s := if first then StripLeft(line, WHITESPACE) else line;
    if last then StripRight(s, WHITESPACE) else s
  }

  lemma {:induction false} BlankOnTheLeft(s: string)
    ensures StripLeft(s, WHITESPACE) == "" <==> Blank(s)
    ensures Blank(StripLeft(s, WHITESPACE)) <==> Blank(s)
  {
    if s != "" && s[0] in WHITESPACE {
      BlankOnTheLeft(s[1..]);
      assert Blank(s) <==> Blank(s[1..]) by {
        assert forall i :: 0 <= i < |s[1..]| ==> s[1..][i] == s[i + 1];
        if Blank(s[1..]) {
          forall i | 0 <= i < |s| ensures IsSpace(s[i]) { if i > 0 { assert IsSpace(s[1..][i - 1]); } }
        }
      }
    } else if s != "" {
      assert !IsSpace(s[0]);
    }
  }

  lemma {:induction false} BlankOnTheRight(s: string)
    ensures StripRight(s, WHITESPACE) == "" <==> Blank(s)
    ensures Blank(StripRight(s, WHITESPACE)) <==> Blank(s)
  {
    if s != "" && s[|s| - 1] in WHITESPACE {
      BlankOnTheRight(s[..|s| - 1]);
    } else if s != "" {
      assert !IsSpace(s[|s| - 1]);
    }
  }

  lemma {:induction false} StripFrontIs(lines: seq<string>)
    ensures var i := FirstKept(lines);
            StripFront(lines) == if i == |lines| then [] else [StripLeft(lines[i], WHITESPACE)] + lines[i + 1..]
  {
    if lines != [] {
      BlankOnTheLeft(lines[0]);
      if Blank(lines[0]) {
        StripFrontIs(lines[1..]);
        var i := FirstKept(lines[1..]);
        if i < |lines[1..]| { assert lines[1..][i + 1..] == lines[i + 2..]; }
      }
    }
  }

  lemma {:induction false} StripBackIs(lines: seq<string>)
    ensures var n := LastKept(lines);
            StripBack(lines) == if n == 0 then [] else lines[..n - 1] + [StripRight(lines[n - 1], WHITESPACE)]
  {
    if lines != [] {
      var last := |lines| - 1;
      BlankOnTheRight(lines[last]);
      if Blank(lines[last]) {
        StripBackIs(lines[..last]);
        var n := LastKept(lines[..last]);
        if n > 0 { assert lines[..last][..n - 1] == lines[..n - 1]; }
      }
    }
  }

  lemma {:induction false} LastKeptOfTail(lines: seq<string>, i: nat, first: string)
    requires i < |lines| && !Blank(lines[i]) && !Blank(first)
    ensures i < LastKept(lines) && LastKept([first] + lines[i + 1..]) == LastKept(lines) - i
  {
    hide Blank;
    NotBehindLast(lines, i);
    var front, last := [first] + lines[i + 1..], |lines| - 1;
    assert front[|front| - 1] == if i == last then first else lines[last];
    if Blank(lines[last]) {
      LastKeptOfTail(lines[..last], i, first);
      assert front[..|front| - 1] == [first] + lines[..last][i + 1..];
    }
  }

  lemma FrontKeepsLast(lines: seq<string>, front: seq<string>)
    requires FirstKept(lines) < |lines|
    requires front == [StripLeft(lines[FirstKept(lines)], WHITESPACE)] + lines[FirstKept(lines) + 1..]
    ensures FirstKept(lines) < LastKept(lines) && LastKept(front) == LastKept(lines) - FirstKept(lines)
  {
    var i := FirstKept(lines);
    BlankOnTheLeft(lines[i]);
    LastKeptOfTail(lines, i, StripLeft(lines[i], WHITESPACE));
  }

  lemma AtFront(lines: seq<string>, i: nat, first: string, j: nat)
    requires i <= j < |lines|
    ensures var front := [first] + lines[i + 1..];
            |front| == |lines| - i && front[j - i] == if j == i then first else lines[j]
  {}

  lemma AtBack(front: seq<string>, n: nat, last: string, k: nat)
    requires k < n <= |front|
    ensures (front[..n - 1] + [last])[k] == if k == n - 1 then last else front[k]
  {}

  lemma FrontIs(lines: seq<string>, front: seq<string>)
    requires FirstKept(lines) < |lines|
    requires front == [StripLeft(lines[FirstKept(lines)], WHITESPACE)] + lines[FirstKept(lines) + 1..]
    ensures StripLines(lines) == StripBack(front)
  {
    StripFrontIs(lines);
  }

  lemma StrippedLineIs(lines: seq<string>, j: nat)
    requires FirstKept(lines) <= j < LastKept(lines)
    ensures |StripLines(lines)| == LastKept(lines) - FirstKept(lines)
    ensures StripLines(lines)[j - FirstKept(lines)] == CutLine(lines, j)
  {
    hide StripLines, StripFront, StripBack, StripLeft, StripRight, FirstKept, LastKept, Blank;
    var i, n := FirstKept(lines), LastKept(lines) - FirstKept(lines);
    var first := StripLeft(lines[i], WHITESPACE);
    var front := [first] + lines[i + 1..];
    FrontKeepsLast(lines, front);
    FrontIs(lines, front);
    StripBackIs(front);
    AtFront(lines, i, first, j);
    AtFront(lines, i, first, i + n - 1);
    AtBack(front, n, StripRight(front[n - 1], WHITESPACE), j - i);
  }

  lemma NothingKept(lines: seq<string>)
    requires FirstKept(lines) == |lines|
    ensures StripLines(lines) == []
  {
    StripFrontIs(lines);
  }

  lemma SomethingKept(lines: seq<string>)
    requires FirstKept(lines) < |lines|
    ensures |StripLines(lines)| == LastKept(lines) - FirstKept(lines)
  {
    BetweenFirstAndLast(lines, FirstKept(lines));
    StrippedLineIs(lines, FirstKept(lines));
  }

  /** Stripping keeps the lines from the first to the last that is not blank, cut at both ends. */
  lemma StrippedIsCut(lines: seq<string>, k: nat)
    requires k < |StripLines(lines)|
    ensures FirstKept(lines) + k < LastKept(lines)
    ensures StripLines(lines)[k] == CutLine(lines, FirstKept(lines) + k)
  {
    if FirstKept(lines) == |lines| { NothingKept(lines); }
    SomethingKept(lines);
    StrippedLineIs(lines, FirstKept(lines) + k);
  }

  function NonBlank(lines: seq<string>): (kept: seq<string>)
    ensures forall p :: p in kept <==> !Blank(p) && p in lines
  {
    if lines == [] then []
    else
      var last := |lines| - 1;
      NonBlank(lines[..last]) + if Blank(lines[last]) then [] else [lines[last]]
  }

  lemma CutIsBlank(lines: seq<string>, i: nat)
    requires i < |lines|
    ensures Blank(CutLine(lines, i)) <==> Blank(lines[i])
  {
    BlankOnTheLeft(lines[i]);
    BlankOnTheRight(lines[i]);
    BlankOnTheRight(StripLeft(lines[i], WHITESPACE));
  }

  /** The `i`-th line is read as `r`. */
  predicate KeptAs(lines: seq<string>, i: nat, r: string) {
    i < |lines| && !Blank(lines[i]) && CutLine(lines, i) == r
  }

  lemma IndexIn(lines: seq<string>, r: string) returns (k: nat)
    requires r in lines
    ensures k < |lines| && lines[k] == r
  {
    k :| 0 <= k < |lines| && lines[k] == r;
  }

  lemma KeptLineIs(lines: seq<string>, r: string) returns (i: nat)
    requires r in NonBlank(StripLines(lines))
    ensures KeptAs(lines, i, r)
  {
    hide StripLines, StripFront, StripBack, CutLine, NonBlank, FirstKept, LastKept;
    var k := IndexIn(StripLines(lines), r);
    StrippedIsCut(lines, k);
    i := FirstKept(lines) + k;
    CutIsBlank(lines, i);
  }

  lemma LineIsKept(lines: seq<string>, i: nat, r: string)
    requires KeptAs(lines, i, r)
    ensures r in NonBlank(StripLines(lines))
  {
    CutIsBlank(lines, i);
    BetweenFirstAndLast(lines, i);
    StrippedLineIs(lines, i);
  }

  /** A script that strips the output and skips blank lines reads each line that is not
      blank, cut where it stands at an end. */
  lemma KeptLines(lines: seq<string>, r: string)
    ensures r in NonBlank(StripLines(lines)) <==> exists i: nat :: KeptAs(lines, i, r)
  {
    if r in NonBlank(StripLines(lines)) { var i := KeptLineIs(lines, r); }
    if exists i: nat :: KeptAs(lines, i, r) {
      var i: nat :| KeptAs(lines, i, r);
      LineIsKept(lines, i, r);
    }
  }

  // ---------------------------------------------------------------------- counting

  /** How many characters of `s` are in `cs`. */
  function Count(s: string, cs: set<char>): nat {
    if s == "" then 0 else (if s[0] in cs then 1 else 0) + Count(s[1..], cs)
  }

  lemma {:induction false} CountConcat(a: string, b: string, cs: set<char>)
    ensures Count(a + b, cs) == Count(a, cs) + Count(b, cs)
  {
    if a == "" {
      assert a + b == b;
    } else {
      CountConcat(a[1..], b, cs);
      assert (a + b)[1..] == a[1..] + b;
    }
  }

  lemma {:induction false} CountStripLeft(s: string, cut: set<char>, cs: set<char>)
    requires cut !! cs
    ensures Count(StripLeft(s, cut), cs) == Count(s, cs)
  {
    if s != "" && s[0] in cut { CountStripLeft(s[1..], cut, cs); }
  }

  lemma {:induction false} CountStripRight(s: string, cut: set<char>, cs: set<char>)
    requires cut !! cs
    ensures Count(StripRight(s, cut), cs) == Count(s, cs)
  {
    if s != "" && s[|s| - 1] in cut {
      CountStripRight(s[..|s| - 1], cut, cs);
      CountConcat(s[..|s| - 1], [s[|s| - 1]], cs);
      assert s[..|s| - 1] + [s[|s| - 1]] == s;
    }
  }

  lemma CountStrip(s: string, cut: set<char>, cs: set<char>)
    requires cut !! cs
    ensures Count(Strip(s, cut), cs) == Count(s, cs)
  {
    CountStripLeft(s, cut, cs);
    CountStripRight(StripLeft(s, cut), cut, cs);
  }

  // ----------------------------------------------------------------------- quoting

  /** A character that git does not print as it is. */
  predicate Special(c: char) {
    c as int < 32 || c as int >= 127 || c == '"' || c == '\\'
  }

  predicate HasSpecial(p: string) {
    exists i :: 0 <= i < |p| && Special(p[i])
  }

  /** One byte in octal. */
  function Octal(n: nat): (s: string)
    requires n < 256
    ensures |s| == 4 && s[0] == '\\' && forall i :: 1 <= i < 4 ==> '0' <= s[i] <= '7'
  {
    ['\\', '0' + (n / 64) as char, '0' + (n / 8 % 8) as char, '0' + (n % 8) as char]
  }

  /** The bytes of a character behind ASCII in UTF-8 (section 3 of RFC 3629). */
  function Bytes(c: char): (s: string)
    ensures s != "" && s[0] == '\\'
    ensures forall i :: 0 <= i < |s| ==> s[i] == '\\' || '0' <= s[i] <= '7'
  {
    var n := c as nat;
    if n < 128 then Octal(n)
    else if n < 0x800 then Octal(192 + n / 64) + Octal(128 + n % 64)
    else if n < 0x10000 then Octal(224 + n / 4096) + (Octal(128 + n / 64 % 64) + Octal(128 + n % 64))
    else
      Octal(240 + n / 262144) + (Octal(128 + n / 4096 % 64) + (Octal(128 + n / 64 % 64) + Octal(128 + n % 64)))
  }

  function EscapeChar(c: char): (s: string)
    ensures Special(c) ==> s != "" && s[0] == '\\'
    ensures Special(c) ==> forall i :: 0 <= i < |s| ==> s[i] != ' ' && s[i] != '>'
    ensures !Special(c) ==> s == [c]
  {
    if !Special(c) then [c]
    else if c == '"' then "\\\""
    else if c == '\\' then "\\\\"
    else if c as int == 7 then "\\a"
    else if c as int == 8 then "\\b"
    else if c == '\t' then "\\t"
    else if c == '\n' then "\\n"
    else if c as int == 11 then "\\v"
    else if c as int == 12 then "\\f"
    else if c == '\r' then "\\r"
    else Bytes(c)
  }

  function Escapes(p: string): string {
    if p == "" then "" else EscapeChar(p[0]) + Escapes(p[1..])
  }

  /** A name in `git diff --name-only` and `git ls-files`. */
  function Quote(p: string): string {
    if HasSpecial(p) then "\"" + (Escapes(p) + "\"") else p
  }

  /** A name in `git status --porcelain=v1`, which also quotes names with a blank. */
  function QuoteBlank(p: string): string {
    if HasSpecial(p) || ' ' in p then "\"" + (Escapes(p) + "\"") else p
  }

  lemma {:induction false} NothingToEscape(p: string)
    requires !HasSpecial(p)
    ensures Escapes(p) == p
  {
    if p != "" {
      assert !Special(p[0]);
      forall i | 0 <= i < |p[1..]| ensures !Special(p[1..][i]) { assert p[1..][i] == p[i + 1]; }
      NothingToEscape(p[1..]);
      assert [p[0]] + p[1..] == p;
    }
  }

  const SLASHES: set<char> := {'/', '\\'}

  function SpecialCount(p: string): nat {
    if p == "" then 0 else (if Special(p[0]) then 1 else 0) + SpecialCount(p[1..])
  }

  lemma {:induction false} SomeSpecial(p: string)
    requires HasSpecial(p)
    ensures SpecialCount(p) > 0
  {
    var i :| 0 <= i < |p| && Special(p[i]);
    if !Special(p[0]) {
      assert p[1..][i - 1] == p[i];
      SomeSpecial(p[1..]);
    }
  }

  lemma EscapeCounts(c: char)
    ensures Count(EscapeChar(c), SLASHES) >= Count([c], SLASHES) + (if Special(c) then 1 else 0)
    ensures Count(EscapeChar(c), {'>'}) == Count([c], {'>'})
  {
    if Special(c) {
      NoneCounted(EscapeChar(c), {'>'});
      if c == '\\' {
        assert Count("\\\\", SLASHES) == 1 + Count("\\\\"[1..], SLASHES) && "\\\\"[1..] == "\\";
        assert Count("\\", SLASHES) == 1 && Count([c], SLASHES) == 1;
      } else {
        assert Count([c], SLASHES) == 0;
      }
      assert Count([c], {'>'}) == 0;
    }
  }

  lemma {:induction false} NoneCounted(s: string, cs: set<char>)
    requires forall i :: 0 <= i < |s| ==> s[i] !in cs
    ensures Count(s, cs) == 0
  {
    if s != "" { NoneCounted(s[1..], cs); }
  }

  /** Every escape adds a backslash, and none adds or hides a '>'. */
  lemma {:induction false} EscapesCount(p: string)
    ensures Count(Escapes(p), SLASHES) >= Count(p, SLASHES) + SpecialCount(p)
    ensures Count(Escapes(p), {'>'}) == Count(p, {'>'})
  {
    if p != "" {
      EscapesCount(p[1..]);
      EscapeCounts(p[0]);
      CountConcat(EscapeChar(p[0]), Escapes(p[1..]), SLASHES);
      CountConcat(EscapeChar(p[0]), Escapes(p[1..]), {'>'});
      CountConcat([p[0]], p[1..], SLASHES);
      CountConcat([p[0]], p[1..], {'>'});
      assert [p[0]] + p[1..] == p;
    }
  }

  lemma QuoteCounts(p: string)
    ensures Count("\"" + (Escapes(p) + "\""), SLASHES) >= Count(p, SLASHES) + SpecialCount(p)
    ensures Count(Escapes(p) + "\"", SLASHES) >= Count(p, SLASHES) + SpecialCount(p)
    ensures Count("\"" + (Escapes(p) + "\""), {'>'}) == Count(p, {'>'})
    ensures Count(Escapes(p) + "\"", {'>'}) == Count(p, {'>'})
  {
    EscapesCount(p);
    NoneCounted("\"", SLASHES);
    NoneCounted("\"", {'>'});
    CountConcat(Escapes(p), "\"", SLASHES);
    CountConcat(Escapes(p), "\"", {'>'});
    CountConcat("\"", Escapes(p) + "\"", SLASHES);
    CountConcat("\"", Escapes(p) + "\"", {'>'});
  }

  // ------------------------------------------------------------------------ arrows

  const ARROW: string := " -> "

  predicate HasArrow(s: string) {
    s != "" && (ARROW <= s || HasArrow(s[1..]))
  }

  /** `s.split(" -> ", 1)[1]` when there is an arrow, else `s`. */
  function AfterArrow(s: string): (r: string)
    ensures |r| <= |s|
    ensures HasArrow(s) ==> |r| + |ARROW| <= |s|
    ensures !HasArrow(s) ==> r == s
  {
    if !HasArrow(s) then s else if ARROW <= s then s[|ARROW|..] else AfterArrow(s[1..])
  }

  /** In front of an arrow stands a text without one, not even with the arrow's first blank. */
  lemma {:induction false} ArrowIsFound(a: string, b: string)
    requires !HasArrow(a + " ")
    ensures HasArrow(a + (ARROW + b)) && AfterArrow(a + (ARROW + b)) == b
  {
    var s := a + (ARROW + b);
    if a == "" {
      assert s == ARROW + b && ARROW <= s && s[|ARROW|..] == b;
    } else {
      assert s[1..] == a[1..] + (ARROW + b);
      assert (a + " ")[1..] == a[1..] + " ";
      ArrowIsFound(a[1..], b);
      NoEarlierArrow(a, b);
    }
  }

  lemma NoEarlierArrow(a: string, b: string)
    requires a != "" && !(ARROW <= a + " ")
    ensures !(ARROW <= a + (ARROW + b))
  {
    var s := a + (ARROW + b);
    if |a| >= 3 {
      assert s[..4] == (a + " ")[..4];
    } else if |a| == 2 {
      assert s[2] == ' ' && ARROW[2] == '>';
    } else {
      assert s[1] == ' ' && ARROW[1] == '-';
    }
  }

  /** An earlier arrow wins. */
  lemma {:induction false} FirstArrowWins(a: string, b: string)
    requires HasArrow(a)
    ensures HasArrow(a + b) && AfterArrow(a + b) == AfterArrow(a) + b
  {
    if ARROW <= a {
      assert (a + b)[..|ARROW|] == a[..|ARROW|];
      assert (a + b)[|ARROW|..] == a[|ARROW|..] + b;
    } else {
      assert (a + b)[1..] == a[1..] + b;
      FirstArrowWins(a[1..], b);
      if ARROW <= a + b {
        ArrowIsShorter(a, b);
      }
    }
  }

  lemma ArrowIsShorter(a: string, b: string)
    requires HasArrow(a) && ARROW <= a + b
    ensures ARROW <= a
  {
    HasArrowIsLong(a);
    assert (a + b)[..|ARROW|] == a[..|ARROW|];
  }

  lemma {:induction false} HasArrowIsLong(a: string)
    requires HasArrow(a)
    ensures |a| >= |ARROW|
  {
    if !(ARROW <= a) { HasArrowIsLong(a[1..]); }
  }

  /** No arrow crosses a quote. */
  lemma {:induction false} ArrowsAndQuotes(a: string, b: string)
    ensures HasArrow(a + ("\"" + b)) <==> HasArrow(a) || HasArrow(b)
  {
    var s := a + ("\"" + b);
    if a == "" {
      assert s[0] == '"' && s[1..] == b;
    } else {
      assert s[1..] == a[1..] + ("\"" + b);
      ArrowsAndQuotes(a[1..], b);
      assert ARROW <= s <==> ARROW <= a by {
        if |a| >= 4 { assert s[..4] == a[..4]; } else { assert s[|a|] == '"'; }
      }
    }
  }

  lemma NoBlankNoArrow(s: string)
    requires ' ' !in s
    ensures !HasArrow(s + " ") && !HasArrow(s)
  {
    NoBlankNoArrowBefore(s);
  }

  lemma {:induction false} NoBlankNoArrowBefore(s: string)
    requires ' ' !in s
    ensures !HasArrow(s + " ") && !HasArrow(s)
  {
    if s == "" {
      assert "" + " " == " " && " "[1..] == "";
    } else {
      assert (s + " ")[1..] == s[1..] + " ";
      assert (s + " ")[0] == s[0] && s[0] in s;
      NoBlankNoArrowBefore(s[1..]);
    }
  }

  lemma PrefixCons(w: string, s: string)
    requires w != "" && s != ""
    ensures w <= s <==> w[0] == s[0] && w[1..] <= s[1..]
  {
    if w[0] == s[0] && w[1..] <= s[1..] { assert s == [s[0]] + s[1..] && w == [w[0]] + w[1..]; }
  }

  /** Escaping neither makes nor hides plain text at the front. */
  lemma {:induction false} PrefixIsKept(w: string, p: string)
    requires !HasSpecial(w)
    ensures w <= Escapes(p) <==> w <= p
  {
    if w != "" && p != "" {
      assert !Special(w[0]);
      forall i | 0 <= i < |w[1..]| ensures !Special(w[1..][i]) { assert w[1..][i] == w[i + 1]; }
      PrefixIsKept(w[1..], p[1..]);
      PrefixCons(w, p);
      PrefixCons(w, Escapes(p));
      assert !Special(p[0]) ==> Escapes(p)[1..] == Escapes(p[1..]);
    }
  }

  lemma {:induction false} ArrowsAreKept(p: string)
    ensures HasArrow(Escapes(p)) <==> HasArrow(p)
  {
    if p != "" {
      ArrowsAreKept(p[1..]);
      PrefixIsKept(ARROW, p);
      if Special(p[0]) {
        NoArrowInside(EscapeChar(p[0]), Escapes(p[1..]));
      } else {
        assert Escapes(p)[1..] == Escapes(p[1..]);
      }
    }
  }

  lemma {:induction false} NoArrowInside(a: string, b: string)
    requires forall i :: 0 <= i < |a| ==> a[i] != ' '
    ensures HasArrow(a + b) <==> HasArrow(b)
  {
    if a == "" {
      assert a + b == b;
    } else {
      assert (a + b)[1..] == a[1..] + b;
      NoArrowInside(a[1..], b);
      assert (a + b)[0] == a[0];
    }
  }

  /** A quoted name has the arrows of the name, with or without its first quote. */
  lemma QuotedArrows(p: string)
    ensures HasArrow("\"" + (Escapes(p) + "\"")) <==> HasArrow(p)
    ensures HasArrow(Escapes(p) + "\"") <==> HasArrow(p)
    ensures HasArrow("\"" + (Escapes(p) + "\"") + " ") <==> HasArrow(p)
    ensures HasArrow(Escapes(p) + "\"" + " ") <==> HasArrow(p)
  {
    var e := Escapes(p);
    ArrowsAreKept(p);
    ArrowsAndQuotes(e, "");
    assert "\"" + "" == "\"" && !HasArrow("");
    ArrowsAndQuotes(e, " ");
    NoBlankNoArrow("");
    assert "" + " " == " ";
    assert e + "\"" + " " == e + ("\"" + " ");
    NoArrowInside("\"", e + "\"");
    NoArrowInside("\"", e + "\"" + " ");
    assert "\"" + (e + "\"") + " " == "\"" + (e + "\"" + " ");
  }

  /** Nothing in front of an arrow is counted after it. */
  lemma {:induction false} AfterArrowCounts(s: string)
    requires HasArrow(s)
    ensures Count(AfterArrow(s), {'>'}) < Count(s, {'>'})
  {
    if ARROW <= s {
      CountConcat(s[..|ARROW|], s[|ARROW|..], {'>'});
      assert s[..|ARROW|] + s[|ARROW|..] == s && s[..|ARROW|] == ARROW;
      ArrowCount();
    } else {
      AfterArrowCounts(s[1..]);
    }
  }

  lemma ArrowCount()
    ensures Count(ARROW, {'>'}) == 1
  {
    assert ARROW == " -" + "> ";
    CountConcat(" -", "> ", {'>'});
    NoneCounted(" -", {'>'});
    assert "> "[1..] == " ";
    NoneCounted(" ", {'>'});
  }
}
