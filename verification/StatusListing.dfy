/** Reading changed paths off `git status --porcelain=v1 -uall`. */
module StatusListing {
  import opened Common
  import opened PathText
  import opened GitOutput

  /** What is read off a name as it stands in a line. */
  function Read(shown: string): (path: string)
    ensures |path| <= |shown|
  {
    NormalizePath(Strip(Strip(shown, WHITESPACE), {'"'}))
  }

  /** The path read off a line; of a renamed file it is what stands behind the first arrow. */
  function PathOf(line: string): string {
    Read(AfterArrow(if |line| >= 3 then line[3..] else ""))
  }

  /** The directive gate keeps the paths that are not empty. */
  function ChangedPaths(lines: seq<string>): set<string> {
    (set line | line in lines && line != "" :: PathOf(line)) - {""}
  }

  lemma OneMoreLine(lines: seq<string>, line: string)
    ensures ChangedPaths(lines + [line]) ==
            ChangedPaths(lines) + (if line == "" || PathOf(line) == "" then {} else {PathOf(line)})
  {
    var before, now := ChangedPaths(lines), ChangedPaths(lines + [line]);
    forall p ensures p in now <==> p in before || (line != "" && PathOf(line) != "" && p == PathOf(line)) {
      if p in before {
        var l :| l in lines && l != "" && PathOf(l) == p;
        assert l in lines + [line];
      }
      if p == PathOf(line) && line != "" && p != "" { assert line in lines + [line]; }
    }
  }

  /** `get_changed_files` of the directive gate, once git answered. */
  method GetChangedFiles(lines: seq<string>) returns (changed: set<string>)
    ensures changed == ChangedPaths(lines)
  {
    changed := {};
    for i := 0 to |lines|
      invariant changed == ChangedPaths(lines[..i])
    {
      var line := lines[i];
      assert lines[..i + 1] == lines[..i] + [line];
      OneMoreLine(lines[..i], line);
      if line != "" {
        var path := PathOf(line);
        if path != "" { changed := changed + {path}; }
      }
    }
    assert lines[..|lines|] == lines;
  }

  function ReadPaths(lines: seq<string>): set<string> {
    set line | line in lines && line != "" :: PathOf(line)
  }

  /** `changed_paths` of the worker gate: it strips git's whole output first. */
  function WorkerChangedPaths(lines: seq<string>): set<string> {
    ReadPaths(StripLines(lines))
  }

  lemma OneMoreRead(lines: seq<string>, line: string)
    ensures ReadPaths(lines + [line]) == ReadPaths(lines) + (if line == "" then {} else {PathOf(line)})
  {
    var all := lines + [line];
    assert line in all;
    assert forall l :: l in all <==> l in lines || l == line;
  }

  /** The loop of `changed_paths`, over the lines of the stripped output. */
  method CollectChangedPaths(lines: seq<string>) returns (paths: set<string>)
    ensures paths == WorkerChangedPaths(lines)
  {
    paths := {};
    var stripped := StripLines(lines);
    for i := 0 to |stripped|
      invariant paths == ReadPaths(stripped[..i])
    {
      assert stripped[..i + 1] == stripped[..i] + [stripped[i]];
      OneMoreRead(stripped[..i], stripped[i]);
      if stripped[i] != "" { paths := paths + {PathOf(stripped[i])}; }
    }
    assert stripped[..|stripped|] == stripped;
  }

  // ----------------------------------------------------------------- what git lists

  /** A changed file: its status in the index and in the worktree, its path, and its old
      path when it was renamed. Paths are any texts. */
  datatype Entry = Entry(index: char, worktree: char, path: string, from: Option<string>)

  function Shown(e: Entry): string {
    if e.from.Some? then QuoteBlank(e.from.value) + (ARROW + QuoteBlank(e.path)) else QuoteBlank(e.path)
  }

  function Line(e: Entry): string {
    [e.index, e.worktree, ' '] + Shown(e)
  }

  /** Git's status columns, and paths that are not empty. */
  predicate EntryOk(e: Entry) {
    && e.path != "" && !(e.index == ' ' && e.worktree == ' ')
    && (e.index in WHITESPACE ==> e.index == ' ') && (e.worktree in WHITESPACE ==> e.worktree == ' ')
    && (e.from.Some? ==> e.from.value != "" && (e.index in {'R', 'C'} || e.worktree in {'R', 'C'}))
  }

  /** A path may be listed twice, as deleted in the index and as untracked; one without a
      change in the index is listed once. */
  predicate Listing(es: seq<Entry>) {
    && (forall i :: 0 <= i < |es| ==> EntryOk(es[i]))
    && (forall i, j :: 0 <= i < |es| && 0 <= j < |es| && i != j && es[i].index == ' ' ==> es[i].path != es[j].path)
  }

  function Lines(es: seq<Entry>): (r: seq<string>)
    ensures |r| == |es| && forall i :: 0 <= i < |es| ==> r[i] == Line(es[i])
  {
    seq(|es|, i requires 0 <= i < |es| => Line(es[i]))
  }

  /** The paths as they are now. */
  function PathsOf(es: seq<Entry>): set<string> {
    set i | 0 <= i < |es| :: es[i].path
  }

  /** The paths that renamed files had before. */
  function OldNames(es: seq<Entry>): set<string> {
    set i | 0 <= i < |es| && es[i].from.Some? :: es[i].from.value
  }

  /** Every path the changes touch: a rename takes a file away from its old path. */
  function Touched(es: seq<Entry>): set<string> {
    PathsOf(es) + OldNames(es)
  }

  // ----------------------------------------------------------- when a line is read right

  /** The name is read as it is: it has no character that git escapes; in front of the first
      arrow stands all that belongs there; and when the line lost its leading blank (`cut`),
      that took a quote and not a character of the name. */
  predicate ReadsRight(e: Entry, cut: bool) {
    && !HasSpecial(e.path)
    && (if e.from.Some? then !HasArrow(e.from.value)
        else !HasArrow(e.path) && (cut && e.index == ' ' ==> ' ' in e.path && e.path[..1] != " "))
  }

  /** The first line, without the blank it may start with. */
  function FirstLine(e: Entry): string {
    if e.index == ' ' then Line(e)[1..] else Line(e)
  }

  /** What the two kinds of gates read off a line, the first one of the worker gate `cut`. */
  function LineRead(e: Entry, cut: bool): string {
    PathOf(if cut then FirstLine(e) else Line(e))
  }

  lemma {:induction false} NormalizeCounts(s: string, cs: set<char>)
    requires '/' in cs <==> '\\' in cs
    ensures Count(NormalizePath(s), cs) == Count(s, cs)
  {
    if s != "" { NormalizeCounts(s[1..], cs); }
  }

  /** Reading neither adds nor drops arrow heads or slashes. */
  lemma ReadCounts(shown: string)
    ensures Count(Read(shown), {'>'}) == Count(shown, {'>'})
    ensures Count(Read(shown), SLASHES) == Count(shown, SLASHES)
  {
    var s := Strip(shown, WHITESPACE);
    CountStrip(shown, WHITESPACE, {'>'});
    CountStrip(shown, WHITESPACE, SLASHES);
    CountStrip(s, {'"'}, {'>'});
    CountStrip(s, {'"'}, SLASHES);
    NormalizeCounts(Strip(s, {'"'}), {'>'});
    NormalizeCounts(Strip(s, {'"'}), SLASHES);
  }

  /** A name with escapes is read as another one, for the escapes' backslashes. */
  lemma SpecialIsMisread(p: string, shown: string)
    requires HasSpecial(p)
    requires shown == "\"" + (Escapes(p) + "\"") || shown == Escapes(p) + "\""
    ensures Read(shown) != p
  {
    SomeSpecial(p);
    QuoteCounts(p);
    ReadCounts(shown);
  }

  lemma NotBlank(p: string, i: nat)
    requires !HasSpecial(p) && i < |p|
    ensures p[i] in WHITESPACE ==> p[i] == ' '
    ensures p[i] != '"' && p[i] != '\\'
  {
    assert !Special(p[i]);
  }

  lemma SlashesStay(p: string)
    requires !HasSpecial(p)
    ensures NormalizePath(p) == p
  {
    forall i | 0 <= i < |p| ensures NormalizePath(p)[i] == p[i] { NotBlank(p, i); }
  }

  lemma EndsStay(s: string, cs: set<char>)
    requires s != "" ==> s[0] !in cs && s[|s| - 1] !in cs
    ensures Strip(s, cs) == s
  {}

  /** A name without blanks is shown bare and read as it is. */
  lemma BareIsRead(p: string)
    requires !HasSpecial(p) && ' ' !in p
    ensures Read(p) == p
  {
    if p != "" {
      NotBlank(p, 0);
      NotBlank(p, |p| - 1);
      assert p[0] in p && p[|p| - 1] in p;
    }
    EndsStay(p, WHITESPACE);
    EndsStay(p, {'"'});
    SlashesStay(p);
  }

  lemma {:induction false} OneQuoteOff(p: string)
    requires p != "" ==> p[|p| - 1] != '"'
    ensures StripRight(p + "\"", {'"'}) == p
  {
    var s := p + "\"";
    assert s[..|s| - 1] == p;
  }

  /** Between quotes any name without escapes is read as it is. */
  lemma QuotedIsRead(p: string)
    requires !HasSpecial(p) && p != ""
    ensures Read("\"" + (p + "\"")) == p
  {
    var s := "\"" + (p + "\"");
    EndsStay(s, WHITESPACE);
    NotBlank(p, 0);
    NotBlank(p, |p| - 1);
    assert s[1..] == p + "\"" && (p + "\"")[0] == p[0];
    assert StripLeft(s, {'"'}) == p + "\"";
    OneQuoteOff(p);
    SlashesStay(p);
  }

  lemma {:induction false} StripLeftShortens(s: string, cs: set<char>)
    requires s != "" && s[0] in cs
    ensures |StripLeft(s, cs)| < |s|
  {}

  /** Without its first quote it is, unless it starts with a blank. */
  lemma OpenQuoteIsRead(p: string)
    requires !HasSpecial(p) && p != ""
    ensures Read(p + "\"") == p <==> p[0] != ' '
  {
    var s := p + "\"";
    NotBlank(p, 0);
    NotBlank(p, |p| - 1);
    if p[0] != ' ' {
      EndsStay(s, WHITESPACE);
      OneQuoteOff(p);
      SlashesStay(p);
    } else {
      ShorterBehindBlank(p);
    }
  }

  lemma {:induction false} LastStays(s: string, cs: set<char>)
    requires s != "" && s[|s| - 1] !in cs
    ensures Strip(s, cs) != "" && Strip(s, cs)[|Strip(s, cs)| - 1] == s[|s| - 1]
    ensures Strip(s, cs) == StripLeft(s, cs)
  {
    if s[0] in cs { LastStays(s[1..], cs); }
  }

  lemma ShorterBehindBlank(p: string)
    requires p != "" && p[0] == ' '
    ensures |Read(p + "\"")| < |p|
  {
    var s := p + "\"";
    StripLeftShortens(s, WHITESPACE);
    LastStays(s, WHITESPACE);
    var t := Strip(s, WHITESPACE);
    assert t[|t| - 1] == '"';
    EndShortens(t, {'"'});
  }

  lemma {:induction false} EndShortens(t: string, cs: set<char>)
    requires t != "" && t[|t| - 1] in cs
    ensures |Strip(t, cs)| < |t|
  {
    if t[0] in cs { StripLeftShortens(t, cs); }
  }

  /** A whole name, bare or quoted, is read as it is unless it has escapes. */
  lemma NameReads(p: string)
    requires p != ""
    ensures Read(QuoteBlank(p)) == p <==> !HasSpecial(p)
  {
    if HasSpecial(p) {
      SpecialIsMisread(p, QuoteBlank(p));
    } else {
      NothingToEscape(p);
      if ' ' in p { QuotedIsRead(p); } else { BareIsRead(p); }
    }
  }

  /** A file that is not renamed, its line as it is. */
  lemma WholeNameReads(p: string)
    requires p != "" && !HasArrow(p)
    ensures Read(AfterArrow(QuoteBlank(p))) == p <==> !HasSpecial(p)
  {
    QuotedArrows(p);
    NameReads(p);
  }

  /** Its line without the first character of what is shown. */
  lemma CutNameReads(p: string)
    requires p != "" && !HasArrow(p)
    ensures Read(AfterArrow(QuoteBlank(p)[1..])) == p <==> !HasSpecial(p) && ' ' in p && p[..1] != " "
  {
    QuotedArrows(p);
    NothingLeft(p);
    if HasSpecial(p) {
      SpecialIsMisread(p, Escapes(p) + "\"");
    } else {
      NothingToEscape(p);
      assert p[..1] != " " <==> p[0] != ' ';
      if ' ' in p {
        OpenQuoteIsRead(p);
      } else {
        assert |Read(AfterArrow(p[1..]))| < |p|;
      }
    }
  }

  lemma NothingLeft(p: string)
    ensures HasSpecial(p) || ' ' in p ==> QuoteBlank(p)[1..] == Escapes(p) + "\""
  {}

  /** An arrow in a name that is not renamed hides what stands before it. */
  lemma ArrowIsMisread(p: string, shown: string)
    requires HasArrow(p)
    requires shown == QuoteBlank(p) || shown == QuoteBlank(p)[1..]
    ensures Read(AfterArrow(shown)) != p
  {
    if ' ' !in p { NoBlankNoArrow(p); }
    NothingLeft(p);
    QuotedArrows(p);
    QuoteCounts(p);
    AfterArrowCounts(shown);
    ReadCounts(AfterArrow(shown));
  }

  lemma OriginArrows(from: string, shown: string)
    requires from != "" && (shown == QuoteBlank(from) || shown == QuoteBlank(from)[1..])
    ensures HasArrow(shown) <==> HasArrow(from)
    ensures HasArrow(shown + " ") <==> HasArrow(from)
  {
    NothingLeft(from);
    if HasSpecial(from) || ' ' in from {
      QuotedArrows(from);
    } else {
      NoBlankNoArrow(from);
      assert forall i :: 0 <= i < |from[1..]| ==> from[1..][i] == from[i + 1];
      NoBlankNoArrow(from[1..]);
    }
  }

  /** Of a renamed file the present path is read, unless an arrow in the old one comes first. */
  lemma RenameReads(from: string, shown: string, p: string)
    requires from != "" && p != "" && (shown == QuoteBlank(from) || shown == QuoteBlank(from)[1..])
    ensures Read(AfterArrow(shown + (ARROW + QuoteBlank(p)))) == p <==> !HasArrow(from) && !HasSpecial(p)
  {
    OriginArrows(from, shown);
    if HasArrow(from) {
      FirstArrowWins(shown, ARROW + QuoteBlank(p));
      LaterArrowCounts(AfterArrow(shown), p);
    } else {
      ArrowIsFound(shown, QuoteBlank(p));
      NameReads(p);
    }
  }

  lemma LaterArrowCounts(before: string, p: string)
    ensures Read(before + (ARROW + QuoteBlank(p))) != p
  {
    var shown := before + (ARROW + QuoteBlank(p));
    ReadCounts(shown);
    CountConcat(before, ARROW + QuoteBlank(p), {'>'});
    CountConcat(ARROW, QuoteBlank(p), {'>'});
    ArrowCount();
    QuoteCounts(p);
  }

  lemma ShownInLine(e: Entry)
    ensures Line(e)[3..] == Shown(e)
    ensures e.path != "" && (e.from.Some? ==> e.from.value != "") ==>
              Shown(e) != "" && FirstLine(e)[3..] == if e.index == ' ' then Shown(e)[1..] else Shown(e)
  {
    if e.index == ' ' { assert Line(e)[1..] == [e.worktree, ' '] + Shown(e); }
  }

  lemma QuoteIsNotEmpty(p: string)
    requires p != ""
    ensures QuoteBlank(p) != ""
  {}

  /** For all names: off a line its file's present path is read if and only if the name is
      one that is read right. */
  lemma LineReadsExactlyWhen(e: Entry, cut: bool)
    requires EntryOk(e)
    ensures LineRead(e, cut) == e.path <==> ReadsRight(e, cut)
  {
    ShownInLine(e);
    var lost := cut && e.index == ' ';
    if e.from.Some? {
      var origin := QuoteBlank(e.from.value);
      QuoteIsNotEmpty(e.from.value);
      assert Shown(e)[1..] == origin[1..] + (ARROW + QuoteBlank(e.path));
      RenameReads(e.from.value, if lost then origin[1..] else origin, e.path);
    } else if HasArrow(e.path) {
      ArrowIsMisread(e.path, if lost then QuoteBlank(e.path)[1..] else QuoteBlank(e.path));
    } else if lost {
      CutNameReads(e.path);
    } else {
      WholeNameReads(e.path);
    }
  }

  // ------------------------------------------------------------------- whole listings

  /** What is read off the lines of a listing, the first of which may be cut. */
  function Reads(es: seq<Entry>, cut: bool): set<string> {
    set i | 0 <= i < |es| :: LineRead(es[i], cut && i == 0)
  }

  predicate Misread(es: seq<Entry>, cut: bool, i: nat)
    requires i < |es|
  {
    !ReadsRight(es[i], cut && i == 0)
  }

  lemma ReadsOf(es: seq<Entry>, cut: bool, lines: seq<string>)
    requires |lines| == |es|
    requires forall i :: 0 <= i < |es| ==> lines[i] != "" && PathOf(lines[i]) == LineRead(es[i], cut && i == 0)
    ensures ReadPaths(lines) == Reads(es, cut)
  {
    forall p | p in Reads(es, cut) ensures p in ReadPaths(lines) {
      var i :| 0 <= i < |es| && LineRead(es[i], cut && i == 0) == p;
      assert lines[i] in lines;
    }
    forall p | p in ReadPaths(lines) ensures p in Reads(es, cut) {
      var line :| line in lines && PathOf(line) == p;
      var i :| 0 <= i < |lines| && lines[i] == line;
    }
  }

  lemma DirectiveGateReads(es: seq<Entry>)
    ensures ChangedPaths(Lines(es)) == Reads(es, false) - {""}
  {
    ReadsOf(es, false, Lines(es));
    assert ChangedPaths(Lines(es)) == ReadPaths(Lines(es)) - {""};
  }

  lemma NameEnds(p: string)
    requires p != ""
    ensures QuoteBlank(p) != "" && QuoteBlank(p)[|QuoteBlank(p)| - 1] !in WHITESPACE
  {
    if !HasSpecial(p) && ' ' !in p {
      NotBlank(p, |p| - 1);
      assert p[|p| - 1] in p;
    }
  }

  /** Stripping takes nothing off a line but the blank that the first one may start with. */
  lemma LineEnds(e: Entry)
    requires EntryOk(e)
    ensures StripRight(Line(e), WHITESPACE) == Line(e) != ""
    ensures StripRight(FirstLine(e), WHITESPACE) == FirstLine(e) != ""
    ensures StripLeft(Line(e), WHITESPACE) == FirstLine(e)
  {
    NameEnds(e.path);
    var line, shown := Line(e), Shown(e);
    assert shown[|shown| - 1] == QuoteBlank(e.path)[|QuoteBlank(e.path)| - 1];
    assert line[|line| - 1] == shown[|shown| - 1];
    assert line[1..][0] == e.worktree;
  }

  lemma StrippedBack(lines: seq<string>)
    requires lines != [] && StripRight(lines[|lines| - 1], WHITESPACE) == lines[|lines| - 1] != ""
    ensures StripBack(lines) == lines
  {
    assert lines[..|lines| - 1] + [lines[|lines| - 1]] == lines;
  }

  lemma StrippedLines(es: seq<Entry>)
    requires Listing(es) && es != []
    ensures StripLines(Lines(es)) == [FirstLine(es[0])] + Lines(es)[1..]
  {
    hide StripLeft, StripRight, Line, FirstLine, EntryOk;
    var front, last := [FirstLine(es[0])] + Lines(es)[1..], |es| - 1;
    assert EntryOk(es[0]) && EntryOk(es[last]);
    LineEnds(es[0]);
    LineEnds(es[last]);
    assert front[last] == if last == 0 then FirstLine(es[0]) else Line(es[last]);
    StrippedBack(front);
  }

  lemma LinesWithCut(es: seq<Entry>, lines: seq<string>)
    requires Listing(es) && es != [] && lines == [FirstLine(es[0])] + Lines(es)[1..]
    ensures |lines| == |es|
    ensures forall i :: 0 <= i < |es| ==> lines[i] != "" && PathOf(lines[i]) == LineRead(es[i], i == 0)
  {
    assert EntryOk(es[0]);
    LineEnds(es[0]);
    forall i | 0 <= i < |es| ensures lines[i] == if i == 0 then FirstLine(es[i]) else Line(es[i]) {}
  }

  lemma WorkerGateReads(es: seq<Entry>)
    requires Listing(es)
    ensures WorkerChangedPaths(Lines(es)) == Reads(es, true)
  {
    if es == [] {
      assert Lines(es) == [] && StripLines([]) == [];
    } else {
      var lines := [FirstLine(es[0])] + Lines(es)[1..];
      StrippedLines(es);
      LinesWithCut(es, lines);
      ReadsOf(es, true, lines);
    }
  }

  lemma RightReadsArePaths(es: seq<Entry>, cut: bool)
    requires Listing(es) && forall i :: 0 <= i < |es| ==> !Misread(es, cut, i)
    ensures Reads(es, cut) == PathsOf(es) && "" !in PathsOf(es)
  {
    forall i | 0 <= i < |es| ensures LineRead(es[i], cut && i == 0) == es[i].path != "" {
      assert !Misread(es, cut, i) && EntryOk(es[i]);
      LineReadsExactlyWhen(es[i], cut && i == 0);
    }
  }

  lemma TouchedIsPresentExactlyWhen(es: seq<Entry>)
    ensures PathsOf(es) == Touched(es) <==> OldNames(es) <= PathsOf(es)
  {
    if !(OldNames(es) <= PathsOf(es)) {
      var p :| p in OldNames(es) && p !in PathsOf(es);
      assert p in Touched(es);
    }
  }

  /** When no name is misread, the directive gate sees every touched path if and only if the
      old path of each renamed file is also the present path of a listed one. */
  lemma DirectiveGateSeesAllExactlyWhen(es: seq<Entry>)
    requires Listing(es) && forall i :: 0 <= i < |es| ==> !Misread(es, false, i)
    ensures ChangedPaths(Lines(es)) == Touched(es) <==> OldNames(es) <= PathsOf(es)
  {
    DirectiveGateReads(es);
    RightReadsArePaths(es, false);
    TouchedIsPresentExactlyWhen(es);
  }

  /** When whole lines are read right, the worker gate and the bridge see every touched path
      if and only if this holds and the first line is read right as it is left. */
  lemma WorkerGateSeesAllExactlyWhen(es: seq<Entry>)
    requires Listing(es) && forall i :: 0 <= i < |es| ==> !Misread(es, false, i)
    ensures WorkerChangedPaths(Lines(es)) == Touched(es) <==>
            (es == [] || ReadsRight(es[0], true)) && OldNames(es) <= PathsOf(es)
  {
    WorkerGateReads(es);
    if es == [] || ReadsRight(es[0], true) {
      forall i | 0 <= i < |es| ensures !Misread(es, true, i) { assert !Misread(es, false, i); }
      RightReadsArePaths(es, true);
      TouchedIsPresentExactlyWhen(es);
    } else {
      FirstIsNotSeen(es);
      assert es[0].path in PathsOf(es);
    }
  }

  /** A cut path is read neither off its own line nor off another. */
  lemma FirstIsNotSeen(es: seq<Entry>)
    requires Listing(es) && es != [] && !ReadsRight(es[0], true)
    requires forall i :: 0 <= i < |es| ==> !Misread(es, false, i)
    ensures es[0].path !in Reads(es, true)
  {
    assert !Misread(es, false, 0) && es[0].index == ' ';
    forall i | 0 <= i < |es| ensures LineRead(es[i], i == 0) != es[0].path {
      assert EntryOk(es[i]) && !Misread(es, false, i);
      LineReadsExactlyWhen(es[i], i == 0);
    }
  }

  // -------------------------------------------------------------- auditing a listing

  /** The paths that an audit does not see are allowed: those of the misread lines and the
      old ones of renamed files. */
  predicate GapsAllowed(allowed: set<string>, es: seq<Entry>, cut: bool) {
    OldNames(es) <= allowed && forall i :: 0 <= i < |es| && Misread(es, cut, i) ==> es[i].path in allowed
  }

  lemma RightIsAllowed(allowed: set<string>, es: seq<Entry>, cut: bool, i: nat)
    requires Listing(es) && Reads(es, cut) - {""} <= allowed && i < |es| && !Misread(es, cut, i)
    ensures es[i].path in allowed
  {
    assert EntryOk(es[i]);
    LineReadsExactlyWhen(es[i], cut && i == 0);
    assert LineRead(es[i], cut && i == 0) in Reads(es, cut);
  }

  /** For all names: when everything that was read is allowed (or nothing at all), all
      touched paths are allowed if and only if those that are not seen are. */
  lemma AuditCoversExactlyWhen(allowed: set<string>, es: seq<Entry>, cut: bool)
    requires Listing(es) && Reads(es, cut) - {""} <= allowed
    ensures Touched(es) <= allowed <==> GapsAllowed(allowed, es, cut)
  {
    if GapsAllowed(allowed, es, cut) {
      forall p | p in PathsOf(es) ensures p in allowed {
        var i :| 0 <= i < |es| && es[i].path == p;
        if !Misread(es, cut, i) { RightIsAllowed(allowed, es, cut, i); }
      }
    }
    if Touched(es) <= allowed {
      forall i | 0 <= i < |es| ensures es[i].path in allowed { assert es[i].path in PathsOf(es); }
    }
  }

  lemma OneRead(e: Entry, cut: bool)
    ensures Reads([e], cut) == {LineRead(e, cut)}
  {
    var es := [e];
    forall p | p in Reads(es, cut) ensures p == LineRead(e, cut) {
      var i :| 0 <= i < |es| && LineRead(es[i], cut && i == 0) == p;
    }
    assert LineRead(es[0], cut && 0 == 0) in Reads(es, cut);
  }

  lemma OnePath(e: Entry)
    ensures PathsOf([e]) == {e.path}
  {
    assert [e][0].path in PathsOf([e]);
  }

  lemma OneLine(e: Entry)
    requires EntryOk(e)
    ensures Listing([e]) && PathsOf([e]) == {e.path}
    ensures WorkerChangedPaths(Lines([e])) == {LineRead(e, true)}
    ensures ChangedPaths(Lines([e])) == {LineRead(e, false)} - {""}
  {
    OnePath(e);
    OneRead(e, true);
    OneRead(e, false);
    WorkerGateReads([e]);
    DirectiveGateReads([e]);
  }

  lemma FirstIsAudited(allowed: set<string>, es: seq<Entry>)
    requires Listing(es) && es != [] && WorkerChangedPaths(Lines(es)) <= allowed
    ensures LineRead(es[0], true) in allowed
  {
    WorkerGateReads(es);
    assert LineRead(es[0], true && 0 == 0) in Reads(es, true);
  }

  lemma EachIsAudited(allowed: set<string>, es: seq<Entry>, e: Entry)
    requires e in es && ChangedPaths(Lines(es)) <= allowed
    ensures LineRead(e, false) in allowed || LineRead(e, false) == ""
  {
    DirectiveGateReads(es);
    var i :| 0 <= i < |es| && es[i] == e;
    assert LineRead(es[i], false && i == 0) in Reads(es, false);
  }

  /** A passed audit of the worker gate or the bridge can be trusted with the first change
      `e`, whatever else is listed, if and only if its line is read right, or its path is
      allowed, or what is read instead is not. */
  lemma WorkerTrustsExactlyWhen(allowed: set<string>, e: Entry)
    requires EntryOk(e)
    ensures (forall es :: Listing(es) && es != [] && es[0] == e && WorkerChangedPaths(Lines(es)) <= allowed ==>
                            e.path in allowed) <==>
            ReadsRight(e, true) || e.path in allowed || LineRead(e, true) !in allowed
  {
    hide LineRead, ReadsRight, WorkerChangedPaths;
    LineReadsExactlyWhen(e, true);
    if ReadsRight(e, true) || e.path in allowed || LineRead(e, true) !in allowed {
      forall es | Listing(es) && es != [] && es[0] == e && WorkerChangedPaths(Lines(es)) <= allowed
        ensures e.path in allowed
      {
        FirstIsAudited(allowed, es);
      }
    } else {
      OneLine(e);
      assert [e][0] == e;
    }
  }

  /** The same for the directive gate and any change; a path read as nothing is not audited. */
  lemma DirectiveTrustsExactlyWhen(allowed: set<string>, e: Entry)
    requires EntryOk(e)
    ensures (forall es :: Listing(es) && e in es && ChangedPaths(Lines(es)) <= allowed ==> e.path in allowed) <==>
            ReadsRight(e, false) || e.path in allowed || LineRead(e, false) !in allowed + {""}
  {
    hide LineRead, ReadsRight, ChangedPaths;
    LineReadsExactlyWhen(e, false);
    if ReadsRight(e, false) || e.path in allowed || LineRead(e, false) !in allowed + {""} {
      forall es | Listing(es) && e in es && ChangedPaths(Lines(es)) <= allowed ensures e.path in allowed {
        EachIsAudited(allowed, es, e);
      }
    } else {
      OneLine(e);
      assert e in [e];
    }
  }

  // ---------------------------------------------------------------------- blind spots

  /** A change outside the allowlist that passes the audits of all three gates. */
  predicate BlindSpot(allowed: set<string>, e: Entry) {
    && Listing([e]) && e.path !in allowed
    && WorkerChangedPaths(Lines([e])) <= allowed && ChangedPaths(Lines([e])) <= allowed
  }

  /** A new file whose name is an allowed path behind an arrow. */
  function ArrowFile(p: string): Entry {
    Entry('?', '?', "x" + (ARROW + p), None)
  }

  lemma {:induction false} PlainConcat(a: string, b: string)
    requires !HasSpecial(a) && !HasSpecial(b)
    ensures !HasSpecial(a + b)
  {
    forall i | 0 <= i < |a + b| ensures !Special((a + b)[i]) {
      if i < |a| { assert !Special(a[i]); } else { assert !Special(b[i - |a|]); }
    }
  }

  lemma ArrowNameIsPlain(p: string)
    requires !HasSpecial(p)
    ensures !HasSpecial("x" + (ARROW + p))
  {
    PlainConcat(ARROW, p);
    PlainConcat("x", ARROW + p);
  }

  lemma QuotedArrowName(p: string)
    requires !HasSpecial(p)
    ensures QuoteBlank("x" + (ARROW + p)) == "\"x" + (ARROW + (p + "\""))
  {
    var name := "x" + (ARROW + p);
    ArrowNameIsPlain(p);
    NothingToEscape(name);
    assert name[1] == ' ' && ' ' in name;
  }

  lemma BehindArrowReads(p: string)
    requires p != "" && !HasSpecial(p) && p[0] != ' '
    ensures Read(AfterArrow("\"x" + (ARROW + (p + "\"")))) == p
  {
    NoBlankNoArrow("\"x");
    ArrowIsFound("\"x", p + "\"");
    OpenQuoteIsRead(p);
  }

  /** It is read as that path. */
  lemma ArrowFileReads(p: string, cut: bool)
    requires p != "" && !HasSpecial(p) && p[0] != ' '
    ensures LineRead(ArrowFile(p), cut) == p
  {
    ShownInLine(ArrowFile(p));
    QuotedArrowName(p);
    BehindArrowReads(p);
  }

  lemma MisreadIsBlindSpot(allowed: set<string>, e: Entry, p: string)
    requires EntryOk(e) && LineRead(e, true) == p && LineRead(e, false) == p
    requires p in allowed && e.path !in allowed
    ensures BlindSpot(allowed, e)
  {
    OneLine(e);
  }

  lemma ArrowFileIsOk(p: string)
    ensures EntryOk(ArrowFile(p))
  {}

  lemma ArrowFileIsBlindSpot(allowed: set<string>, p: string)
    requires p in allowed && p != "" && !HasSpecial(p) && p[0] != ' '
    requires ArrowFile(p).path !in allowed
    ensures BlindSpot(allowed, ArrowFile(p))
  {
    ArrowFileReads(p, true);
    ArrowFileReads(p, false);
    ArrowFileIsOk(p);
    MisreadIsBlindSpot(allowed, ArrowFile(p), p);
  }

  lemma {:induction false} BlindSpotFrom(allowed: set<string>, p: string, longest: nat)
    requires p in allowed && p != "" && !HasSpecial(p) && p[0] != ' '
    requires forall q :: q in allowed ==> |q| <= longest
    ensures exists e :: BlindSpot(allowed, e)
    decreases longest - |p|
  {
    if ArrowFile(p).path in allowed {
      ArrowNameIsPlain(p);
      BlindSpotFrom(allowed, ArrowFile(p).path, longest);
    } else {
      ArrowFileIsBlindSpot(allowed, p);
    }
  }

  lemma LongestOf(allowed: set<string>) returns (longest: nat)
    ensures forall q :: q in allowed ==> |q| <= longest
  {
    longest := 0;
    if allowed != {} {
      var p :| p in allowed;
      longest := LongestOf(allowed - {p});
      if longest < |p| { longest := |p|; }
    }
  }

  /** Every allowlist with a path that git does not escape has a blind spot. */
  lemma EveryAllowlistHasABlindSpot(allowed: set<string>, p: string)
    requires p in allowed && p != "" && !HasSpecial(p) && p[0] != ' '
    ensures exists e :: BlindSpot(allowed, e)
  {
    var longest := LongestOf(allowed);
    BlindSpotFrom(allowed, p, longest);
  }
}
