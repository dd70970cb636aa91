/**
  What a "passed" verdict of the worktree executor is worth: nothing outside the expected
  files differs from the base commit, whatever the worker did, provided git answered.
 */
module WorktreeScope {
  import opened Common
  import opened PathText
  import opened GitOutput
  import opened ForbiddenPaths
  import opened WorktreeAudit

  /** `p` is as in the base tree: in HEAD, in the index and on disk. An untracked file
      that git ignores is not looked at. */
  predicate Untouched(w: Work, base: Tree, p: string)
    requires WorkOk(w)
  {
    && At(w.commits[w.head], p) == At(base, p)
    && At(w.index, p) == At(base, p)
    && (At(w.files, p) == At(base, p) || (p !in w.index && p in w.ignored))
  }

  /** The four listings together see exactly the paths that are not untouched. */
  lemma ListingsAreComplete(w: Work, base: Tree, p: string)
    requires WorkOk(w)
    ensures Untouched(w, base, p) <==>
            !Listed(w, base, 0, p) && !Listed(w, base, 1, p) && !Listed(w, base, 2, p) && !Listed(w, base, 3, p)
  {}

  /** `git rev-parse` finds the commit. */
  predicate Resolves(repo: Work, baseRef: string) {
    baseRef in repo.refs && repo.refs[baseRef] < |repo.commits|
  }

  function BaseOf(repo: Work, baseRef: string): Tree
    requires Resolves(repo, baseRef)
  {
    repo.commits[repo.refs[baseRef]]
  }

  /** The worktree starts as a checkout of the base commit on a branch of its own; the
      base is a commit, not a name, so nothing the worker commits or moves changes it. */
  function AfterWorker(repo: Work, baseRef: string, steps: seq<WorkerStep>): (w: Work)
    requires WorkOk(repo) && baseRef in repo.refs && repo.refs[baseRef] < |repo.commits|
    ensures WorkOk(w) && repo.commits <= w.commits
    ensures w.commits[repo.refs[baseRef]] == repo.commits[repo.refs[baseRef]]
  {
    var base := repo.refs[baseRef];
    Works(repo.(head := base, index := repo.commits[base], files := repo.commits[base]), steps)
  }

  /** A worker that moves the name of the base, even to its own commit, gains nothing: the
      listings against the resolved base stay as they are. */
  lemma MovingTheBaseGainsNothing(repo: Work, baseRef: string, steps: seq<WorkerStep>, commit: nat, k: nat, p: string)
    requires WorkOk(repo) && Resolves(repo, baseRef) && k < 4
    ensures var (w, moved) := (AfterWorker(repo, baseRef, steps),
                               AfterWorker(repo, baseRef, steps + [MoveRef(baseRef, commit)]));
            && (commit < |w.commits| ==> baseRef in moved.refs && moved.refs[baseRef] == commit)
            && (Listed(moved, BaseOf(repo, baseRef), k, p) <==> Listed(w, BaseOf(repo, baseRef), k, p))
  {
    var base := repo.refs[baseRef];
    var start := repo.(head := base, index := repo.commits[base], files := repo.commits[base]);
    WorksConcat(start, steps, [MoveRef(baseRef, commit)]);
    var (w, move) := (Works(start, steps), MoveRef(baseRef, commit));
    assert Works(w, [move]) == Apply(w, move);
  }

  lemma NormalizedMember(files: seq<string>, p: string)
    ensures p in files ==> NormalizePath(p) in NormalizeAll(files)
  {
    if p in files {
      var i :| 0 <= i < |files| && files[i] == p;
      assert NormalizeAll(files)[i] == NormalizePath(p);
    }
  }

  // ---------------------------------------------------------- how a listed name is read

  predicate Read(names: seq<string>, i: nat, r: string) {
    KeptAs(ShownAll(names), i, r)
  }

  predicate IsFirst(names: seq<string>, i: nat)
    requires i < |names|
  {
    i == FirstKept(ShownAll(names))
  }

  predicate IsLast(names: seq<string>, i: nat)
    requires i < |names|
  {
    i == LastKept(ShownAll(names)) - 1
  }

  /** The name is read as it is: git does not escape it, it is not blank, and it has no blank
      at an end of the output. */
  predicate ReadsRight(names: seq<string>, i: nat)
    requires i < |names|
  {
    var p := names[i];
    && !HasSpecial(p) && !Blank(p)
    && (IsFirst(names, i) ==> p[0] != ' ') && (IsLast(names, i) ==> p[|p| - 1] != ' ')
  }

  lemma QuotedIsNotCut(p: string)
    requires HasSpecial(p)
    ensures StripLeft(Quote(p), WHITESPACE) == Quote(p) && StripRight(Quote(p), WHITESPACE) == Quote(p)
    ensures Quote(p) != p
  {
    SomeSpecial(p);
    QuoteCounts(p);
  }

  lemma PlainWhitespace(p: string, i: nat)
    requires !HasSpecial(p) && i < |p|
    ensures p[i] in WHITESPACE <==> p[i] == ' '
  {
    assert !Special(p[i]);
  }

  lemma {:induction false} LeftStays(s: string)
    ensures StripLeft(s, WHITESPACE) == s <==> s == "" || s[0] !in WHITESPACE
  {}

  lemma {:induction false} RightStays(s: string)
    ensures StripRight(s, WHITESPACE) == s <==> s == "" || s[|s| - 1] !in WHITESPACE
  {}

  lemma LeftIsShorter(s: string)
    requires StripLeft(s, WHITESPACE) != s
    ensures |StripLeft(s, WHITESPACE)| < |s|
  {}

  lemma CutPlainName(p: string, first: bool, last: bool)
    requires !HasSpecial(p) && !Blank(p)
    ensures CutEnds(p, first, last) == p <==> (first ==> p[0] != ' ') && (last ==> p[|p| - 1] != ' ')
  {
    PlainWhitespace(p, 0);
    PlainWhitespace(p, |p| - 1);
    LeftStays(p);
    RightStays(p);
    if first && p[0] == ' ' { LeftIsShorter(p); }
  }

  lemma CutQuotedName(p: string, first: bool, last: bool)
    requires HasSpecial(p)
    ensures CutEnds(Quote(p), first, last) != p
  {
    QuotedIsNotCut(p);
  }

  lemma CutNameExactlyWhen(p: string, first: bool, last: bool)
    ensures !Blank(Quote(p)) && CutEnds(Quote(p), first, last) == p <==>
            !HasSpecial(p) && !Blank(p) && (first ==> p[0] != ' ') && (last ==> p[|p| - 1] != ' ')
  {
    if HasSpecial(p) {
      CutQuotedName(p, first, last);
    } else if !Blank(p) {
      CutPlainName(p, first, last);
    }
  }

  /** For all names: the name at `i` is read as it is if and only if it is one of these. */
  lemma NameReadsExactlyWhen(names: seq<string>, i: nat)
    requires i < |names|
    ensures Read(names, i, names[i]) <==> ReadsRight(names, i)
  {
    hide HasSpecial, Blank, Quote, CutEnds, FirstKept, LastKept;
    CutNameExactlyWhen(names[i], IsFirst(names, i), IsLast(names, i));
  }

  /** Whatever is read off a listing is a name as it is read. */
  lemma KeptIsRead(names: seq<string>, r: string)
    ensures r in Kept(ShownAll(names)) <==> exists i: nat :: Read(names, i, r)
  {
    KeptLines(ShownAll(names), r);
    forall i: nat ensures Read(names, i, r) <==> KeptAs(ShownAll(names), i, r) {}
  }

  // ------------------------------------------------------------- what a verdict is worth

  /** Nothing outside the expected files differs from the base. */
  ghost predicate InScope(w: Work, base: Tree, expected: set<string>)
    requires WorkOk(w)
  {
    forall p :: NormalizePath(p) !in expected ==> Untouched(w, base, p)
  }

  /** The names that are misread are expected ones. */
  predicate MisreadExpected(names: seq<seq<string>>, expected: set<string>) {
    forall k, i :: 0 <= k < |names| && 0 <= i < |names[k]| && !ReadsRight(names[k], i) ==>
                     NormalizePath(names[k][i]) in expected
  }

  /** All names are read right. */
  predicate AllReadRight(names: seq<seq<string>>) {
    forall k, i :: 0 <= k < |names| && 0 <= i < |names[k]| ==> ReadsRight(names[k], i)
  }

  lemma RightIsExpected(w: Work, base: Tree, k: nat, names: seq<string>, i: nat, expected: set<string>)
    requires WorkOk(w) && k < 4 && Lists(w, base, k, names) && i < |names| && ReadsRight(names, i)
    requires forall r :: r in Kept(ShownAll(names)) ==> NormalizePath(r) in expected
    ensures NormalizePath(names[i]) in expected
  {
    NameReadsExactlyWhen(names, i);
    KeptIsRead(names, names[i]);
  }

  /** Everything that was read is expected. Then nothing outside the expected files was
      touched if and only if every misread name is expected too. */
  lemma InScopeExactlyWhen(w: Work, base: Tree, names: seq<seq<string>>, expected: set<string>)
    requires WorkOk(w) && |names| == 4 && forall k :: 0 <= k < 4 ==> Lists(w, base, k, names[k])
    requires forall k, r :: 0 <= k < 4 && r in Kept(ShownAll(names[k])) ==> NormalizePath(r) in expected
    ensures InScope(w, base, expected) <==> MisreadExpected(names, expected)
  {
    if MisreadExpected(names, expected) {
      forall p | NormalizePath(p) !in expected ensures Untouched(w, base, p) {
        forall k: nat | k < 4 ensures !Listed(w, base, k, p) {
          OutsideIsNotListed(w, base, k, names, expected, p);
        }
        ListingsAreComplete(w, base, p);
      }
    }
    if InScope(w, base, expected) {
      forall k, i | 0 <= k < |names| && 0 <= i < |names[k]| ensures NormalizePath(names[k][i]) in expected {
        assert names[k][i] in names[k] && Listed(w, base, k, names[k][i]);
        ListingsAreComplete(w, base, names[k][i]);
      }
    }
  }

  lemma OutsideIsNotListed(w: Work, base: Tree, k: nat, names: seq<seq<string>>, expected: set<string>, p: string)
    requires WorkOk(w) && k < 4 && |names| == 4 && Lists(w, base, k, names[k])
    requires forall r :: r in Kept(ShownAll(names[k])) ==> NormalizePath(r) in expected
    requires MisreadExpected(names, expected) && NormalizePath(p) !in expected
    ensures !Listed(w, base, k, p)
  {
    if Listed(w, base, k, p) {
      var i :| 0 <= i < |names[k]| && names[k][i] == p;
      if ReadsRight(names[k], i) { RightIsExpected(w, base, k, names[k], i, expected); }
    }
  }

  /** `f` was read, rightly or not, off a changed file's name. */
  ghost predicate SeenChanged(outs: seq<Output>, names: seq<seq<string>>, f: string)
    requires |outs| == |names| == 4
  {
    exists k: nat, i: nat, r :: k < 4 && outs[k].ok && Read(names[k], i, r) && NormalizePath(r) == f
  }

  lemma ReadsAreExpected(outs: seq<Output>, names: seq<seq<string>>, changed: seq<string>, expected: set<string>,
                         k: nat, r: string)
    requires |outs| == |names| == 4 && Gathers(changed, outs) && k < 4
    requires outs[k].ok && outs[k].lines == ShownAll(names[k]) && r in Kept(ShownAll(names[k]))
    requires forall p :: p in NormalizeAll(changed) ==> p in expected
    ensures NormalizePath(r) in expected
  {
    assert r in changed;
    NormalizedMember(changed, r);
  }

  /** With all four listings and a passing audit: the run stayed in its scope if and only if
      every misread name is an expected one. */
  lemma PassedExactlyWhen(w: Work, base: Tree, outs: seq<Output>, names: seq<seq<string>>, changed: seq<string>,
                          expected: set<string>, extra: seq<string>)
    requires WorkOk(w) && |outs| == |names| == 4 && Gathers(changed, outs)
    requires forall k :: 0 <= k < 4 ==> outs[k].ok && Prints(w, base, k, names[k], outs[k])
    requires Passes(NormalizeAll(changed), expected, extra)
    ensures InScope(w, base, expected) <==> MisreadExpected(names, expected)
  {
    forall p | p in NormalizeAll(changed) ensures p in expected {
      assert Verdict(p, expected, extra).None?;
    }
    forall k, r | 0 <= k < 4 && r in Kept(ShownAll(names[k])) ensures NormalizePath(r) in expected {
      ReadsAreExpected(outs, names, changed, expected, k, r);
    }
    InScopeExactlyWhen(w, base, names, expected);
  }

  lemma ExpectedIsSeen(w: Work, base: Tree, outs: seq<Output>, names: seq<seq<string>>, changed: seq<string>,
                       expected: set<string>, extra: seq<string>, f: string)
    requires WorkOk(w) && |outs| == |names| == 4 && Gathers(changed, outs)
    requires forall k :: 0 <= k < 4 ==> Prints(w, base, k, names[k], outs[k])
    requires Passes(NormalizeAll(changed), expected, extra) && f in expected
    ensures SeenChanged(outs, names, f)
  {
    var j :| 0 <= j < |changed| && NormalizeAll(changed)[j] == f;
    var r := changed[j];
    assert r in changed;
    var k :| 0 <= k < 4 && outs[k].ok && r in Kept(outs[k].lines);
    KeptIsRead(names[k], r);
    var i: nat :| Read(names[k], i, r);
  }

  /** When all names are read right, an expected file that was seen did change. */
  lemma SeenIsTouched(w: Work, base: Tree, outs: seq<Output>, names: seq<seq<string>>, f: string)
    requires WorkOk(w) && |outs| == |names| == 4 && SeenChanged(outs, names, f) && AllReadRight(names)
    requires forall k :: 0 <= k < 4 ==> Lists(w, base, k, names[k])
    ensures exists p :: NormalizePath(p) == f && !Untouched(w, base, p)
  {
    var k: nat, i: nat, r :| k < 4 && outs[k].ok && Read(names[k], i, r) && NormalizePath(r) == f;
    NameReadsExactlyWhen(names[k], i);
    assert r == names[k][i] && r in names[k];
    ListingsAreComplete(w, base, r);
  }

  /** A touched path whose name is read right is among the lines that were read. */
  lemma TouchedIsRead(w: Work, base: Tree, k: nat, names: seq<string>, p: string)
    requires WorkOk(w) && k < 4 && Lists(w, base, k, names) && Listed(w, base, k, p)
    requires forall i :: 0 <= i < |names| ==> ReadsRight(names, i)
    ensures p in Kept(ShownAll(names))
  {
    hide ReadsRight, Read;
    assert p in names;
    var i :| 0 <= i < |names| && names[i] == p;
    NameReadsExactlyWhen(names, i);
    KeptIsRead(names, p);
  }

  lemma TouchedIsCollected(w: Work, base: Tree, outs: seq<Output>, names: seq<seq<string>>, changed: seq<string>,
                           p: string)
    requires WorkOk(w) && |outs| == |names| == 4 && Gathers(changed, outs) && AllReadRight(names)
    requires forall k :: 0 <= k < 4 ==> outs[k].ok && Prints(w, base, k, names[k], outs[k])
    requires !Untouched(w, base, p)
    ensures p in changed
  {
    hide Untouched, ReadsRight, Kept, Listed;
    ListingsAreComplete(w, base, p);
    var k :| 0 <= k < 4 && Listed(w, base, k, p);
    TouchedIsRead(w, base, k, names[k], p);
  }

  /** When all names are read right, a passing run changed nothing in the reserved directories
      and nothing with a reserved word, even if the mission expects it. */
  lemma NothingReservedChanged(w: Work, base: Tree, outs: seq<Output>, names: seq<seq<string>>, changed: seq<string>,
                               expected: set<string>, extra: seq<string>, p: string)
    requires WorkOk(w) && |outs| == |names| == 4 && Gathers(changed, outs) && AllReadRight(names)
    requires forall k :: 0 <= k < 4 ==> outs[k].ok && Prints(w, base, k, names[k], outs[k])
    requires Passes(NormalizeAll(changed), expected, extra) && !Untouched(w, base, p)
    ensures !Reserved(p) && NormalizePath(p) in expected
  {
    hide Untouched, Reserved, IsForbidden, AllReadRight, Prints, Gathers;
    TouchedIsCollected(w, base, outs, names, changed, p);
    NormalizedMember(changed, p);
    assert Verdict(NormalizePath(p), expected, extra).None?;
    NormalizedIsForbidden(p);
    ForbiddenExactlyWhen(p);
  }

  /** A mission run: resolve the base, let the worker loose in a worktree at that base,
      audit, decide. `added` says whether `git worktree add` succeeded, and `names` is what
      the four commands list. */
  method Execute(repo: Work, baseRef: string, added: bool, steps: seq<WorkerStep>, workerExit: int, timedOut: bool,
                 ghost names: seq<seq<string>>, outs: seq<Output>,
                 expectedFiles: seq<string>, forbiddenExtra: seq<string>)
    returns (passed: bool, audit: Option<Audit>)
    requires WorkOk(repo) && (baseRef in repo.refs ==> Resolves(repo, baseRef))
    requires |outs| == |names| == 4
    requires baseRef in repo.refs ==>
               forall k :: 0 <= k < 4 ==>
                 Prints(AfterWorker(repo, baseRef, steps), BaseOf(repo, baseRef), k, names[k], outs[k])
    ensures passed <==> audit.Some? && workerExit == 0 && !timedOut && audit.value.passed
    ensures audit.Some? <==> baseRef in repo.refs && added
    ensures audit.Some? ==> exists changed :: Gathers(changed, outs) &&
                              Reports(audit.value, NormalizeAll(changed), SetOf(NormalizeAll(expectedFiles)),
                                      NormalizeAll(forbiddenExtra))
    ensures passed && (forall k :: 0 <= k < 4 ==> outs[k].ok) ==>
              var (w, base) := (AfterWorker(repo, baseRef, steps), BaseOf(repo, baseRef));
              var expected := SetOf(NormalizeAll(expectedFiles));
              InScope(w, base, expected) <==> MisreadExpected(names, expected)
    ensures passed ==> forall f :: f in NormalizeAll(expectedFiles) ==> SeenChanged(outs, names, f)
    ensures passed && AllReadRight(names) ==>
              var (w, base) := (AfterWorker(repo, baseRef, steps), BaseOf(repo, baseRef));
              forall f :: f in NormalizeAll(expectedFiles) ==>
                exists p :: NormalizePath(p) == f && !Untouched(w, base, p)
    ensures passed && (forall k :: 0 <= k < 4 ==> outs[k].ok) && AllReadRight(names) ==>
              var (w, base) := (AfterWorker(repo, baseRef, steps), BaseOf(repo, baseRef));
              forall p :: Reserved(p) ==> Untouched(w, base, p)
  {
    hide Reserved, Untouched, IsForbidden;
    passed, audit := false, None;
    if baseRef !in repo.refs || !added { return; }
    ghost var w, base := AfterWorker(repo, baseRef, steps), BaseOf(repo, baseRef);
    var changed := CollectChangedFiles(outs);
    var a := AuditAgainstExpected(changed, expectedFiles, forbiddenExtra);
    audit := Some(a);
    if timedOut || workerExit != 0 || !a.passed { return; }
    passed := true;
    ghost var expected, extra := SetOf(NormalizeAll(expectedFiles)), NormalizeAll(forbiddenExtra);
    if forall k :: 0 <= k < 4 ==> outs[k].ok {
      PassedExactlyWhen(w, base, outs, names, changed, expected, extra);
      if AllReadRight(names) {
        forall p | Reserved(p) ensures Untouched(w, base, p) {
          if !Untouched(w, base, p) {
            NothingReservedChanged(w, base, outs, names, changed, expected, extra, p);
          }
        }
      }
    }
    forall f | f in NormalizeAll(expectedFiles)
      ensures SeenChanged(outs, names, f)
      ensures AllReadRight(names) ==> exists p :: NormalizePath(p) == f && !Untouched(w, base, p)
    {
      ExpectedIsSeen(w, base, outs, names, changed, expected, extra, f);
      if AllReadRight(names) { SeenIsTouched(w, base, outs, names, f); }
    }
  }

  // ------------------------------------------------- when a listing silently fails

  /** What the executor reads when exactly the commands in `ok` succeed. */
  predicate Collected(names: seq<seq<string>>, ok: seq<bool>, r: string)
    requires |names| == |ok| == 4
  {
    exists k :: 0 <= k < 4 && ok[k] && r in Kept(ShownAll(names[k]))
  }

  /** The audit accepts the collected changes for this mission. */
  ghost predicate Accepts(names: seq<seq<string>>, ok: seq<bool>, expected: set<string>)
    requires |names| == |ok| == 4
  {
    && (forall r :: Collected(names, ok, r) ==> NormalizePath(r) in expected && !IsForbidden(r))
    && (forall f :: f in expected ==> exists r :: Collected(names, ok, r) && NormalizePath(r) == f)
  }

  ghost predicate ListsAll(w: Work, base: Tree, names: seq<seq<string>>)
    requires WorkOk(w)
  {
    |names| == 4 && forall k :: 0 <= k < 4 ==> Lists(w, base, k, names[k])
  }

  /** A name without blanks at its ends that git does not escape. */
  predicate PlainName(p: string) {
    !HasSpecial(p) && p != "" && p[0] != ' ' && p[|p| - 1] != ' '
  }

  /** The worker changed plainly named files only. */
  ghost predicate PlainlyNamed(w: Work, base: Tree)
    requires WorkOk(w)
  {
    forall k: nat, p :: k < 4 && Listed(w, base, k, p) ==> PlainName(p)
  }

  /** No mission, which always names at least one file, is passed wrongly on this worktree,
      in whatever order git lists. */
  ghost predicate SoundAt(w: Work, base: Tree, ok: seq<bool>)
    requires WorkOk(w) && |ok| == 4
  {
    forall names: seq<seq<string>>, expected: set<string> ::
      ListsAll(w, base, names) && expected != {} && Accepts(names, ok, expected) ==> InScope(w, base, expected)
  }

  /** Nor after any worker, in any repository, that changes plainly named files. */
  ghost predicate SoundWith(ok: seq<bool>)
    requires |ok| == 4
  {
    forall repo: Work, baseRef: string, steps: seq<WorkerStep> ::
      && WorkOk(repo) && Resolves(repo, baseRef)
      && PlainlyNamed(AfterWorker(repo, baseRef, steps), BaseOf(repo, baseRef)) ==>
        SoundAt(AfterWorker(repo, baseRef, steps), BaseOf(repo, baseRef), ok)
  }

  // ------------------------------------------------- a worker that one command sees

  /** What a worker does to one file so that only command `k` lists it. */
  function StepsFor(k: nat, p: string): seq<WorkerStep>
    requires k < 4
  {
    if k == 0 then [Edit(p, 1), Stage(p), CommitIndex]
    else if k == 1 then [Edit(p, 1), Stage(p)]
    else if k == 2 then [Remove(p)]
    else [Edit(p, 1)]
  }

  /** The base tree in which those steps start: a file is removed only where it is. */
  function Cell(k: nat, p: string): Tree {
    if k == 2 then map[p := 1] else map[]
  }

  /** Nobody has done anything to `p`. */
  predicate Clean(w: Work, base: Tree, p: string)
    requires WorkOk(w)
  {
    At(w.commits[w.head], p) == At(base, p) && At(w.index, p) == At(base, p) && At(w.files, p) == At(base, p)
  }

  lemma {:induction false} WorksConcat(w: Work, a: seq<WorkerStep>, b: seq<WorkerStep>)
    requires WorkOk(w)
    ensures Works(w, a + b) == Works(Works(w, a), b)
    decreases |a|
  {
    if a == [] {
      assert a + b == b;
    } else {
      assert (a + b)[1..] == a[1..] + b;
      WorksConcat(Apply(w, a[0]), a[1..], b);
    }
  }

  lemma WorksThree(w: Work, a: WorkerStep, b: WorkerStep, c: WorkerStep)
    requires WorkOk(w)
    ensures Works(w, [a]) == Apply(w, a)
    ensures Works(w, [a, b]) == Apply(Apply(w, a), b)
    ensures Works(w, [a, b, c]) == Apply(Apply(Apply(w, a), b), c)
  {
    assert [a][1..] == [] && [a, b][1..] == [b] && [b][1..] == [];
    assert [a, b, c][1..] == [b, c] && [b, c][1..] == [c] && [c][1..] == [];
    var w1, w2 := Apply(w, a), Apply(Apply(w, a), b);
    assert Works(w1, [b]) == w2 && Works(w2, [c]) == Apply(w2, c);
    assert Works(w1, [b, c]) == Works(w2, [c]);
  }

  /** The steps, one by one. */
  lemma StepsAre(w: Work, k: nat, p: string)
    requires WorkOk(w) && k < 4
    ensures Works(w, StepsFor(k, p)) ==
            if k == 0 then Apply(Apply(Apply(w, Edit(p, 1)), Stage(p)), CommitIndex)
            else if k == 1 then Apply(Apply(w, Edit(p, 1)), Stage(p))
            else if k == 2 then Apply(w, Remove(p))
            else Apply(w, Edit(p, 1))
  {
    WorksThree(w, if k == 2 then Remove(p) else Edit(p, 1), Stage(p), CommitIndex);
  }

  /** After them only command `k` lists `p`. */
  lemma PlaceHere(w: Work, base: Tree, k: nat, p: string)
    requires WorkOk(w) && k < 4 && w.ignored == {} && Clean(w, base, p) && (p in base <==> k == 2)
    ensures var w' := Works(w, StepsFor(k, p));
            w'.ignored == {} && forall j: nat :: j < 4 ==> (Listed(w', base, j, p) <==> j == k)
  {
    StepsAre(w, k, p);
  }

  /** Git knows the same about `q` in both worktrees. */
  predicate SameAt(w: Work, w': Work, q: string)
    requires WorkOk(w) && WorkOk(w')
  {
    && At(w'.commits[w'.head], q) == At(w.commits[w.head], q) && At(w'.index, q) == At(w.index, q)
    && At(w'.files, q) == At(w.files, q) && w'.ignored == w.ignored
  }

  lemma StepElsewhere(w: Work, step: WorkerStep, p: string, q: string)
    requires WorkOk(w) && q != p && (step == Edit(p, 1) || step == Stage(p) || step == Remove(p))
    ensures SameAt(w, Apply(w, step), q)
  {
    assert forall t: Tree, v: Option<int> :: At(SetAt(t, p, v), q) == At(t, q);
  }

  /** Nothing changes for any other path, as long as only `p` is committed. */
  lemma PlaceElsewhere(w: Work, k: nat, p: string, q: string)
    requires WorkOk(w) && k < 4 && q != p
    requires k == 0 ==> At(w.index, q) == At(w.commits[w.head], q)
    ensures SameAt(w, Works(w, StepsFor(k, p)), q)
  {
    StepsAre(w, k, p);
    if k == 2 {
      StepElsewhere(w, Remove(p), p, q);
    } else {
      StepElsewhere(w, Edit(p, 1), p, q);
      if k < 2 { StepElsewhere(Apply(w, Edit(p, 1)), Stage(p), p, q); }
    }
  }

  lemma SameIsListedAlike(w: Work, w': Work, base: Tree, q: string)
    requires WorkOk(w) && WorkOk(w') && SameAt(w, w', q)
    ensures forall j: nat :: j < 4 ==> (Listed(w', base, j, q) <==> Listed(w, base, j, q))
    ensures Clean(w, base, q) ==> Clean(w', base, q)
  {}

  /** The repository with one commit, `b`, that the two files need. */
  function SmallRepo(base: Tree): (repo: Work)
    ensures WorkOk(repo)
  {
    Work([base], map["b" := 0], 0, base, base, {})
  }

  /** A worker after whose run command `k1` alone lists `p1` and command `k2` alone `p2`. */
  lemma TwoPlaces(k1: nat, p1: string, k2: nat, p2: string)
    requires k1 < 4 && k2 < 4 && k2 != 0 && p1 != p2
    ensures var base := Cell(k1, p1) + Cell(k2, p2);
            && Resolves(SmallRepo(base), "b") && BaseOf(SmallRepo(base), "b") == base
            && OnlyThese(AfterWorker(SmallRepo(base), "b", StepsFor(k1, p1) + StepsFor(k2, p2)), base, k1, p1, k2, p2)
  {
    var base := Cell(k1, p1) + Cell(k2, p2);
    var start := SmallRepo(base);
    var w1 := Works(start, StepsFor(k1, p1));
    WorksConcat(start, StepsFor(k1, p1), StepsFor(k2, p2));
    var w2 := Works(w1, StepsFor(k2, p2));
    PlaceHere(start, base, k1, p1);
    PlaceElsewhere(start, k1, p1, p2);
    SameIsListedAlike(start, w1, base, p2);
    PlaceHere(w1, base, k2, p2);
    PlaceElsewhere(w1, k2, p2, p1);
    SameIsListedAlike(w1, w2, base, p1);
    forall q: string | q != p1 && q != p2 ensures Unlisted(w2, base, q) {
      PlaceElsewhere(start, k1, p1, q);
      SameIsListedAlike(start, w1, base, q);
      PlaceElsewhere(w1, k2, p2, q);
      SameIsListedAlike(w1, w2, base, q);
    }
    assert start == start.(head := 0, index := base, files := base);
    ThenOnlyThese(w2, base, k1, p1, k2, p2);
  }

  lemma ThenOnlyThese(w: Work, base: Tree, k1: nat, p1: string, k2: nat, p2: string)
    requires WorkOk(w)
    requires forall j: nat :: j < 4 ==> (Listed(w, base, j, p1) <==> j == k1)
    requires forall j: nat :: j < 4 ==> (Listed(w, base, j, p2) <==> j == k2)
    requires forall q: string :: q != p1 && q != p2 ==> Unlisted(w, base, q)
    requires p1 != p2
    ensures OnlyThese(w, base, k1, p1, k2, p2)
  {
    forall j: nat, q: string | j < 4
      ensures Listed(w, base, j, q) <==> (q == p1 && j == k1) || (q == p2 && j == k2)
    {
      if q != p1 && q != p2 { assert Unlisted(w, base, q); }
    }
  }

  ghost predicate Unlisted(w: Work, base: Tree, q: string)
    requires WorkOk(w)
  {
    forall j: nat :: j < 4 ==> !Listed(w, base, j, q)
  }

  ghost predicate OnlyThese(w: Work, base: Tree, k1: nat, p1: string, k2: nat, p2: string)
    requires WorkOk(w)
  {
    forall j: nat, q: string :: j < 4 ==> (Listed(w, base, j, q) <==> (q == p1 && j == k1) || (q == p2 && j == k2))
  }

  /** Whichever two commands one picks, some worker leaves "e" to the one and "u" to the other. */
  lemma SplitWorker(seen: nat, missed: nat) returns (repo: Work, steps: seq<WorkerStep>)
    requires seen < 4 && missed < 4 && seen != missed
    ensures WorkOk(repo) && Resolves(repo, "b")
    ensures OnlyThese(AfterWorker(repo, "b", steps), BaseOf(repo, "b"), seen, "e", missed, "u")
  {
    assert "e"[0] != "u"[0];
    if missed == 0 {
      TwoPlaces(missed, "u", seen, "e");
      repo := SmallRepo(Cell(missed, "u") + Cell(seen, "e"));
      steps := StepsFor(missed, "u") + StepsFor(seen, "e");
    } else {
      TwoPlaces(seen, "e", missed, "u");
      repo := SmallRepo(Cell(seen, "e") + Cell(missed, "u"));
      steps := StepsFor(seen, "e") + StepsFor(missed, "u");
    }
  }

  lemma OneWord(n: string)
    requires |n| == 1 && !Cuts(n[0])
    ensures Words(n, "") == [n]
  {
    assert n[1..] == "" && "" + [n[0]] == n;
  }

  lemma ShortIsAllowed(path: string, n: string)
    requires n == Lower(NormalizePath(path)) && |n| == 1 && Words(n, "") == [n]
    ensures !IsForbidden(path)
  {
    assert forall k :: 0 <= k < |FORBIDDEN_KEYWORDS| ==> |FORBIDDEN_KEYWORDS[k]| > 1;
    assert forall i :: 0 <= i < |FORBIDDEN_PREFIXES| ==> |FORBIDDEN_PREFIXES[i]| > 1;
  }

  lemma OneLetter(s: string)
    requires |s| == 1 && 'a' <= s[0] <= 'z'
    ensures NormalizePath(s) == s && Lower(s) == s && !Blank(s) && !Cuts(s[0])
  {
    assert NormalizePath(s)[0] == s[0];
    assert !IsSpace(s[0]);
    assert s[1..] == "" && Lower("") == "";
  }

  lemma SmallPathsAreAllowed()
    ensures !IsForbidden("e") && NormalizePath("e") == "e" && NormalizePath("u") == "u" && !Blank("e") && !Blank("u")
  {
    OneLetter("e");
    OneLetter("u");
    OneWord("e");
    ShortIsAllowed("e", "e");
  }

  /** Failures of git are skipped silently. The verdict can be trusted for every worker in
      every repository and every mission exactly when all four commands succeed, or none
      does (then the expected files are missing and no mission passes). */
  lemma SoundExactlyWhen(ok: seq<bool>)
    requires |ok| == 4
    ensures SoundWith(ok) <==> (ok[0] && ok[1] && ok[2] && ok[3]) || (!ok[0] && !ok[1] && !ok[2] && !ok[3])
  {
    if (ok[0] && ok[1] && ok[2] && ok[3]) || (!ok[0] && !ok[1] && !ok[2] && !ok[3]) {
      forall repo: Work, baseRef: string, steps: seq<WorkerStep> |
        WorkOk(repo) && Resolves(repo, baseRef)
        && PlainlyNamed(AfterWorker(repo, baseRef, steps), BaseOf(repo, baseRef))
        ensures SoundAt(AfterWorker(repo, baseRef, steps), BaseOf(repo, baseRef), ok)
      {
        SoundWithAllOrNone(AfterWorker(repo, baseRef, steps), BaseOf(repo, baseRef), ok);
      }
    } else {
      var seen :| 0 <= seen < 4 && ok[seen];
      var missed :| 0 <= missed < 4 && !ok[missed];
      var repo, steps := SplitWorker(seen, missed);
      UnsoundAt(AfterWorker(repo, "b", steps), BaseOf(repo, "b"), ok, seen, missed);
    }
  }

  lemma PlainIsReadRight(w: Work, base: Tree, k: nat, names: seq<string>, i: nat)
    requires WorkOk(w) && k < 4 && Lists(w, base, k, names) && PlainlyNamed(w, base) && i < |names|
    ensures ReadsRight(names, i)
  {
    assert names[i] in names && Listed(w, base, k, names[i]);
    assert PlainName(names[i]);
    PlainWhitespace(names[i], 0);
    assert !IsSpace(names[i][0]);
  }

  lemma AllReadRightWhenPlain(w: Work, base: Tree, names: seq<seq<string>>)
    requires WorkOk(w) && ListsAll(w, base, names) && PlainlyNamed(w, base)
    ensures AllReadRight(names)
  {
    forall k, i | 0 <= k < |names| && 0 <= i < |names[k]| ensures ReadsRight(names[k], i) {
      PlainIsReadRight(w, base, k, names[k], i);
    }
  }

  lemma ReadsAreAccepted(names: seq<seq<string>>, ok: seq<bool>, expected: set<string>, k: nat, r: string)
    requires |names| == |ok| == 4 && Accepts(names, ok, expected) && k < 4 && ok[k] && r in Kept(ShownAll(names[k]))
    ensures NormalizePath(r) in expected
  {
    assert Collected(names, ok, r);
  }

  lemma AllReadsAreAccepted(names: seq<seq<string>>, ok: seq<bool>, expected: set<string>)
    requires |names| == |ok| == 4 && ok[0] && ok[1] && ok[2] && ok[3] && Accepts(names, ok, expected)
    ensures forall k, r :: 0 <= k < 4 && r in Kept(ShownAll(names[k])) ==> NormalizePath(r) in expected
  {
    hide Kept, ShownAll, NormalizePath, Accepts;
    forall k, r | 0 <= k < 4 && r in Kept(ShownAll(names[k])) ensures NormalizePath(r) in expected {
      ReadsAreAccepted(names, ok, expected, k, r);
    }
  }

  lemma SoundWithAll(w: Work, base: Tree, ok: seq<bool>, names: seq<seq<string>>, expected: set<string>)
    requires WorkOk(w) && |ok| == 4 && ok[0] && ok[1] && ok[2] && ok[3]
    requires PlainlyNamed(w, base) && ListsAll(w, base, names) && Accepts(names, ok, expected)
    ensures InScope(w, base, expected)
  {
    AllReadRightWhenPlain(w, base, names);
    AllReadsAreAccepted(names, ok, expected);
    InScopeExactlyWhen(w, base, names, expected);
  }

  lemma NothingIsAccepted(ok: seq<bool>, names: seq<seq<string>>, expected: set<string>)
    requires |names| == |ok| == 4 && !ok[0] && !ok[1] && !ok[2] && !ok[3] && expected != {}
    ensures !Accepts(names, ok, expected)
  {
    var f :| f in expected;
    forall r ensures !Collected(names, ok, r) {
      assert forall k :: 0 <= k < 4 ==> !ok[k];
    }
  }

  lemma SoundWithAllOrNone(w: Work, base: Tree, ok: seq<bool>)
    requires WorkOk(w) && |ok| == 4 && PlainlyNamed(w, base)
    requires (ok[0] && ok[1] && ok[2] && ok[3]) || (!ok[0] && !ok[1] && !ok[2] && !ok[3])
    ensures SoundAt(w, base, ok)
  {
    forall names: seq<seq<string>>, expected: set<string> |
      ListsAll(w, base, names) && expected != {} && Accepts(names, ok, expected)
      ensures InScope(w, base, expected)
    {
      if ok[0] { SoundWithAll(w, base, ok, names, expected); } else { NothingIsAccepted(ok, names, expected); }
    }
  }

  lemma PlainNameIsRead(p: string)
    requires PlainName(p)
    ensures Read([p], 0, p)
  {
    PlainWhitespace(p, 0);
    assert !IsSpace(p[0]);
    NameReadsExactlyWhen([p], 0);
  }

  lemma OneNameRead(p: string, f: string, r: string)
    requires Read([p], 0, f)
    ensures r in Kept(ShownAll([p])) <==> r == f
  {
    KeptIsRead([p], r);
    KeptIsRead([p], f);
    forall i: nat | Read([p], i, r) ensures r == f { assert i == 0; }
  }

  lemma OneNameIsRead(p: string, r: string)
    requires PlainName(p)
    ensures r in Kept(ShownAll([p])) <==> r == p
  {
    PlainNameIsRead(p);
    OneNameRead(p, p, r);
  }

  lemma NothingIsRead(r: string)
    ensures r !in Kept(ShownAll([]))
  {
    KeptIsRead([], r);
  }

  /** What the four commands list in such a worktree. */
  function TwoListings(seen: nat, missed: nat): (names: seq<seq<string>>)
    ensures |names| == 4
    ensures forall k :: 0 <= k < 4 ==>
              names[k] == if k == seen then ["e"] else if k == missed then ["u"] else []
  {
    seq(4, k => if k == seen then ["e"] else if k == missed then ["u"] else [])
  }

  lemma TwoListingsAre(w: Work, base: Tree, seen: nat, missed: nat)
    requires WorkOk(w) && seen < 4 && missed < 4 && seen != missed
    requires OnlyThese(w, base, seen, "e", missed, "u")
    ensures ListsAll(w, base, TwoListings(seen, missed))
  {
    var names := TwoListings(seen, missed);
    assert "u"[0] != "e"[0];
    forall k, p | 0 <= k < 4 ensures p in names[k] <==> Listed(w, base, k, p) {
      assert Listed(w, base, k, p) <==> (p == "e" && k == seen) || (p == "u" && k == missed);
    }
  }

  lemma OnlyEIsCollected(ok: seq<bool>, seen: nat, missed: nat)
    requires |ok| == 4 && seen < 4 && missed < 4 && ok[seen] && !ok[missed]
    ensures forall r :: Collected(TwoListings(seen, missed), ok, r) <==> r == "e"
  {
    var names := TwoListings(seen, missed);
    SmallPathsAreAllowed();
    forall r ensures Collected(names, ok, r) <==> r == "e" {
      NothingIsRead(r);
      OneNameIsRead("e", r);
      assert names[seen] == ["e"];
    }
  }

  lemma OneIsAccepted(names: seq<seq<string>>, ok: seq<bool>, f: string)
    requires |names| == |ok| == 4 && forall r :: Collected(names, ok, r) <==> r == f
    requires NormalizePath(f) == f && !IsForbidden(f)
    ensures Accepts(names, ok, {f})
  {
    assert Collected(names, ok, f);
  }

  lemma NotInScope(w: Work, base: Tree, expected: set<string>, p: string)
    requires WorkOk(w) && NormalizePath(p) !in expected && !Untouched(w, base, p)
    ensures !InScope(w, base, expected)
  {}

  lemma Refutes(w: Work, base: Tree, ok: seq<bool>, names: seq<seq<string>>, expected: set<string>)
    requires WorkOk(w) && |ok| == 4 && ListsAll(w, base, names) && expected != {} && Accepts(names, ok, expected)
    requires !InScope(w, base, expected)
    ensures !SoundAt(w, base, ok)
  {}

  lemma LettersArePlain(w: Work, base: Tree, seen: nat, missed: nat)
    requires WorkOk(w) && OnlyThese(w, base, seen, "e", missed, "u")
    ensures PlainlyNamed(w, base)
  {
    forall k: nat, p | k < 4 && Listed(w, base, k, p) ensures PlainName(p) {
      assert p == "e" || p == "u";
    }
  }

  lemma UnsoundAt(w: Work, base: Tree, ok: seq<bool>, seen: nat, missed: nat)
    requires WorkOk(w) && |ok| == 4 && seen < 4 && missed < 4 && ok[seen] && !ok[missed]
    requires OnlyThese(w, base, seen, "e", missed, "u")
    ensures !SoundAt(w, base, ok) && PlainlyNamed(w, base)
  {
    LettersArePlain(w, base, seen, missed);
    TwoListingsAre(w, base, seen, missed);
    OnlyEIsCollected(ok, seen, missed);
    EIsAcceptedUIsNot();
    OneIsAccepted(TwoListings(seen, missed), ok, "e");
    assert Listed(w, base, missed, "u");
    ListingsAreComplete(w, base, "u");
    NotInScope(w, base, {"e"}, "u");
    Refutes(w, base, ok, TwoListings(seen, missed), {"e"});
  }

  lemma EIsAcceptedUIsNot()
    ensures !IsForbidden("e") && NormalizePath("e") == "e" && NormalizePath("u") !in {"e"}
  {
    SmallPathsAreAllowed();
    assert "u"[0] != "e"[0];
  }

  // ------------------------------------------------------------------ blanks in names

  const ALL_OK: seq<bool> := [true, true, true, true]

  lemma NoNamesNothingRead(names: seq<string>, r: string)
    requires names == []
    ensures r !in Kept(ShownAll(names))
  {
    NothingIsRead(r);
  }

  lemma OnlyLastIsCollected(names: seq<seq<string>>, f: string)
    requires |names| == 4 && names[0] == [] && names[1] == [] && names[2] == []
    requires forall r :: r in Kept(ShownAll(names[3])) <==> r == f
    ensures forall r :: Collected(names, ALL_OK, r) <==> r == f
  {
    hide Kept, ShownAll;
    forall r ensures Collected(names, ALL_OK, r) <==> r == f {
      NoNamesNothingRead(names[0], r);
      NoNamesNothingRead(names[1], r);
      NoNamesNothingRead(names[2], r);
      assert ALL_OK[3];
    }
  }

  /** A worker that writes new files only: the last command alone lists them. */
  lemma NewFiles(w: Work, base: Tree, files: Tree, added: seq<string>)
    requires WorkOk(w) && w.commits[w.head] == base && w.index == base && w.files == files
    requires forall q :: q in added ==> q !in base && q in files && q !in w.ignored
    requires forall q :: q !in added ==> At(files, q) == At(base, q)
    ensures ListsAll(w, base, [[], [], [], added]) && forall q :: q in added ==> !Untouched(w, base, q)
  {
    forall q ensures !Listed(w, base, 0, q) && !Listed(w, base, 1, q) && !Listed(w, base, 2, q)
      ensures Listed(w, base, 3, q) <==> q in added
    {
    }
  }

  lemma WritesAre(repo: Work, baseRef: string, p: string, q: string, content: int)
    requires WorkOk(repo) && Resolves(repo, baseRef)
    ensures var base := BaseOf(repo, baseRef);
            var start := repo.(head := repo.refs[baseRef], index := base, files := base);
            && AfterWorker(repo, baseRef, [Edit(p, content)]) == start.(files := base[p := content])
            && AfterWorker(repo, baseRef, [Edit(p, content), Edit(q, content)]) ==
               start.(files := base[p := content][q := content])
  {
    var base := BaseOf(repo, baseRef);
    var start := repo.(head := repo.refs[baseRef], index := base, files := base);
    WorksThree(start, Edit(p, content), Edit(q, content), CommitIndex);
  }

  lemma OneNewFile(repo: Work, baseRef: string, p: string, content: int)
    requires WorkOk(repo) && Resolves(repo, baseRef) && p !in BaseOf(repo, baseRef) && p !in repo.ignored
    ensures var (w, base) := (AfterWorker(repo, baseRef, [Edit(p, content)]), BaseOf(repo, baseRef));
            && w.files == base[p := content] && ListsAll(w, base, [[], [], [], [p]]) && !Untouched(w, base, p)
  {
    var base := BaseOf(repo, baseRef);
    WritesAre(repo, baseRef, p, p, content);
    NewFiles(AfterWorker(repo, baseRef, [Edit(p, content)]), base, base[p := content], [p]);
  }

  /** For every expected file `f` and every other name `p` that is read as `f`: a worker that
      writes the file `p` instead passes with all four listings. An unexpected file was
      touched, and `f` is as it was. */
  lemma MisreadFileSlipsThrough(repo: Work, baseRef: string, p: string, f: string, content: int)
    requires WorkOk(repo) && Resolves(repo, baseRef) && p !in BaseOf(repo, baseRef) && p !in repo.ignored
    requires Read([p], 0, f) && p != f && NormalizePath(f) == f && !IsForbidden(f)
    ensures var (w, base) := (AfterWorker(repo, baseRef, [Edit(p, content)]), BaseOf(repo, baseRef));
            && ListsAll(w, base, [[], [], [], [p]]) && Accepts([[], [], [], [p]], ALL_OK, {f})
            && !Untouched(w, base, p) && At(w.files, f) == At(base, f)
  {
    OneNewFile(repo, baseRef, p, content);
    forall r ensures r in Kept(ShownAll([p])) <==> r == f {
      OneNameRead(p, f, r);
    }
    OnlyLastIsCollected([[], [], [], [p]], f);
    OneIsAccepted([[], [], [], [p]], ALL_OK, f);
  }

  lemma BlankAtAnEnd(f: string, p: string)
    requires PlainName(f) && (p == " " + f || p == f + " ")
    ensures Read([p], 0, f)
  {
    PlainWhitespace(f, 0);
    PlainWhitespace(f, |f| - 1);
    forall i | 0 <= i < |p| ensures !Special(p[i]) {
      if p == " " + f { assert i > 0 ==> p[i] == f[i - 1]; } else { assert i < |f| ==> p[i] == f[i]; }
      if p[i] != ' ' { assert p[i] in f; SomeIndex(f, p[i]); }
    }
    var lines := ShownAll([p]);
    assert !IsSpace(f[0]) && !Blank(p) by {
      assert p == " " + f ==> p[1] == f[0];
      assert p == f + " " ==> p[0] == f[0];
    }
    BetweenFirstAndLast(lines, 0);
    if p == " " + f {
      assert p[1..] == f;
      LeftStays(f);
      RightStays(f);
    } else {
      assert p[..|f|] == f;
      LeftStays(p);
      RightStays(f);
    }
  }

  lemma SomeIndex(f: string, c: char)
    requires !HasSpecial(f) && c in f
    ensures !Special(c)
  {
    var i :| 0 <= i < |f| && f[i] == c;
    assert !Special(f[i]);
  }

  /** Such names are an expected one with a blank in front or behind. */
  lemma BlankSlipsThrough(repo: Work, baseRef: string, p: string, f: string, content: int)
    requires WorkOk(repo) && Resolves(repo, baseRef) && p !in BaseOf(repo, baseRef) && p !in repo.ignored
    requires PlainName(f) && (p == " " + f || p == f + " ") && !IsForbidden(f)
    ensures var (w, base) := (AfterWorker(repo, baseRef, [Edit(p, content)]), BaseOf(repo, baseRef));
            && ListsAll(w, base, [[], [], [], [p]]) && Accepts([[], [], [], [p]], ALL_OK, {f})
            && !Untouched(w, base, p) && At(w.files, f) == At(base, f)
  {
    BlankAtAnEnd(f, p);
    PlainIsNormal(f);
    assert |p| == |f| + 1;
    MisreadFileSlipsThrough(repo, baseRef, p, f, content);
  }

  lemma PlainIsNormal(f: string)
    requires !HasSpecial(f)
    ensures NormalizePath(f) == f
  {
    forall i | 0 <= i < |f| ensures NormalizePath(f)[i] == f[i] { assert !Special(f[i]); }
  }

  lemma SecondIsRead(p: string, f: string)
    requires PlainName(f)
    ensures Read([p, f], 1, f)
  {
    PlainWhitespace(f, 0);
    assert !IsSpace(f[0]);
    NameReadsExactlyWhen([p, f], 1);
  }

  lemma SecondIsReadAlone(p: string, f: string, i: nat, r: string)
    requires Read([p, f], 1, f) && Blank(p) && !HasSpecial(p) && Read([p, f], i, r)
    ensures r == f
  {
    assert ShownAll([p, f])[0] == p;
    assert i == 1;
  }

  lemma BlankNameIsSkipped(p: string, f: string, r: string)
    requires PlainName(f) && Blank(p) && !HasSpecial(p)
    ensures r in Kept(ShownAll([p, f])) <==> r == f
  {
    SecondIsRead(p, f);
    KeptIsRead([p, f], r);
    KeptIsRead([p, f], f);
    forall i: nat | Read([p, f], i, r) ensures r == f {
      SecondIsReadAlone(p, f, i, r);
    }
  }

  /** A file whose name is nothing but blanks is never seen. */
  lemma BlankNameSlipsThrough(repo: Work, baseRef: string, p: string, f: string, content: int)
    requires WorkOk(repo) && Resolves(repo, baseRef) && p !in BaseOf(repo, baseRef) && p !in repo.ignored
    requires f !in BaseOf(repo, baseRef) && f !in repo.ignored
    requires PlainName(f) && !IsForbidden(f) && Blank(p) && !HasSpecial(p)
    ensures var (w, base) := (AfterWorker(repo, baseRef, [Edit(p, content), Edit(f, content)]), BaseOf(repo, baseRef));
            && ListsAll(w, base, [[], [], [], [p, f]]) && Accepts([[], [], [], [p, f]], ALL_OK, {f})
            && !Untouched(w, base, p)
  {
    var base := BaseOf(repo, baseRef);
    WritesAre(repo, baseRef, p, f, content);
    NewFiles(AfterWorker(repo, baseRef, [Edit(p, content), Edit(f, content)]), base,
             base[p := content][f := content], [p, f]);
    assert p in [p, f];
    forall r ensures r in Kept(ShownAll([p, f])) <==> r == f {
      BlankNameIsSkipped(p, f, r);
    }
    OnlyLastIsCollected([[], [], [], [p, f]], f);
    PlainIsNormal(f);
    OneIsAccepted([[], [], [], [p, f]], ALL_OK, f);
  }

  // ------------------------------------------------- why the base must be a commit

  const SNEAKY: seq<WorkerStep> := [Edit("u", 1), Stage("u"), CommitIndex, Edit("e", 1)]

  lemma SneakyIs(start: Work)
    requires start == Work([map[]], map[], 0, map[], map[], {})
    ensures Works(start, SNEAKY) ==
            Work([map[], map["u" := 1]], map[], 1, map["u" := 1], map["u" := 1, "e" := 1], {})
  {
    assert SNEAKY == [Edit("u", 1), Stage("u"), CommitIndex] + [Edit("e", 1)];
    WorksConcat(start, [Edit("u", 1), Stage("u"), CommitIndex], [Edit("e", 1)]);
    WorksThree(start, Edit("u", 1), Stage("u"), CommitIndex);
    WorksThree(Works(start, [Edit("u", 1), Stage("u"), CommitIndex]), Edit("e", 1), CommitIndex, CommitIndex);
  }

  /** Had the audit compared with the name HEAD, read after the run, instead of the commit
      it resolved before, then a worker could commit an unexpected file unseen. */
  lemma SymbolicHeadIsUnsound()
    ensures var start := Work([map[]], map[], 0, map[], map[], {});
            var w := Works(start, SNEAKY);
            var names := [[], [], [], ["e"]];
            && ListsAll(w, w.commits[w.head], names) && Accepts(names, ALL_OK, {"e"})
            && !Untouched(w, start.commits[0], "u")
  {
    var start := Work([map[]], map[], 0, map[], map[], {});
    SneakyIs(start);
    SneakyLists(Works(start, SNEAKY));
    EIsCollected();
    EIsAcceptedUIsNot();
    OneIsAccepted([[], [], [], ["e"]], ALL_OK, "e");
  }

  lemma EIsCollected()
    ensures forall r :: Collected([[], [], [], ["e"]], ALL_OK, r) <==> r == "e"
  {
    assert PlainName("e");
    forall r ensures r in Kept(ShownAll(["e"])) <==> r == "e" {
      OneNameIsRead("e", r);
    }
    OnlyLastIsCollected([[], [], [], ["e"]], "e");
  }

  lemma SneakyLists(w: Work)
    requires w == Work([map[], map["u" := 1]], map[], 1, map["u" := 1], map["u" := 1, "e" := 1], {})
    ensures ListsAll(w, w.commits[w.head], [[], [], [], ["e"]]) && !Untouched(w, w.commits[0], "u")
  {
    assert "u"[0] != "e"[0];
  }
}
