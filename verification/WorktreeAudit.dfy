/**
  The worktree executor: does a worker that may do anything to a git worktree
  stay inside its expected files? The executor unites four git listings against a
  base commit that it resolved before the worker ran.
 */
module WorktreeAudit {
  import opened Common
  import opened PathText
  import opened ForbiddenPaths
  import opened GitOutput

  type Tree = map<string, int>

  function At(t: Tree, p: string): Option<int> {
    if p in t then Some(t[p]) else None
  }

  // ------------------------------------------------------------------ git, the worker

  /** A repository with one worktree. Commits are never altered, only added. */
  datatype Work = Work(
    commits: seq<Tree>, refs: map<string, nat>,
    head: nat, index: Tree, files: Tree, ignored: set<string>)

  ghost predicate WorkOk(w: Work) {
    w.head < |w.commits|
  }

  datatype WorkerStep =
    | Edit(path: string, content: int)
    | Remove(path: string)
    | Stage(path: string)
    | Unstage(path: string)
    | CommitIndex
    | ResetSoft(commit: nat)
    | ResetMixed(commit: nat)
    | ResetHard(commit: nat)
    | Ignore(paths: set<string>)
    | MoveRef(name: string, commit: nat)

  function SetAt(t: Tree, p: string, v: Option<int>): Tree {
    if v.Some? then t[p := v.value] else t - {p}
  }

  function Apply(w: Work, step: WorkerStep): (w': Work)
    requires WorkOk(w)
    ensures WorkOk(w') && w.commits <= w'.commits
  {
    match step
    case Edit(p, c) => w.(files := w.files[p := c])
    case Remove(p) => w.(files := w.files - {p})
    case Stage(p) => w.(index := SetAt(w.index, p, At(w.files, p)))
    case Unstage(p) => w.(index := SetAt(w.index, p, At(w.commits[w.head], p)))
    case CommitIndex => w.(commits := w.commits + [w.index], head := |w.commits|)
    case ResetSoft(c) => if c < |w.commits| then w.(head := c) else w
    case ResetMixed(c) => if c < |w.commits| then w.(head := c, index := w.commits[c]) else w
    case ResetHard(c) =>
      // tracked files go back to the commit, untracked ones stay
      if c < |w.commits| then
        w.(head := c, index := w.commits[c], files := (w.files - w.index.Keys) + w.commits[c])
      else w
    case Ignore(paths) => w.(ignored := paths)
    case MoveRef(name, c) => if c < |w.commits| then w.(refs := w.refs[name := c]) else w
  }

  function Works(w: Work, steps: seq<WorkerStep>): (w': Work)
    requires WorkOk(w)
    ensures WorkOk(w') && w.commits <= w'.commits
    decreases |steps|
  {
    if steps == [] then w else Works(Apply(w, steps[0]), steps[1..])
  }

  // ------------------------------------------------------------------ the four listings

  /** What the `k`-th git command lists: base..HEAD, staged, unstaged, untracked. */
  predicate Listed(w: Work, base: Tree, k: nat, p: string)
    requires WorkOk(w) && k < 4
  {
    var head := w.commits[w.head];
    if k == 0 then At(base, p) != At(head, p)
    else if k == 1 then At(head, p) != At(w.index, p)
    else if k == 2 then p in w.index && At(w.index, p) != At(w.files, p)
    else p in w.files && p !in w.index && p !in w.ignored
  }

  /** The output of one command: its exit status and its lines. */
  datatype Output = Output(ok: bool, lines: seq<string>)

  function ShownAll(names: seq<string>): (lines: seq<string>)
    ensures |lines| == |names| && forall i :: 0 <= i < |names| ==> lines[i] == Quote(names[i])
  {
    seq(|names|, i requires 0 <= i < |names| => Quote(names[i]))
  }

  /** The command lists these names, in some order. */
  ghost predicate Lists(w: Work, base: Tree, k: nat, names: seq<string>)
    requires WorkOk(w) && k < 4
  {
    forall p :: p in names <==> Listed(w, base, k, p)
  }

  /** A command that succeeds prints each name on a line; one that fails may print anything. */
  ghost predicate Prints(w: Work, base: Tree, k: nat, names: seq<string>, out: Output)
    requires WorkOk(w) && k < 4
  {
    Lists(w, base, k, names) && (out.ok ==> out.lines == ShownAll(names))
  }

  /** What the executor reads off an output: it strips the whole and skips blank lines. */
  function Kept(lines: seq<string>): seq<string> {
    NonBlank(StripLines(lines))
  }

  /** Exactly what is read off the commands that succeeded. */
  ghost predicate Gathers(files: seq<string>, outs: seq<Output>) {
    forall p :: p in files <==> exists k :: 0 <= k < |outs| && outs[k].ok && p in Kept(outs[k].lines)
  }

  /** The same in order, one command after the other. */
  function Printed(outs: seq<Output>): seq<string> {
    if outs == [] then []
    else
      var last := |outs| - 1;
      Printed(outs[..last]) + if outs[last].ok then Kept(outs[last].lines) else []
  }

  /** Where a line first appears. */
  function FirstAt(files: seq<string>, p: string): (i: nat)
    requires p in files
    ensures i < |files| && files[i] == p && p !in files[..i]
  {
    if files[0] == p then 0 else 1 + FirstAt(files[1..], p)
  }

  /** `unique` names its paths in the order in which they first appear. */
  ghost predicate InFirstOrder(unique: seq<string>, files: seq<string>) {
    && (forall i :: 0 <= i < |unique| ==> unique[i] in files)
    && (forall i, j :: 0 <= i < j < |unique| ==> FirstAt(files, unique[i]) < FirstAt(files, unique[j]))
  }

  /** The loop over the lines of one command. */
  method KeepNonBlank(lines: seq<string>) returns (kept: seq<string>)
    ensures kept == NonBlank(lines)
  {
    kept := [];
    for i := 0 to |lines|
      invariant kept == NonBlank(lines[..i])
    {
      assert lines[..i + 1][..i] == lines[..i];
      if !Blank(lines[i]) {
        kept := kept + [lines[i]];
      }
    }
    assert lines[..|lines|] == lines;
  }

  /** The loop over the commands. */
  method PrintedFiles(outs: seq<Output>) returns (files: seq<string>)
    ensures files == Printed(outs)
    ensures Gathers(files, outs)
  {
    hide StripLines, NonBlank;
    files := [];
    for k := 0 to |outs|
      invariant files == Printed(outs[..k])
      invariant forall p :: p in files <==> exists n :: 0 <= n < k && outs[n].ok && p in Kept(outs[n].lines)
    {
      assert outs[..k + 1][..k] == outs[..k];
      if outs[k].ok {
        var kept := KeepNonBlank(StripLines(outs[k].lines));
        files := files + kept;
      }
    }
    assert outs[..|outs|] == outs;
  }

  /** The loop that drops repetitions. */
  method Unique(files: seq<string>) returns (unique: seq<string>)
    ensures forall p :: p in unique <==> p in files
    ensures InFirstOrder(unique, files)
  {
    var seen: set<string> := {};
    unique := [];
    for i := 0 to |files|
      invariant forall p :: p in seen <==> p in unique
      invariant forall p :: p in unique <==> p in files[..i]
      invariant InFirstOrder(unique, files)
    {
      if files[i] !in seen {
        assert FirstAt(files, files[i]) == i by { assert files[i] !in files[..i]; }
        forall a | 0 <= a < |unique| ensures FirstAt(files, unique[a]) < i {
          EarlierIsFirst(files, unique[a], i);
        }
        seen := seen + {files[i]};
        unique := unique + [files[i]];
      }
    }
    assert files[..|files|] == files;
  }

  /** `collect_changed_files`: what is read off the commands that succeeded, each once, in
      order of first appearance. */
  method CollectChangedFiles(outs: seq<Output>) returns (unique: seq<string>)
    ensures Gathers(unique, outs)
    ensures InFirstOrder(unique, Printed(outs))
  {
    var files := PrintedFiles(outs);
    unique := Unique(files);
  }

  lemma EarlierIsFirst(files: seq<string>, p: string, i: nat)
    requires i <= |files| && p in files[..i]
    ensures FirstAt(files, p) < i
  {
    var k :| 0 <= k < i && files[k] == p;
    var first := FirstAt(files, p);
    assert forall m :: 0 <= m < first ==> files[..first][m] != p;
  }

  // ------------------------------------------------------------------ path rules

  function NormalizeAll(s: seq<string>): (r: seq<string>)
    ensures |r| == |s|
    ensures forall i :: 0 <= i < |s| ==> r[i] == NormalizePath(s[i])
  {
    if s == [] then [] else [NormalizePath(s[0])] + NormalizeAll(s[1..])
  }

  function SetOf(s: seq<string>): set<string> {
    set p | p in s
  }

  // ------------------------------------------------------------------ the audit

  datatype Reason = ForbiddenPath | ForbiddenExtra | OutsideExpected | MissingExpected

  datatype Audit = Audit(
    passed: bool, violations: seq<(string, Reason)>,
    unexpected: seq<string>, forbidden: seq<string>, missing: set<string>, total: nat)

  /** What one changed file is guilty of, if anything. */
  function Verdict(path: string, expected: set<string>, extra: seq<string>): Option<Reason> {
    if IsForbidden(path) then Some(ForbiddenPath)
    else if path in extra then Some(ForbiddenExtra)
    else if path !in expected then Some(OutsideExpected)
    else None
  }

  /** The violations of the changed files in their order. */
  function Guilty(changed: seq<string>, expected: set<string>, extra: seq<string>): (g: seq<(string, Reason)>)
    ensures g == [] <==> forall p :: p in changed ==> Verdict(p, expected, extra).None?
  {
    if changed == [] then []
    else
      var path := changed[|changed| - 1];
      var v := Verdict(path, expected, extra);
      Guilty(changed[..|changed| - 1], expected, extra) + (if v.Some? then [(path, v.value)] else [])
  }

  /** The forbidden ones among the changed files, in their order. */
  function Hits(changed: seq<string>, extra: seq<string>): (r: seq<string>)
    ensures forall p :: p in r <==> p in changed && (IsForbidden(p) || p in extra)
  {
    if changed == [] then []
    else
      var path := changed[|changed| - 1];
      Hits(changed[..|changed| - 1], extra) + (if IsForbidden(path) || path in extra then [path] else [])
  }

  /** The changed files that only are outside the expected ones, in their order. */
  function Outside(changed: seq<string>, expected: set<string>, extra: seq<string>): (r: seq<string>)
    ensures forall p :: p in r <==> p in changed && Verdict(p, expected, extra) == Some(OutsideExpected)
  {
    if changed == [] then []
    else
      var path := changed[|changed| - 1];
      Outside(changed[..|changed| - 1], expected, extra)
      + (if Verdict(path, expected, extra) == Some(OutsideExpected) then [path] else [])
  }

  /** The loop over the changed files. */
  method ScanChanged(changed: seq<string>, expected: set<string>, extra: seq<string>)
    returns (violations: seq<(string, Reason)>, unexpected: seq<string>, forbidden: seq<string>)
    ensures violations == Guilty(changed, expected, extra)
    ensures forbidden == Hits(changed, extra)
    ensures unexpected == Outside(changed, expected, extra)
  {
    violations, unexpected, forbidden := [], [], [];
    for i := 0 to |changed|
      invariant violations == Guilty(changed[..i], expected, extra)
      invariant forbidden == Hits(changed[..i], extra)
      invariant unexpected == Outside(changed[..i], expected, extra)
    {
      var path := changed[i];
      assert changed[..i + 1][..i] == changed[..i];
      if IsForbidden(path) {
        forbidden := forbidden + [path];
        violations := violations + [(path, ForbiddenPath)];
      } else if path in extra {
        forbidden := forbidden + [path];
        violations := violations + [(path, ForbiddenExtra)];
      } else if path !in expected {
        unexpected := unexpected + [path];
        violations := violations + [(path, OutsideExpected)];
      }
    }
    assert changed[..|changed|] == changed;
  }

  /** The loop over the missing files. */
  method ListMissing(missing: set<string>) returns (v: seq<(string, Reason)>)
    ensures NamesMissing(v, missing)
  {
    v := [];
    var rest := missing;
    while rest != {}
      invariant rest <= missing && |v| == |missing| - |rest|
      invariant forall p, r :: (p, r) in v <==> p in missing - rest && r == MissingExpected
      decreases rest
    {
      var f :| f in rest;
      v := v + [(f, MissingExpected)];
      rest := rest - {f};
    }
  }

  /** Each missing file once, in some order. */
  ghost predicate NamesMissing(v: seq<(string, Reason)>, missing: set<string>) {
    |v| == |missing| && forall p, r :: (p, r) in v <==> p in missing && r == MissingExpected
  }

  /** The report is right about these normalised paths. */
  ghost predicate Reports(a: Audit, changed: seq<string>, expected: set<string>, extra: seq<string>) {
    && a.missing == expected - SetOf(changed)
    && a.total == |changed|
    && (var guilty := Guilty(changed, expected, extra);
        guilty <= a.violations && NamesMissing(a.violations[|guilty|..], a.missing))
    && multiset(a.forbidden) == multiset(Hits(changed, extra))
    && multiset(a.unexpected) == multiset(Outside(changed, expected, extra))
    && (a.passed <==> Passes(changed, expected, extra))
  }

  predicate Passes(changed: seq<string>, expected: set<string>, extra: seq<string>) {
    && (forall p :: p in changed ==> Verdict(p, expected, extra).None?)
    && (forall p :: p in expected ==> p in changed)
  }

  method AuditNormalized(changed: seq<string>, expected: set<string>, extra: seq<string>) returns (a: Audit)
    ensures Reports(a, changed, expected, extra)
  {
    var violations, unexpected, forbidden := ScanChanged(changed, expected, extra);
    var missing := expected - SetOf(changed);
    var more := ListMissing(missing);
    forall p | p in expected && missing == {} ensures p in changed {
      assert p !in missing;
    }
    assert (violations + more)[|violations|..] == more;
    a := Audit(|violations + more| == 0, violations + more, unexpected, forbidden, missing, |changed|);
  }

  // ------------------------------------------------------- the audit in terms of the files

  /** Why the audit objects to the changed file, if it does. */
  predicate Objects(file: string, expected: seq<string>, extra: seq<string>, why: Reason) {
    var path := NormalizePath(file);
    match why
    case ForbiddenPath => Reserved(file)
    case ForbiddenExtra => !Reserved(file) && path in extra
    case OutsideExpected => !Reserved(file) && path !in extra && path !in expected
    case MissingExpected => false
  }

  ghost predicate SomeObjected(path: string, changedFiles: seq<string>, expected: seq<string>, extra: seq<string>,
                               why: Reason) {
    exists i :: 0 <= i < |changedFiles| && NormalizePath(changedFiles[i]) == path
                && Objects(changedFiles[i], expected, extra, why)
  }

  /** Every changed file is free of the reserved directories and words, not forbidden by the
      mission, and expected; and every expected file changed. */
  predicate AllInOrder(changedFiles: seq<string>, expectedFiles: seq<string>, forbiddenExtra: seq<string>) {
    && (forall i :: 0 <= i < |changedFiles| ==>
          && !Reserved(changedFiles[i])
          && NormalizePath(changedFiles[i]) !in NormalizeAll(forbiddenExtra)
          && NormalizePath(changedFiles[i]) in NormalizeAll(expectedFiles))
    && (forall j :: 0 <= j < |expectedFiles| ==> NormalizePath(expectedFiles[j]) in NormalizeAll(changedFiles))
  }

  /** What the report says about the files it was given. */
  ghost predicate Says(a: Audit, changedFiles: seq<string>, expectedFiles: seq<string>, forbiddenExtra: seq<string>) {
    var (expected, extra) := (NormalizeAll(expectedFiles), NormalizeAll(forbiddenExtra));
    && (a.passed <==> AllInOrder(changedFiles, expectedFiles, forbiddenExtra))
    && (forall p :: p in a.forbidden <==>
          || SomeObjected(p, changedFiles, expected, extra, ForbiddenPath)
          || SomeObjected(p, changedFiles, expected, extra, ForbiddenExtra))
    && (forall p :: p in a.unexpected <==> SomeObjected(p, changedFiles, expected, extra, OutsideExpected))
    && (forall p :: p in a.missing <==> p in expected && p !in NormalizeAll(changedFiles))
    && (forall p, why :: (p, why) in a.violations <==>
          || SomeObjected(p, changedFiles, expected, extra, why)
          || (why.MissingExpected? && p in a.missing))
  }

  lemma VerdictObjects(file: string, expected: seq<string>, extra: seq<string>, why: Reason)
    ensures Verdict(NormalizePath(file), SetOf(expected), extra) == Some(why) <==>
            Objects(file, expected, extra, why)
    ensures IsForbidden(NormalizePath(file)) <==> Reserved(file)
  {
    hide Reserved, IsForbidden;
    NormalizedIsForbidden(file);
    ForbiddenExactlyWhen(file);
  }

  lemma SomeObjectedIs(p: string, files: seq<string>, expected: seq<string>, extra: seq<string>, why: Reason)
    ensures SomeObjected(p, files, expected, extra, why) <==>
            p in NormalizeAll(files) && Verdict(p, SetOf(expected), extra) == Some(why)
  {
    hide Verdict, Objects;
    forall i | 0 <= i < |files|
      ensures Verdict(NormalizePath(files[i]), SetOf(expected), extra) == Some(why) <==>
              Objects(files[i], expected, extra, why)
    {
      VerdictObjects(files[i], expected, extra, why);
    }
    if p in NormalizeAll(files) && Verdict(p, SetOf(expected), extra) == Some(why) {
      var i :| 0 <= i < |files| && NormalizeAll(files)[i] == p;
      assert NormalizePath(files[i]) == p;
    }
  }

  lemma {:induction false} GuiltyMembers(changed: seq<string>, expected: set<string>, extra: seq<string>,
                                         p: string, why: Reason)
    ensures (p, why) in Guilty(changed, expected, extra) <==>
            p in changed && Verdict(p, expected, extra) == Some(why)
  {
    hide Verdict;
    if changed != [] {
      GuiltyMembers(changed[..|changed| - 1], expected, extra, p, why);
    }
  }

  lemma SameMembers<T>(a: seq<T>, b: seq<T>, x: T)
    requires multiset(a) == multiset(b)
    ensures x in a <==> x in b
  {
    assert x in a <==> x in multiset(a);
    assert x in b <==> x in multiset(b);
  }

  lemma PassesInOrder(changedFiles: seq<string>, expectedFiles: seq<string>, forbiddenExtra: seq<string>)
    ensures Passes(NormalizeAll(changedFiles), SetOf(NormalizeAll(expectedFiles)), NormalizeAll(forbiddenExtra)) <==>
            AllInOrder(changedFiles, expectedFiles, forbiddenExtra)
  {
    hide Reserved, IsForbidden;
    var (changed, expected, extra) :=
      (NormalizeAll(changedFiles), NormalizeAll(expectedFiles), NormalizeAll(forbiddenExtra));
    forall i | 0 <= i < |changedFiles|
      ensures Verdict(changed[i], SetOf(expected), extra).None? <==>
              !Reserved(changedFiles[i]) && changed[i] !in extra && changed[i] in expected
    {
      VerdictObjects(changedFiles[i], expected, extra, ForbiddenPath);
    }
    if Passes(changed, SetOf(expected), extra) {
      forall i | 0 <= i < |changedFiles| ensures Verdict(changed[i], SetOf(expected), extra).None? {
        assert changed[i] in changed;
      }
      forall j | 0 <= j < |expectedFiles| ensures NormalizePath(expectedFiles[j]) in changed {
        assert expected[j] in expected;
      }
    }
  }

  lemma ForbiddenVerdict(p: string, expected: set<string>, extra: seq<string>)
    ensures IsForbidden(p) || p in extra <==>
            Verdict(p, expected, extra) == Some(ForbiddenPath) || Verdict(p, expected, extra) == Some(ForbiddenExtra)
  {}

  lemma SaysForbidden(a: Audit, files: seq<string>, expected: seq<string>, extra: seq<string>, p: string)
    requires Reports(a, NormalizeAll(files), SetOf(expected), extra)
    ensures p in a.forbidden <==> || SomeObjected(p, files, expected, extra, ForbiddenPath)
                                  || SomeObjected(p, files, expected, extra, ForbiddenExtra)
    ensures p in a.unexpected <==> SomeObjected(p, files, expected, extra, OutsideExpected)
  {
    hide IsForbidden, Verdict, Guilty, SomeObjected, Passes;
    var changed := NormalizeAll(files);
    SomeObjectedIs(p, files, expected, extra, ForbiddenPath);
    SomeObjectedIs(p, files, expected, extra, ForbiddenExtra);
    SomeObjectedIs(p, files, expected, extra, OutsideExpected);
    SameMembers(a.forbidden, Hits(changed, extra), p);
    SameMembers(a.unexpected, Outside(changed, SetOf(expected), extra), p);
    ForbiddenVerdict(p, SetOf(expected), extra);
  }

  lemma SplitMembers<T>(s: seq<T>, n: nat, x: T)
    requires n <= |s|
    ensures x in s <==> x in s[..n] || x in s[n..]
  {
    assert s == s[..n] + s[n..];
  }

  lemma SaysWhy(a: Audit, files: seq<string>, expected: seq<string>, extra: seq<string>, p: string, why: Reason)
    requires Reports(a, NormalizeAll(files), SetOf(expected), extra)
    ensures (p, why) in a.violations <==>
            SomeObjected(p, files, expected, extra, why) || (why.MissingExpected? && p in a.missing)
  {
    hide IsForbidden, Verdict, Guilty, Hits, Outside, SomeObjected, Passes;
    var changed := NormalizeAll(files);
    var guilty := Guilty(changed, SetOf(expected), extra);
    SomeObjectedIs(p, files, expected, extra, why);
    GuiltyMembers(changed, SetOf(expected), extra, p, why);
    SplitMembers(a.violations, |guilty|, (p, why));
  }

  lemma SaysRest(a: Audit, changedFiles: seq<string>, expectedFiles: seq<string>, forbiddenExtra: seq<string>)
    requires Reports(a, NormalizeAll(changedFiles), SetOf(NormalizeAll(expectedFiles)), NormalizeAll(forbiddenExtra))
    ensures a.passed <==> AllInOrder(changedFiles, expectedFiles, forbiddenExtra)
    ensures forall p :: p in a.missing <==> p in NormalizeAll(expectedFiles) && p !in NormalizeAll(changedFiles)
  {
    hide Guilty, Hits, Outside, Passes, AllInOrder;
    PassesInOrder(changedFiles, expectedFiles, forbiddenExtra);
  }

  lemma ReportSays(a: Audit, changedFiles: seq<string>, expectedFiles: seq<string>, forbiddenExtra: seq<string>)
    requires Reports(a, NormalizeAll(changedFiles), SetOf(NormalizeAll(expectedFiles)), NormalizeAll(forbiddenExtra))
    ensures Says(a, changedFiles, expectedFiles, forbiddenExtra)
  {
    hide Reports, SomeObjected, AllInOrder;
    var (expected, extra) := (NormalizeAll(expectedFiles), NormalizeAll(forbiddenExtra));
    SaysRest(a, changedFiles, expectedFiles, forbiddenExtra);
    forall p
      ensures p in a.forbidden <==> || SomeObjected(p, changedFiles, expected, extra, ForbiddenPath)
                                    || SomeObjected(p, changedFiles, expected, extra, ForbiddenExtra)
      ensures p in a.unexpected <==> SomeObjected(p, changedFiles, expected, extra, OutsideExpected)
    {
      SaysForbidden(a, changedFiles, expected, extra, p);
    }
    forall p, why
      ensures (p, why) in a.violations <==>
              SomeObjected(p, changedFiles, expected, extra, why) || (why.MissingExpected? && p in a.missing)
    {
      SaysWhy(a, changedFiles, expected, extra, p, why);
    }
  }

  /** `audit_against_expected`. The run passes iff every changed file is expected and
      allowed, and every expected file changed; otherwise the violations name the culprits. */
  method AuditAgainstExpected(changedFiles: seq<string>, expectedFiles: seq<string>, forbiddenExtra: seq<string>)
    returns (a: Audit)
    ensures Reports(a, NormalizeAll(changedFiles), SetOf(NormalizeAll(expectedFiles)), NormalizeAll(forbiddenExtra))
    ensures Says(a, changedFiles, expectedFiles, forbiddenExtra)
  {
    hide Reports, Says;
    a := AuditNormalized(NormalizeAll(changedFiles), SetOf(NormalizeAll(expectedFiles)), NormalizeAll(forbiddenExtra));
    ReportSays(a, changedFiles, expectedFiles, forbiddenExtra);
  }
}
