/**
  What the batch reports say over a whole chain of runs, each resuming from the report
  of the one before.
 */
module BatchResume {
  import opened Common
  import opened PathText
  import opened BatchRunner

  // ------------------------------------------------------------------------ retries

  lemma {:induction false} LastAttemptIs(i: nat, out: Outcomes, budget: nat, k: nat)
    requires k <= budget
    ensures var a := LastAttempt(i, out, budget, k);
            (forall n :: k <= n < a ==> !out(i, n)) && (a < budget ==> out(i, a))
    decreases budget - k
  {
    if !out(i, k) && k < budget { LastAttemptIs(i, out, budget, k + 1); }
  }

  /** The number of attempts is the first success or the budget, whichever comes first;
      the verdict says which attempt passed. */
  lemma RetryVerdict(i: nat, out: Outcomes, maxRetries: int)
    ensures var (v, a) := RunMission(i, out, maxRetries);
            var budget := Budget(maxRetries);
            && 1 <= a <= budget
            && (forall n :: 1 <= n < a ==> !out(i, n)) && (a < budget ==> out(i, a))
            && (v == Passed <==> out(i, 1))
            && (v == Retried <==> !out(i, 1) && exists n :: 1 < n <= budget && out(i, n))
            && (v == Failed <==> forall n :: 1 <= n <= budget ==> !out(i, n))
  {
    LastAttemptIs(i, out, Budget(maxRetries), 1);
  }

  // ------------------------------------------------------------------- one batch run

  ghost predicate DoneOk(done: map<string, Verdict>) {
    forall m :: m in done ==> Success(done[m])
  }

  predicate Stopped(missions: seq<string>, done: map<string, Verdict>, cont: bool, out: Outcomes, maxRetries: int,
                    start: nat, k: nat)
    requires k <= |missions|
  {
    !cont && exists j :: start <= j < k && FailedHere(EntryAt(missions, done, out, maxRetries, j))
  }

  /** The same, going through the missions one by one. */
  predicate Halted(missions: seq<string>, done: map<string, Verdict>, cont: bool, out: Outcomes, maxRetries: int,
                   i: nat, k: nat)
    requires i <= k <= |missions|
    decreases k - i
  {
    i < k && (!Proceeds(EntryAt(missions, done, out, maxRetries, i), cont)
              || Halted(missions, done, cont, out, maxRetries, i + 1, k))
  }

  lemma {:induction false} HaltedIsStopped(missions: seq<string>, done: map<string, Verdict>, cont: bool, out: Outcomes,
                                           maxRetries: int, i: nat, k: nat)
    requires i <= k <= |missions| && DoneOk(done)
    ensures Halted(missions, done, cont, out, maxRetries, i, k) <==>
            Stopped(missions, done, cont, out, maxRetries, i, k)
    decreases k - i
  {
    if i < k {
      HaltedIsStopped(missions, done, cont, out, maxRetries, i + 1, k);
      OnlyFailuresStop(missions, done, cont, out, maxRetries, i);
    }
  }

  lemma {:induction false} EntryFrom(missions: seq<string>, done: map<string, Verdict>, cont: bool, out: Outcomes,
                                     maxRetries: int, i: nat, k: nat)
    requires i <= k < |missions|
    ensures Entries(missions, done, cont, out, maxRetries, i)[k - i] ==
            if Halted(missions, done, cont, out, maxRetries, i, k) then
              Entry(NormalizePath(missions[k]), Skipped, 0, false)
            else EntryAt(missions, done, out, maxRetries, k)
    decreases k - i
  {
    hide Entries, EntryAt, NormalizePath;
    if k == i {
      FirstEntry(missions, done, cont, out, maxRetries, i);
    } else {
      OneFurther(missions, done, cont, out, maxRetries, i, k);
      if Proceeds(EntryAt(missions, done, out, maxRetries, i), cont) {
        EntryFrom(missions, done, cont, out, maxRetries, i + 1, k);
      }
    }
  }

  /** A mission is reached unless one before it failed and the batch stops on failure. */
  lemma EntryIs(missions: seq<string>, done: map<string, Verdict>, cont: bool, out: Outcomes, maxRetries: int, k: nat)
    requires k < |missions| && DoneOk(done)
    ensures Entries(missions, done, cont, out, maxRetries, 0)[k] ==
            if Stopped(missions, done, cont, out, maxRetries, 0, k) then
              Entry(NormalizePath(missions[k]), Skipped, 0, false)
            else EntryAt(missions, done, out, maxRetries, k)
  {
    EntryFrom(missions, done, cont, out, maxRetries, 0, k);
    HaltedIsStopped(missions, done, cont, out, maxRetries, 0, k);
  }

  lemma FirstEntry(missions: seq<string>, done: map<string, Verdict>, cont: bool, out: Outcomes,
                   maxRetries: int, i: nat)
    requires i < |missions|
    ensures Entries(missions, done, cont, out, maxRetries, i)[0] == EntryAt(missions, done, out, maxRetries, i)
  {}

  lemma BehindHead<T>(x: T, s: seq<T>, n: nat)
    requires 0 < n <= |s|
    ensures ([x] + s)[n] == s[n - 1]
  {}

  lemma OnlyFailuresStop(missions: seq<string>, done: map<string, Verdict>, cont: bool, out: Outcomes, maxRetries: int,
                         i: nat)
    requires i < |missions| && DoneOk(done)
    ensures Proceeds(EntryAt(missions, done, out, maxRetries, i), cont) <==>
            cont || !FailedHere(EntryAt(missions, done, out, maxRetries, i))
  {}

  predicate Proceeds(e: Entry, cont: bool) {
    Success(e.verdict) || e.resumed || cont
  }

  lemma OneFurther(missions: seq<string>, done: map<string, Verdict>, cont: bool, out: Outcomes, maxRetries: int,
                   i: nat, k: nat)
    requires i < k < |missions|
    ensures Entries(missions, done, cont, out, maxRetries, i)[k - i] ==
            if Proceeds(EntryAt(missions, done, out, maxRetries, i), cont)
            then Entries(missions, done, cont, out, maxRetries, i + 1)[k - (i + 1)]
            else Entry(NormalizePath(missions[k]), Skipped, 0, false)
  {
    hide EntryAt, NormalizePath;
    var e := EntryAt(missions, done, out, maxRetries, i);
    if Proceeds(e, cont) {
      BehindHead(e, Entries(missions, done, cont, out, maxRetries, i + 1), k - i);
    } else {
      BehindHead(e, SkippedEntries(missions, i + 1), k - i);
    }
  }

  lemma {:induction false} CountsAddUp(entries: seq<Entry>)
    ensures Count(entries, Passed) + Count(entries, Retried) + Count(entries, Failed) + Count(entries, Skipped) ==
            |entries|
  {
    if entries != [] { CountsAddUp(entries[..|entries| - 1]); }
  }

  predicate AllSucceed(entries: seq<Entry>) {
    forall k :: 0 <= k < |entries| ==> Success(entries[k].verdict)
  }

  /** `f` is the one failure, everything before it succeeded and everything after it was
      skipped. */
  predicate StoppedAt(entries: seq<Entry>, f: nat) {
    && f < |entries| && FailedHere(entries[f])
    && (forall j :: 0 <= j < f ==> Success(entries[j].verdict))
    && (forall j :: f < j < |entries| ==> entries[j].verdict.Skipped?)
  }

  ghost predicate HasStop(entries: seq<Entry>) {
    exists f :: StoppedAt(entries, f)
  }

  predicate AnySkipped(entries: seq<Entry>) {
    exists k :: 0 <= k < |entries| && entries[k].verdict.Skipped?
  }

  lemma EntriesInOrder(missions: seq<string>, done: map<string, Verdict>, cont: bool, out: Outcomes,
                       maxRetries: int, k: nat)
    requires DoneOk(done) && k < |missions|
    ensures var e := Entries(missions, done, cont, out, maxRetries, 0)[k];
            && e.mission == NormalizePath(missions[k])
            && (FailedHere(e) ==> !Success(e.verdict))
            && (!Success(e.verdict) && cont ==> FailedHere(e))
  {
    EntryIs(missions, done, cont, out, maxRetries, k);
  }

  /** The report has one entry per mission in manifest order, its counts add up, it is
      "passed" iff every entry is a success, and a skipped entry means that the batch
      stopped early at exactly one failure with the whole rest skipped. */
  lemma ReportShape(missions: seq<string>, done: map<string, Verdict>, cont: bool, out: Outcomes, maxRetries: int)
    requires DoneOk(done)
    ensures var es := Entries(missions, done, cont, out, maxRetries, 0);
            && |es| == |missions|
            && (forall k :: 0 <= k < |es| ==> es[k].mission == NormalizePath(missions[k]))
            && Count(es, Passed) + Count(es, Retried) + Count(es, Failed) + Count(es, Skipped) == |missions|
            && (!AnyFailed(es) <==> AllSucceed(es))
            && (AnySkipped(es) ==> !cont && HasStop(es))
            && (!cont && AnyFailed(es) ==> HasStop(es))
  {
    var es := Entries(missions, done, cont, out, maxRetries, 0);
    CountsAddUp(es);
    forall k | 0 <= k < |es|
      ensures es[k].mission == NormalizePath(missions[k])
      ensures FailedHere(es[k]) ==> !Success(es[k].verdict)
      ensures !Success(es[k].verdict) ==> if cont then FailedHere(es[k]) else HasStop(es)
    {
      EntryShape(missions, done, cont, out, maxRetries, k);
    }
  }

  lemma EntryShape(missions: seq<string>, done: map<string, Verdict>, cont: bool, out: Outcomes,
                   maxRetries: int, k: nat)
    requires DoneOk(done) && k < |missions|
    ensures var es := Entries(missions, done, cont, out, maxRetries, 0);
            && es[k].mission == NormalizePath(missions[k])
            && (FailedHere(es[k]) ==> !Success(es[k].verdict))
            && (!Success(es[k].verdict) ==> if cont then FailedHere(es[k]) else HasStop(es))
  {
    EntriesInOrder(missions, done, cont, out, maxRetries, k);
    if !Success(Entries(missions, done, cont, out, maxRetries, 0)[k].verdict) && !cont {
      FailureStops(missions, done, out, maxRetries, k);
    }
  }

  /** In stop mode whatever is not a success leads back to the first failure. */
  lemma FailureStops(missions: seq<string>, done: map<string, Verdict>, out: Outcomes, maxRetries: int, k: nat)
    requires DoneOk(done) && k < |missions|
    requires !Success(Entries(missions, done, false, out, maxRetries, 0)[k].verdict)
    ensures exists f :: StoppedAt(Entries(missions, done, false, out, maxRetries, 0), f)
    decreases k
  {
    var es := Entries(missions, done, false, out, maxRetries, 0);
    EntryIs(missions, done, false, out, maxRetries, k);
    if j :| 0 <= j < k && FailedHere(EntryAt(missions, done, out, maxRetries, j)) {
      EntryIs(missions, done, false, out, maxRetries, j);
      FailureStops(missions, done, out, maxRetries, j);
    } else {
      forall j | 0 <= j < |es| && j != k
        ensures j < k ==> Success(es[j].verdict)
        ensures j > k ==> es[j].verdict.Skipped?
      {
        EntryIs(missions, done, false, out, maxRetries, j);
        assert FailedHere(EntryAt(missions, done, out, maxRetries, k));
      }
      assert StoppedAt(es, k);
    }
  }

  lemma {:induction false} CallsAreAttempts(entries: seq<Entry>, m: string)
    ensures m in Calls(entries) <==>
            exists k :: 0 <= k < |entries| && entries[k].mission == m && entries[k].attempts > 0
  {
    if entries != [] {
      var init, last := entries[..|entries| - 1], entries[|entries| - 1];
      CallsAreAttempts(init, m);
      if last.attempts > 0 {
        assert Repeat(last.mission, last.attempts)[0] == last.mission;
      }
    }
  }

  /** A mission that the earlier report calls a success is not executed again. */
  lemma DoneIsNotRerun(missions: seq<string>, done: map<string, Verdict>, cont: bool, out: Outcomes,
                       maxRetries: int, m: string)
    requires DoneOk(done) && m in done
    ensures m !in Calls(Entries(missions, done, cont, out, maxRetries, 0))
  {
    var es := Entries(missions, done, cont, out, maxRetries, 0);
    forall k | 0 <= k < |es| && es[k].mission == m ensures es[k].attempts == 0 {
      EntryIs(missions, done, cont, out, maxRetries, k);
    }
    CallsAreAttempts(es, m);
  }

  // --------------------------------------------------------- what a run may forget

  /** The missions that succeeded earlier come before all others. */
  predicate PrefixDone(missions: seq<string>, done: map<string, Verdict>) {
    forall j, k :: 0 <= j < k < |missions| && NormalizePath(missions[k]) in done ==> NormalizePath(missions[j]) in done
  }

  /** Every earlier success is carried over with its verdict. */
  predicate CarriesOver(missions: seq<string>, done: map<string, Verdict>, entries: seq<Entry>) {
    forall k :: 0 <= k < |missions| && k < |entries| && NormalizePath(missions[k]) in done ==>
      entries[k] == Entry(NormalizePath(missions[k]), done[NormalizePath(missions[k])], 0, true)
  }

  ghost predicate NeverForgets(missions: seq<string>, done: map<string, Verdict>, cont: bool) {
    forall out: Outcomes, maxRetries: int ::
      CarriesOver(missions, done, Entries(missions, done, cont, out, maxRetries, 0))
  }

  lemma CarriedOver(missions: seq<string>, done: map<string, Verdict>, cont: bool, out: Outcomes, maxRetries: int)
    requires DoneOk(done) && (cont || PrefixDone(missions, done))
    ensures CarriesOver(missions, done, Entries(missions, done, cont, out, maxRetries, 0))
  {
    var es := Entries(missions, done, cont, out, maxRetries, 0);
    forall k | 0 <= k < |missions| && NormalizePath(missions[k]) in done
      ensures es[k] == Entry(NormalizePath(missions[k]), done[NormalizePath(missions[k])], 0, true)
    {
      EntryIs(missions, done, cont, out, maxRetries, k);
      assert !Stopped(missions, done, cont, out, maxRetries, 0, k);
    }
  }

  /** However its missions turn out, a run keeps every earlier success iff it goes on after
      failures or the earlier successes form a prefix of the manifest. A stop-mode run that
      resumes from a report with a gap may write a later success off as skipped. */
  lemma ForgetsExactlyWhen(missions: seq<string>, done: map<string, Verdict>, cont: bool)
    requires DoneOk(done)
    ensures NeverForgets(missions, done, cont) <==> cont || PrefixDone(missions, done)
  {
    if cont || PrefixDone(missions, done) {
      forall out: Outcomes, maxRetries: int
        ensures CarriesOver(missions, done, Entries(missions, done, cont, out, maxRetries, 0))
      {
        CarriedOver(missions, done, cont, out, maxRetries);
      }
    } else {
      var j, k :| 0 <= j < k < |missions| && NormalizePath(missions[k]) in done && NormalizePath(missions[j]) !in done;
      GapMayForget(missions, done, j, k);
    }
  }

  lemma GapMayForget(missions: seq<string>, done: map<string, Verdict>, j: nat, k: nat)
    requires DoneOk(done) && j < k < |missions|
    requires NormalizePath(missions[k]) in done && NormalizePath(missions[j]) !in done
    ensures !NeverForgets(missions, done, false)
  {
    var never: Outcomes := (i, n) => false;
    EntryIs(missions, done, false, never, 0, k);
    assert FailedHere(EntryAt(missions, done, never, 0, j));
    assert Stopped(missions, done, false, never, 0, 0, k);
    assert !CarriesOver(missions, done, Entries(missions, done, false, never, 0, 0));
  }

  predicate PrefixSucceeds(entries: seq<Entry>) {
    forall j, k :: 0 <= j < k < |entries| && Success(entries[k].verdict) ==> Success(entries[j].verdict)
  }

  /** In stop mode the successes of a run form a prefix of the manifest. */
  lemma StopModeKeepsPrefix(missions: seq<string>, done: map<string, Verdict>, out: Outcomes, maxRetries: int)
    requires DoneOk(done)
    ensures PrefixSucceeds(Entries(missions, done, false, out, maxRetries, 0))
  {
    var es := Entries(missions, done, false, out, maxRetries, 0);
    forall j, k | 0 <= j < k < |es| && Success(es[k].verdict) ensures Success(es[j].verdict) {
      if !Success(es[j].verdict) {
        FailureStops(missions, done, out, maxRetries, j);
      }
    }
  }

  // ------------------------------------------------------------------- chains of runs

  datatype RunInput = RunInput(out: Outcomes, maxRetries: int)

  /** The report after a chain of runs in one failure mode, each resuming from the last. */
  function Chain(missions: seq<string>, cont: bool, runs: seq<RunInput>): seq<Entry> {
    if runs == [] then []
    else
      var last := runs[|runs| - 1];
      Entries(missions, Done(Chain(missions, cont, runs[..|runs| - 1])), cont, last.out, last.maxRetries, 0)
  }

  /** Reading a report back gives exactly its successes. */
  lemma {:induction false} DoneMeans(missions: seq<string>, entries: seq<Entry>)
    requires Distinct(missions) && |entries| <= |missions|
    requires forall k :: 0 <= k < |entries| ==> entries[k].mission == NormalizePath(missions[k])
    ensures DoneOk(Done(entries))
    ensures forall k :: 0 <= k < |entries| ==>
              (NormalizePath(missions[k]) in Done(entries) <==> Success(entries[k].verdict))
    ensures forall k :: 0 <= k < |entries| && Success(entries[k].verdict) ==>
              Done(entries)[NormalizePath(missions[k])] == entries[k].verdict
    ensures forall k :: |entries| <= k < |missions| ==> NormalizePath(missions[k]) !in Done(entries)
  {
    if entries != [] {
      DoneMeans(missions, entries[..|entries| - 1]);
      NormalizeIdempotent(missions[|entries| - 1]);
    }
  }

  lemma {:induction false} ChainIsSound(missions: seq<string>, cont: bool, runs: seq<RunInput>)
    requires Distinct(missions)
    ensures var es := Chain(missions, cont, runs);
            && DoneOk(Done(es))
            && (cont || PrefixDone(missions, Done(es)))
            && (runs != [] ==> |es| == |missions|)
            && (forall k :: 0 <= k < |es| && k < |missions| ==> es[k].mission == NormalizePath(missions[k]))
            && (!cont ==> PrefixSucceeds(es))
  {
    var es := Chain(missions, cont, runs);
    if runs != [] {
      var last := runs[|runs| - 1];
      var done := Done(Chain(missions, cont, runs[..|runs| - 1]));
      ChainIsSound(missions, cont, runs[..|runs| - 1]);
      ReportShape(missions, done, cont, last.out, last.maxRetries);
      if !cont { StopModeKeepsPrefix(missions, done, last.out, last.maxRetries); }
    }
    DoneMeans(missions, es);
  }

  /** One more run in the same mode: every success so far stays, with its verdict, and
      none of those missions is executed. */
  lemma NextRunKeeps(missions: seq<string>, cont: bool, runs: seq<RunInput>, k: nat)
    requires Distinct(missions) && |runs| >= 2 && k < |missions|
    requires var before := Chain(missions, cont, runs[..|runs| - 1]);
             k < |before| && Success(before[k].verdict)
    ensures var before := Chain(missions, cont, runs[..|runs| - 1]);
            var after := Chain(missions, cont, runs);
            && k < |after|
            && after[k] == Entry(NormalizePath(missions[k]), before[k].verdict, 0, true)
            && NormalizePath(missions[k]) !in Calls(after)
  {
    var before := Chain(missions, cont, runs[..|runs| - 1]);
    var last := runs[|runs| - 1];
    ChainIsSound(missions, cont, runs[..|runs| - 1]);
    DoneMeans(missions, before);
    CarriedOver(missions, Done(before), cont, last.out, last.maxRetries);
    DoneIsNotRerun(missions, Done(before), cont, last.out, last.maxRetries, NormalizePath(missions[k]));
  }

  /** Along a whole chain in one mode: a mission that succeeded in the `n`-th run has that
      verdict in every later report and is never executed again. */
  lemma {:induction false} SuccessIsForever(missions: seq<string>, cont: bool, runs: seq<RunInput>, n: nat, k: nat)
    requires Distinct(missions) && 0 < n < |runs| && k < |missions|
    requires var then_ := Chain(missions, cont, runs[..n]); k < |then_| && Success(then_[k].verdict)
    ensures var now := Chain(missions, cont, runs);
            && k < |now|
            && now[k] == Entry(NormalizePath(missions[k]), Chain(missions, cont, runs[..n])[k].verdict, 0, true)
            && NormalizePath(missions[k]) !in Calls(now)
    decreases |runs|
  {
    var shorter := runs[..|runs| - 1];
    if n < |shorter| {
      assert shorter[..n] == runs[..n];
      SuccessIsForever(missions, cont, shorter, n, k);
    }
    NextRunKeeps(missions, cont, runs, k);
  }

  /** A report in which everything succeeded is a fixpoint: the next run executes nothing,
      repeats every verdict and passes. */
  lemma FullSuccessIsFixpoint(missions: seq<string>, cont: bool, runs: seq<RunInput>)
    requires Distinct(missions) && |runs| >= 2
    requires AllSucceed(Chain(missions, cont, runs[..|runs| - 1]))
    ensures var before := Chain(missions, cont, runs[..|runs| - 1]);
            var after := Chain(missions, cont, runs);
            && |after| == |before|
            && (forall k :: 0 <= k < |after| ==> after[k] == before[k].(attempts := 0, resumed := true))
            && Calls(after) == [] && !AnyFailed(after)
  {
    var before := Chain(missions, cont, runs[..|runs| - 1]);
    var after := Chain(missions, cont, runs);
    ChainIsSound(missions, cont, runs[..|runs| - 1]);
    forall k | 0 <= k < |after| ensures after[k] == before[k].(attempts := 0, resumed := true) {
      NextRunKeeps(missions, cont, runs, k);
    }
    assert [] + after == after;
    CallsOfSkipped([], after);
  }
}
