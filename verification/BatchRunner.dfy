/**
  The batch runner: missions in manifest order, each retried, stopping at the first
  failure unless told to go on, and resuming from an earlier report.
 */
module BatchRunner {
  import opened Common
  import opened PathText

  datatype Verdict = Passed | Retried | Failed | Skipped

  predicate Success(v: Verdict) {
    v.Passed? || v.Retried?
  }

  datatype Entry = Entry(mission: string, verdict: Verdict, attempts: nat, resumed: bool)

  /** How the attempts of one batch run go: the `k`-th attempt (from 1) at the mission in
      position `i` passes or not. A mission file that cannot be parsed fails every attempt. */
  type Outcomes = (nat, nat) -> bool

  // ------------------------------------------------------------------------ retries

  function Budget(maxRetries: int): nat {
    if maxRetries > 0 then maxRetries + 1 else 1
  }

  /** The first attempt from `k` on that passes, or the last one the budget allows. */
  function LastAttempt(i: nat, out: Outcomes, budget: nat, k: nat): (a: nat)
    requires k <= budget
    ensures k <= a <= budget
    decreases budget - k
  {
    if out(i, k) || k == budget then k else LastAttempt(i, out, budget, k + 1)
  }

  function RunMission(i: nat, out: Outcomes, maxRetries: int): (Verdict, nat) {
    var a := LastAttempt(i, out, Budget(maxRetries), 1);
    (if !out(i, a) then Failed else if a == 1 then Passed else Retried, a)
  }

  /** `run_mission_with_retries`. `calls` lists the missions whose execution was started,
      one element per attempt. */
  method RunWithRetries(i: nat, mission: string, out: Outcomes, maxRetries: int) returns (e: Entry, calls: seq<string>)
    ensures (e.verdict, e.attempts) == RunMission(i, out, maxRetries)
    ensures e.mission == NormalizePath(mission) && !e.resumed
    ensures calls == Repeat(NormalizePath(mission), e.attempts)
  {
    var attempts := 0;
    var passed := false;
    calls := [];
    while true
      invariant attempts < Budget(maxRetries)
      invariant calls == Repeat(NormalizePath(mission), attempts)
      invariant LastAttempt(i, out, Budget(maxRetries), attempts + 1) == LastAttempt(i, out, Budget(maxRetries), 1)
      decreases Budget(maxRetries) - attempts
    {
      attempts := attempts + 1;
      calls := calls + [NormalizePath(mission)];
      passed := out(i, attempts);
      if passed || attempts > maxRetries {
        break;
      }
    }
    var verdict := if !passed then Failed else if attempts > 1 then Retried else Passed;
    e := Entry(NormalizePath(mission), verdict, attempts, false);
  }

  function Repeat(s: string, n: nat): (r: seq<string>)
    ensures |r| == n && forall i :: 0 <= i < n ==> r[i] == s
  {
    if n == 0 then [] else Repeat(s, n - 1) + [s]
  }

  // ------------------------------------------------------------------------ resuming

  /** What an earlier report says succeeded; a later entry for the same mission wins. */
  function Done(entries: seq<Entry>): map<string, Verdict> {
    if entries == [] then map[]
    else
      var last := entries[|entries| - 1];
      var d := Done(entries[..|entries| - 1]);
      if Success(last.verdict) then d[NormalizePath(last.mission) := last.verdict] else d
  }

  /** `load_resume_state`; `None` stands for no report, or one that cannot be read. */
  method LoadResumeState(report: Option<seq<Entry>>) returns (done: map<string, Verdict>)
    ensures done == if report.Some? then Done(report.value) else map[]
  {
    done := map[];
    if report.None? { return; }
    for i := 0 to |report.value|
      invariant done == Done(report.value[..i])
    {
      assert report.value[..i + 1][..i] == report.value[..i];
      if Success(report.value[i].verdict) {
        done := done[NormalizePath(report.value[i].mission) := report.value[i].verdict];
      }
    }
    assert report.value[..|report.value|] == report.value;
  }

  // ------------------------------------------------------------------------- a batch

  function SkippedEntries(missions: seq<string>, i: nat): (r: seq<Entry>)
    requires i <= |missions|
    ensures |r| == |missions| - i
    ensures forall k :: 0 <= k < |r| ==> r[k] == Entry(NormalizePath(missions[i + k]), Skipped, 0, false)
    decreases |missions| - i
  {
    if i == |missions| then []
    else [Entry(NormalizePath(missions[i]), Skipped, 0, false)] + SkippedEntries(missions, i + 1)
  }

  /** The entry of the mission in position `i` when it is reached. */
  function EntryAt(missions: seq<string>, done: map<string, Verdict>, out: Outcomes, maxRetries: int, i: nat): Entry
    requires i < |missions|
  {
    var m := NormalizePath(missions[i]);
    if m in done then Entry(m, done[m], 0, true)
    else var (v, a) := RunMission(i, out, maxRetries); Entry(m, v, a, false)
  }

  /** The entries from position `i` on. */
  function Entries(missions: seq<string>, done: map<string, Verdict>, cont: bool, out: Outcomes,
                   maxRetries: int, i: nat): (r: seq<Entry>)
    requires i <= |missions|
    ensures |r| == |missions| - i
    decreases |missions| - i
  {
    if i == |missions| then []
    else
      var e := EntryAt(missions, done, out, maxRetries, i);
      [e] + (if Success(e.verdict) || e.resumed || cont then Entries(missions, done, cont, out, maxRetries, i + 1)
             else SkippedEntries(missions, i + 1))
  }

  function Calls(entries: seq<Entry>): seq<string> {
    if entries == [] then []
    else
      var last := entries[|entries| - 1];
      Calls(entries[..|entries| - 1]) + Repeat(last.mission, last.attempts)
  }

  datatype Report = Report(
    entries: seq<Entry>, aggregatePassed: bool, stoppedEarly: bool, total: nat,
    passed: nat, retried: nat, failed: nat, skipped: nat, resumed: bool)

  function Count(entries: seq<Entry>, v: Verdict): nat {
    if entries == [] then 0
    else Count(entries[..|entries| - 1], v) + (if entries[|entries| - 1].verdict == v then 1 else 0)
  }

  predicate FailedHere(e: Entry) {
    !e.resumed && e.verdict.Failed?
  }

  predicate AnyFailed(entries: seq<Entry>) {
    exists k :: 0 <= k < |entries| && FailedHere(entries[k])
  }

  /** The scheduling loop of `run_batch`. */
  method Schedule(missions: seq<string>, done: map<string, Verdict>, cont: bool, out: Outcomes, maxRetries: int)
    returns (results: seq<Entry>, aggregatePassed: bool, stoppedEarly: bool, calls: seq<string>)
    ensures results == Entries(missions, done, cont, out, maxRetries, 0)
    ensures calls == Calls(results)
    ensures aggregatePassed <==> !AnyFailed(results)
    ensures stoppedEarly <==> !cont && AnyFailed(results)
  {
    results, aggregatePassed, stoppedEarly, calls := [], true, false, [];
    ghost var all := Entries(missions, done, cont, out, maxRetries, 0);
    var i := 0;
    while i < |missions|
      invariant 0 <= i <= |missions| && |results| == i
      invariant all == results + Entries(missions, done, cont, out, maxRetries, i)
      invariant calls == Calls(results) && !stoppedEarly
      invariant aggregatePassed <==> !AnyFailed(results)
      invariant !aggregatePassed ==> cont
    {
      var norm := NormalizePath(missions[i]);
      EntriesUnfold(results, missions, done, cont, out, maxRetries, i);
      if norm in done {
        var e := Entry(norm, done[norm], 0, true);
        CallsSnoc(results, e);
        AnyFailedSnoc(results, e);
        results := results + [e];
      } else {
        var res, made := RunWithRetries(i, missions[i], out, maxRetries);
        CallsSnoc(results, res);
        AnyFailedSnoc(results, res);
        results := results + [res];
        calls := calls + made;
        if !Success(res.verdict) {
          aggregatePassed := false;
          if !cont {
            stoppedEarly := true;
            var rest := SkipRest(missions, i + 1);
            StopsHere(results, rest);
            results := results + rest;
            return;
          }
        }
      }
      i := i + 1;
    }
  }

  lemma EntriesUnfold(before: seq<Entry>, missions: seq<string>, done: map<string, Verdict>, cont: bool,
                      out: Outcomes, maxRetries: int, i: nat)
    requires i < |missions|
    ensures var e := EntryAt(missions, done, out, maxRetries, i);
            before + Entries(missions, done, cont, out, maxRetries, i) ==
            before + [e] + (if Success(e.verdict) || e.resumed || cont
                            then Entries(missions, done, cont, out, maxRetries, i + 1)
                            else SkippedEntries(missions, i + 1))
  {}

  /** The missions after the failed one are recorded without being run. */
  method SkipRest(missions: seq<string>, start: nat) returns (rest: seq<Entry>)
    requires start <= |missions|
    ensures rest == SkippedEntries(missions, start)
  {
    rest := [];
    for n := start to |missions|
      invariant SkippedEntries(missions, start) == rest + SkippedEntries(missions, n)
    {
      rest := rest + [Entry(NormalizePath(missions[n]), Skipped, 0, false)];
    }
  }

  lemma AnyFailedSnoc(entries: seq<Entry>, e: Entry)
    ensures AnyFailed(entries + [e]) <==> AnyFailed(entries) || FailedHere(e)
  {
    if AnyFailed(entries) {
      var k :| 0 <= k < |entries| && FailedHere(entries[k]);
      assert FailedHere((entries + [e])[k]);
    }
    if FailedHere(e) {
      assert FailedHere((entries + [e])[|entries|]);
    }
  }

  lemma {:induction false} CallsOfSkipped(entries: seq<Entry>, rest: seq<Entry>)
    requires forall k :: 0 <= k < |rest| ==> rest[k].attempts == 0
    ensures Calls(entries + rest) == Calls(entries)
  {
    if rest == [] {
      assert entries + rest == entries;
    } else {
      var init := rest[..|rest| - 1];
      CallsOfSkipped(entries, init);
      assert entries + rest == entries + init + [rest[|rest| - 1]];
      CallsSnoc(entries + init, rest[|rest| - 1]);
    }
  }

  lemma StopsHere(results: seq<Entry>, rest: seq<Entry>)
    requires results != [] && FailedHere(results[|results| - 1])
    requires forall k :: 0 <= k < |rest| ==> rest[k].attempts == 0
    ensures AnyFailed(results + rest) && Calls(results + rest) == Calls(results)
  {
    assert FailedHere((results + rest)[|results| - 1]);
    CallsOfSkipped(results, rest);
  }

  lemma CallsSnoc(entries: seq<Entry>, e: Entry)
    ensures Calls(entries + [e]) == Calls(entries) + Repeat(e.mission, e.attempts)
  {
    assert (entries + [e])[..|entries|] == entries;
  }

  predicate AnyResumed(entries: seq<Entry>) {
    entries != [] && (AnyResumed(entries[..|entries| - 1]) || entries[|entries| - 1].resumed)
  }

  /** `build_batch_payload`: counting the verdicts. */
  method BuildPayload(results: seq<Entry>, aggregatePassed: bool, stoppedEarly: bool, total: nat) returns (r: Report)
    ensures r == Report(results, aggregatePassed, stoppedEarly, total, Count(results, Passed), Count(results, Retried),
                        Count(results, Failed), Count(results, Skipped), AnyResumed(results))
  {
    var passed, retried, failed, skipped := 0, 0, 0, 0;
    var resumed := false;
    for i := 0 to |results|
      invariant passed == Count(results[..i], Passed) && retried == Count(results[..i], Retried)
      invariant failed == Count(results[..i], Failed) && skipped == Count(results[..i], Skipped)
      invariant resumed == AnyResumed(results[..i])
    {
      assert results[..i + 1][..i] == results[..i];
      match results[i].verdict {
        case Passed => passed := passed + 1;
        case Retried => retried := retried + 1;
        case Failed => failed := failed + 1;
        case Skipped => skipped := skipped + 1;
      }
      resumed := resumed || results[i].resumed;
    }
    assert results[..|results|] == results;
    r := Report(results, aggregatePassed, stoppedEarly, total, passed, retried, failed, skipped, resumed);
  }

  /** `run_batch` from an earlier report. */
  method RunBatch(missions: seq<string>, earlier: Option<seq<Entry>>, cont: bool, out: Outcomes, maxRetries: int)
    returns (r: Report, calls: seq<string>)
    ensures var done := if earlier.Some? then Done(earlier.value) else map[];
            r.entries == Entries(missions, done, cont, out, maxRetries, 0)
    ensures calls == Calls(r.entries) && r.total == |missions|
    ensures r.aggregatePassed <==> !AnyFailed(r.entries)
    ensures r.stoppedEarly <==> !cont && AnyFailed(r.entries)
    ensures r.passed == Count(r.entries, Passed) && r.retried == Count(r.entries, Retried)
    ensures r.failed == Count(r.entries, Failed) && r.skipped == Count(r.entries, Skipped)
  {
    var done := LoadResumeState(earlier);
    var results, aggregatePassed, stoppedEarly;
    results, aggregatePassed, stoppedEarly, calls := Schedule(missions, done, cont, out, maxRetries);
    r := BuildPayload(results, aggregatePassed, stoppedEarly, |missions|);
  }

  /** `validate_manifest`, the mission list: non-empty, every path confined to the ledger,
      no path twice. */
  method ValidateMissions(missions: seq<string>) returns (ok: bool)
    ensures ok <==> ValidMissions(missions)
  {
    ok := CheckMissions(missions, p => LedgerJsonPath(p), p => NormalizePath(p));
  }

  method CheckMissions(missions: seq<string>, valid: string -> bool, key: string -> string) returns (ok: bool)
    ensures ok <==>
            && missions != [] && (forall k :: 0 <= k < |missions| ==> valid(missions[k]))
            && DistinctBy(missions, key)
  {
    ok := missions != [];
    var seen: set<string> := {};
    for i := 0 to |missions|
      invariant ok ==> missions != []
      invariant ok ==> forall k :: 0 <= k < i ==> valid(missions[k]) && key(missions[k]) in seen
      invariant forall m :: m in seen ==> exists k :: 0 <= k < i && key(missions[k]) == m
      invariant ok ==> forall a, b :: 0 <= a < b < i ==> key(missions[a]) != key(missions[b])
      invariant !ok ==> missions == [] || (exists k :: 0 <= k < i && !valid(missions[k])) || !DistinctBy(missions, key)
    {
      if !valid(missions[i]) {
        ok := false;
      } else {
        var norm := key(missions[i]);
        if norm in seen { ok := false; }
        seen := seen + {norm};
      }
    }
  }

  predicate DistinctBy(missions: seq<string>, key: string -> string) {
    forall a, b :: 0 <= a < b < |missions| ==> key(missions[a]) != key(missions[b])
  }

  predicate Distinct(missions: seq<string>) {
    forall a, b :: 0 <= a < b < |missions| ==> NormalizePath(missions[a]) != NormalizePath(missions[b])
  }

  predicate ValidMissions(missions: seq<string>) {
    missions != [] && (forall k :: 0 <= k < |missions| ==> LedgerJsonPath(missions[k])) && Distinct(missions)
  }
}
