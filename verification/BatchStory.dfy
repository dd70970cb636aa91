/**
  What becomes of each mission of a batch, said without the scheduler: from the earlier report,
  the outcomes of its attempts, and the missions before it.
 */
module BatchStory {
  import opened Common
  import opened PathText
  import opened BatchRunner
  import opened BatchResume

  /** The earlier report has a success for this mission. */
  predicate Succeeded(earlier: seq<Entry>, m: string) {
    exists i :: 0 <= i < |earlier| && SuccessFor(earlier[i], m)
  }

  predicate SuccessFor(e: Entry, m: string) {
    NormalizePath(e.mission) == m && (e.verdict == Passed || e.verdict == Retried)
  }

  /** The last success of the earlier report for this mission has this verdict. */
  predicate LastSuccess(earlier: seq<Entry>, m: string, v: Verdict) {
    exists i :: 0 <= i < |earlier| && IsLastSuccess(earlier, m, i) && earlier[i].verdict == v
  }

  predicate IsLastSuccess(earlier: seq<Entry>, m: string, i: nat)
    requires i < |earlier|
  {
    SuccessFor(earlier[i], m) && forall j :: i < j < |earlier| ==> !SuccessFor(earlier[j], m)
  }

  lemma OneMoreEntry(init: seq<Entry>, e: Entry, m: string)
    ensures Succeeded(init + [e], m) <==> Succeeded(init, m) || SuccessFor(e, m)
    ensures SuccessFor(e, m) ==> LastSuccess(init + [e], m, e.verdict)
    ensures forall v :: !SuccessFor(e, m) && LastSuccess(init, m, v) ==> LastSuccess(init + [e], m, v)
  {
    hide SuccessFor;
    var all := init + [e];
    assert all[|init|] == e && forall i :: 0 <= i < |init| ==> all[i] == init[i];
    if Succeeded(init, m) {
      var i :| 0 <= i < |init| && SuccessFor(init[i], m);
      assert SuccessFor(all[i], m);
    }
    if SuccessFor(e, m) { assert IsLastSuccess(all, m, |init|); }
    forall v | !SuccessFor(e, m) && LastSuccess(init, m, v) ensures LastSuccess(all, m, v) {
      var i :| 0 <= i < |init| && IsLastSuccess(init, m, i) && init[i].verdict == v;
      assert IsLastSuccess(all, m, i);
    }
  }

  lemma {:induction false} DoneIs(earlier: seq<Entry>, m: string)
    ensures m in Done(earlier) <==> Succeeded(earlier, m)
    ensures m in Done(earlier) ==> LastSuccess(earlier, m, Done(earlier)[m])
  {
    hide Succeeded, LastSuccess, NormalizePath;
    if earlier == [] {
      NoneSucceeded(m);
    } else {
      var init, last := earlier[..|earlier| - 1], earlier[|earlier| - 1];
      DoneIs(init, m);
      OneMoreEntry(init, last, m);
      assert init + [last] == earlier;
    }
  }

  lemma NoneSucceeded(m: string)
    ensures !Succeeded([], m)
  {}

  lemma DoneIsOk(earlier: seq<Entry>)
    ensures DoneOk(Done(earlier))
  {
    forall m | m in Done(earlier) ensures Success(Done(earlier)[m]) { DoneIs(earlier, m); }
  }

  /** One attempt, and as many retries as are asked for. */
  function Tries(maxRetries: int): nat {
    1 + if maxRetries > 0 then maxRetries else 0
  }

  /** Attempt `n` at mission `i` is the first that passes. */
  predicate FirstPass(i: nat, out: Outcomes, n: nat) {
    n >= 1 && out(i, n) && forall k :: 1 <= k < n ==> !out(i, k)
  }

  predicate SomePass(i: nat, out: Outcomes, maxRetries: int) {
    exists n :: 1 <= n <= Tries(maxRetries) && out(i, n)
  }

  /** The entry of a mission that is reached. */
  predicate Outcome(e: Entry, m: string, earlier: seq<Entry>, i: nat, out: Outcomes, maxRetries: int) {
    e.mission == m &&
    if Succeeded(earlier, m) then LastSuccess(earlier, m, e.verdict) && e.attempts == 0 && e.resumed
    else
      && !e.resumed && 1 <= e.attempts <= Tries(maxRetries)
      && if SomePass(i, out, maxRetries) then
           FirstPass(i, out, e.attempts) && e.verdict == if e.attempts == 1 then Passed else Retried
         else e.verdict == Failed && e.attempts == Tries(maxRetries)
  }

  /** The mission does not fail: it succeeded earlier, or one of its attempts passes. */
  predicate Fine(missions: seq<string>, earlier: seq<Entry>, i: nat, out: Outcomes, maxRetries: int)
    requires i < |missions|
  {
    Succeeded(earlier, NormalizePath(missions[i])) || SomePass(i, out, maxRetries)
  }

  lemma ReachedOutcome(missions: seq<string>, earlier: seq<Entry>, out: Outcomes, maxRetries: int, i: nat)
    requires i < |missions|
    ensures var e := EntryAt(missions, Done(earlier), out, maxRetries, i);
            && Outcome(e, NormalizePath(missions[i]), earlier, i, out, maxRetries)
            && (FailedHere(e) <==> !Fine(missions, earlier, i, out, maxRetries))
  {
    DoneIs(earlier, NormalizePath(missions[i]));
    RetryVerdict(i, out, maxRetries);
    assert Budget(maxRetries) == Tries(maxRetries);
    var (v, a) := RunMission(i, out, maxRetries);
    if !SomePass(i, out, maxRetries) {
      assert a == Budget(maxRetries);
    }
  }

  /** For every manifest, earlier report, mode and outcomes: a mission is skipped if and only if
      the batch stops on failure and one before it fails. Otherwise its last success is carried
      over, or it is tried until an attempt passes or the retries are used up, and the entry
      says which. */
  lemma EveryMissionIsAccountedFor(missions: seq<string>, earlier: seq<Entry>, cont: bool, out: Outcomes,
                                   maxRetries: int, k: nat)
    requires k < |missions|
    ensures var e := Entries(missions, Done(earlier), cont, out, maxRetries, 0)[k];
            if !cont && exists j :: 0 <= j < k && !Fine(missions, earlier, j, out, maxRetries)
            then e == Entry(NormalizePath(missions[k]), Skipped, 0, false)
            else Outcome(e, NormalizePath(missions[k]), earlier, k, out, maxRetries)
  {
    hide Entries, EntryAt, Outcome, Fine;
    DoneIsOk(earlier);
    EntryIs(missions, Done(earlier), cont, out, maxRetries, k);
    forall j | 0 <= j <= k
      ensures FailedHere(EntryAt(missions, Done(earlier), out, maxRetries, j)) <==>
              !Fine(missions, earlier, j, out, maxRetries)
    {
      ReachedOutcome(missions, earlier, out, maxRetries, j);
    }
    ReachedOutcome(missions, earlier, out, maxRetries, k);
  }
}
