/** The mission-to-worker bridge, and how its audit relates to the worker gate's. */
module MissionBridge {
  import opened Common
  import opened PathText
  import opened ContractPaths
  import opened MissionGate
  import opened WorkerGate
  import opened StatusListing
  import GitOutput

  function Texts(items: seq<Json>): (r: seq<string>)
    requires forall i :: 0 <= i < |items| ==> items[i].Text?
    ensures |r| == |items| && forall i :: 0 <= i < |items| ==> r[i] == items[i].text
  {
    if items == [] then [] else [items[0].text] + Texts(items[1..])
  }

  /** The worker's arguments for an accepted mission. */
  function ArgsOf(m: Mission): Args
    requires GoodMission(m)
  {
    Args(Field(m, "mission").text, Field(m, "result").text, Field(m, "events").text,
         Texts(Field(m, "expected_files").items), Field(m, "timeout_seconds").n as real, Holds(Field(m, "allow_edits")))
  }

  method CopyTexts(items: seq<Json>) returns (texts: seq<string>)
    requires forall i :: 0 <= i < |items| ==> items[i].Text?
    ensures texts == Texts(items)
  {
    texts := [];
    for i := 0 to |items|
      invariant |texts| == i && forall j :: 0 <= j < i ==> texts[j] == items[j].text
    {
      texts := texts + [items[i].text];
    }
  }

  /** `build_worker_command`. */
  method BuildWorkerCommand(m: Mission) returns (a: Args)
    requires GoodMission(m)
    ensures a == ArgsOf(m)
  {
    var expected := CopyTexts(Field(m, "expected_files").items);
    a := Args(Field(m, "mission").text, Field(m, "result").text, Field(m, "events").text,
              expected, Field(m, "timeout_seconds").n as real, false);
    if Holds(Field(m, "allow_edits")) { a := a.(allowEdits := true); }
  }

  function Allowlist(expected: seq<string>, result: string, events: string): set<string> {
    var raw := (set path | path in expected) + {result, events};
    set path | path in raw :: NormalizePath(path)
  }

  /** `allowed_changed_files`. */
  function AllowedChangedFiles(m: Mission): set<string>
    requires GoodMission(m)
  {
    Allowlist(ArgsOf(m).expected, ArgsOf(m).result, ArgsOf(m).events)
  }

  predicate AllInScope(actual: set<string>, allowed: set<string>) {
    forall p :: p in actual ==> p in allowed && !IsForbidden(p)
  }

  /** `audit_actual_changes`: the changed paths read off git's lines that are outside the
      allowlist, and the forbidden ones. */
  method AuditActualChanges(lines: seq<string>, allowed: set<string>)
    returns (actual: set<string>, unexpected: set<string>, forbidden: set<string>)
    ensures actual == WorkerChangedPaths(lines)
    ensures forall p :: p in unexpected <==> p in actual && p !in allowed
    ensures forall p :: p in forbidden <==> p in actual && IsForbidden(p)
    ensures unexpected == {} && forbidden == {} <==> AllInScope(actual, allowed)
  {
    actual := CollectChangedPaths(lines);
    unexpected := actual - allowed;
    forbidden := {};
    var rest := actual;
    while rest != {}
      invariant rest <= actual
      invariant forall p :: p in forbidden <==> p in actual && p !in rest && IsForbidden(p)
    {
      var p :| p in rest;
      rest := rest - {p};
      if IsForbidden(p) { forbidden := forbidden + {p}; }
    }
    NothingFound(actual, allowed, unexpected, forbidden);
  }

  lemma NothingFound(actual: set<string>, allowed: set<string>, unexpected: set<string>, forbidden: set<string>)
    requires forall p :: p in unexpected <==> p in actual && p !in allowed
    requires forall p :: p in forbidden <==> p in actual && IsForbidden(p)
    ensures unexpected == {} && forbidden == {} <==> AllInScope(actual, allowed)
  {
    if unexpected == {} && forbidden == {} {
      forall p | p in actual ensures p in allowed && !IsForbidden(p) {
        assert p !in unexpected && p !in forbidden;
      }
    }
    if AllInScope(actual, allowed) {
      assert forall p :: p !in unexpected && p !in forbidden;
    }
  }

  /** What `main` exits with, given the worker's exit and git's lines after it. */
  function BridgeExit(data: Json, dryRun: bool, worker: int, listing: Option<seq<string>>): int {
    if MissionFailures(data) != [] then 1
    else
      var m := data.fields;
      AcceptedMissions(m);
      assert data == Object(m);
      if Field(m, "agent") != Text("opencode") then 1
      else if dryRun then 0
      else if listing.None? then 1
      else if !AllInScope(WorkerChangedPaths(listing.value), AllowedChangedFiles(m)) then 1
      else worker
  }

  /** A mission that the bridge runs. */
  predicate Bridged(data: Json) {
    data.Object? && GoodMission(data.fields) && Field(data.fields, "agent") == Text("opencode")
  }

  /** `main`: it exits 0 exactly for a mission it runs, when that is a dry run, or when the
      worker did and every path read off git's lines is on the mission's allowlist. */
  method BridgeMain(data: Json, dryRun: bool, worker: int, listing: Option<seq<string>>) returns (exit: int)
    ensures exit == BridgeExit(data, dryRun, worker, listing)
    ensures exit == 0 <==>
            && Bridged(data)
            && (dryRun || (worker == 0 && listing.Some?
                           && WorkerChangedPaths(listing.value) <= AllowedChangedFiles(data.fields)))
  {
    var failures := ValidateMission(data);
    if failures != [] { return 1; }
    var m := data.fields;
    assert data == Object(m);
    if Field(m, "agent") != Text("opencode") { return 1; }
    var allowed := AllowedChangedFiles(m);
    if dryRun { return 0; }
    if listing.None? { return 1; }
    var actual, unexpected, forbidden := AuditActualChanges(listing.value, allowed);
    ScopeIsAllowlist(m, actual);
    if unexpected != {} || forbidden != {} { return 1; }
    return worker;
  }

  // ----------------------------------------------------------------------- theorems

  lemma SafeIsContract(v: Json)
    requires SafeRelativeFault(v).None?
    ensures v.Text? && ContractFault(v).None? && v == Text(v.text)
  {
    MissionRuleAgainstWorkerRule(v);
  }

  lemma OutputIsLedger(v: Json, key: string, suffix: string)
    requires OutputFault(v, key).None?
    requires (key == "result" && suffix == ".json") || (key == "events" && suffix == ".jsonl")
    ensures v.Text? && forall suffixes: set<string> :: suffix in suffixes ==> LedgerFault(v, suffixes).None?
  {
    SafeIsContract(v);
    assert EndsWith(NormalizePath(v.text), suffix);
  }

  lemma ExpectedAreAccepted(m: Mission)
    requires GoodMission(m)
    ensures ExpectedOk(ArgsOf(m).expected)
  {
    var items := Field(m, "expected_files").items;
    forall i | 0 <= i < |items| ensures ContractFault(Text(ArgsOf(m).expected[i])).None? {
      SafeIsContract(items[i]);
    }
  }

  lemma AllowlistIs(expected: seq<string>, result: string, events: string)
    ensures Allowlist(expected, result, events) ==
            Normalized(expected) + {NormalizePath(result), NormalizePath(events)}
  {
    forall p | p in Normalized(expected) ensures p in Allowlist(expected, result, events) {
      var i :| 0 <= i < |expected| && NormalizePath(expected[i]) == p;
      assert expected[i] in expected;
    }
    forall p | p in Allowlist(expected, result, events)
      ensures p in Normalized(expected) + {NormalizePath(result), NormalizePath(events)}
    {
      if p != NormalizePath(result) && p != NormalizePath(events) {
        var path :| path in expected && NormalizePath(path) == p;
        var i :| 0 <= i < |expected| && expected[i] == path;
      }
    }
  }

  lemma MissionArgIsValid(m: Mission)
    requires GoodMission(m)
    ensures ContractFault(Text(ArgsOf(m).mission)).None?
  {
    SafeIsContract(Field(m, "mission"));
  }

  lemma OutputArgsAreValid(m: Mission)
    requires GoodMission(m)
    ensures LedgerFault(Text(ArgsOf(m).result), {".json"}).None?
    ensures LedgerFault(Text(ArgsOf(m).events), {".jsonl", ".json"}).None?
  {
    OutputIsLedger(Field(m, "result"), "result", ".json");
    OutputIsLedger(Field(m, "events"), "events", ".jsonl");
    assert Text(Field(m, "result").text) == Field(m, "result");
    assert Text(Field(m, "events").text) == Field(m, "events");
  }

  lemma ArgsAreValid(m: Mission)
    requires GoodMission(m)
    ensures Validate(ArgsOf(m)).Some?
  {
    MissionArgIsValid(m);
    OutputArgsAreValid(m);
    ExpectedAreAccepted(m);
  }

  /** Every accepted mission passes the worker gate's own checks, argument by argument, and
      both sides end up with the same allowlist. */
  lemma AcceptedMissionIsAcceptedByTheWorker(m: Mission)
    requires MissionFailures(Object(m)) == []
    ensures GoodMission(m) && Validate(ArgsOf(m)).Some?
    ensures Validate(ArgsOf(m)).value.outputs == AllowedChangedFiles(m)
  {
    AcceptedMissions(m);
    ArgsAreValid(m);
    AllowlistIs(ArgsOf(m).expected, ArgsOf(m).result, ArgsOf(m).events);
  }

  lemma NormalizedIsNotForbidden(v: Json)
    requires SafeRelativeFault(v).None?
    ensures !IsForbidden(NormalizePath(v.text))
  {
    SafeIsNotForbidden(v);
    ForbiddenWhenNormalized(v.text);
  }

  lemma AllowlistPermits(expected: seq<string>, result: string, events: string, p: string)
    requires !IsForbidden(NormalizePath(result)) && !IsForbidden(NormalizePath(events))
    requires forall i :: 0 <= i < |expected| ==> !IsForbidden(NormalizePath(expected[i]))
    requires p in Allowlist(expected, result, events)
    ensures !IsForbidden(p)
  {
    if p != NormalizePath(result) && p != NormalizePath(events) {
      var path :| path in expected && NormalizePath(path) == p;
      var i :| 0 <= i < |expected| && expected[i] == path;
      assert !IsForbidden(NormalizePath(expected[i]));
    }
  }

  lemma ExpectedIsNotForbidden(m: Mission, i: nat)
    requires GoodMission(m) && i < |ArgsOf(m).expected|
    ensures !IsForbidden(NormalizePath(ArgsOf(m).expected[i]))
  {
    NormalizedIsNotForbidden(Field(m, "expected_files").items[i]);
  }

  lemma OutputsAreNotForbidden(m: Mission)
    requires GoodMission(m)
    ensures !IsForbidden(NormalizePath(ArgsOf(m).result)) && !IsForbidden(NormalizePath(ArgsOf(m).events))
  {
    NormalizedIsNotForbidden(Field(m, "result"));
    NormalizedIsNotForbidden(Field(m, "events"));
  }

  /** Nothing on the allowlist is forbidden, so the bridge's second test adds nothing. */
  lemma AllowedIsNeverForbidden(m: Mission)
    requires GoodMission(m)
    ensures forall p :: p in AllowedChangedFiles(m) ==> !IsForbidden(p)
  {
    var a := ArgsOf(m);
    OutputsAreNotForbidden(m);
    forall i | 0 <= i < |a.expected| ensures !IsForbidden(NormalizePath(a.expected[i])) {
      ExpectedIsNotForbidden(m, i);
    }
    forall p | p in AllowedChangedFiles(m) ensures !IsForbidden(p) {
      AllowlistPermits(a.expected, a.result, a.events, p);
    }
  }

  lemma ScopeIsAllowlist(m: Mission, actual: set<string>)
    requires GoodMission(m)
    ensures AllInScope(actual, AllowedChangedFiles(m)) <==> actual <= AllowedChangedFiles(m)
  {
    AllowedIsNeverForbidden(m);
  }

  /** When git lists the same lines to both, the worker gate and the bridge reach the same
      verdict: the bridge passes exactly when the worker gate it started did. */
  lemma AuditsAgree(m: Mission, run: WorkerRun)
    requires MissionFailures(Object(m)) == [] && Field(m, "agent") == Text("opencode")
    requires !run.dryRun
    ensures GoodMission(m)
    ensures BridgeExit(Object(m), false, WorkerExit(ArgsOf(m), run), run.listing) == 0 <==>
            WorkerExit(ArgsOf(m), run) == 0
  {
    AcceptedMissionIsAcceptedByTheWorker(m);
    WorkerPassesExactlyWhen(ArgsOf(m), run);
    if run.listing.Some? { ScopeIsAllowlist(m, WorkerChangedPaths(run.listing.value)); }
  }

  /** Whatever the worker did, when the bridge exits 0 all touched paths are on the mission's
      allowlist, for all names, if and only if the path of every misread line and the old path
      of every renamed file are. */
  lemma TouchedByAPassedBridge(data: Json, worker: int, es: seq<Entry>)
    requires Listing(es) && BridgeExit(data, false, worker, Some(Lines(es))) == 0
    ensures Bridged(data) && worker == 0
    ensures var allowed := AllowedChangedFiles(data.fields);
            Touched(es) <= allowed <==> GapsAllowed(allowed, es, true)
  {
    var m := data.fields;
    assert data == Object(m);
    AcceptedMissions(m);
    ScopeIsAllowlist(m, WorkerChangedPaths(Lines(es)));
    WorkerGateReads(es);
    AuditCoversExactlyWhen(AllowedChangedFiles(m), es, true);
  }

  /** The bridge keeps a mission to its allowlist as far as the first change `e` goes,
      whatever else git lists. */
  ghost predicate KeepsToAllowlist(m: Mission, e: Entry)
    requires GoodMission(m)
  {
    forall es :: Listing(es) && es != [] && es[0] == e && BridgeExit(Object(m), false, 0, Some(Lines(es))) == 0 ==>
                   e.path in AllowedChangedFiles(m)
  }

  lemma BridgePasses(m: Mission, es: seq<Entry>)
    requires GoodMission(m) && Field(m, "agent") == Text("opencode")
    ensures BridgeExit(Object(m), false, 0, Some(Lines(es))) == 0 <==>
            WorkerChangedPaths(Lines(es)) <= AllowedChangedFiles(m)
  {
    AcceptedMissions(m);
    ScopeIsAllowlist(m, WorkerChangedPaths(Lines(es)));
  }

  /** It does so if and only if the line is read right, or the path is allowed, or what is
      read instead is not. */
  lemma KeepsToAllowlistExactlyWhen(m: Mission, e: Entry)
    requires MissionFailures(Object(m)) == [] && Field(m, "agent") == Text("opencode")
    requires EntryOk(e)
    ensures GoodMission(m)
    ensures KeepsToAllowlist(m, e) <==>
            ReadsRight(e, true) || e.path in AllowedChangedFiles(m) || LineRead(e, true) !in AllowedChangedFiles(m)
  {
    AcceptedMissions(m);
    WorkerTrustsExactlyWhen(AllowedChangedFiles(m), e);
    forall es | Listing(es)
      ensures BridgeExit(Object(m), false, 0, Some(Lines(es))) == 0 <==>
              WorkerChangedPaths(Lines(es)) <= AllowedChangedFiles(m)
    {
      BridgePasses(m, es);
    }
  }

  lemma ResultIsLedgerName(m: Mission)
    requires GoodMission(m)
    ensures LEDGER_PREFIX <= NormalizePath(ArgsOf(m).result)
  {
    assert Field(m, "result") == Text(ArgsOf(m).result);
    OutputIsLedger(Field(m, "result"), "result", ".json");
    assert LedgerFault(Field(m, "result"), {".json"}).None?;
  }

  /** Every mission that the bridge runs has a blind spot, unless git escapes the name of its
      result file: a change of one file outside its allowlist after which the bridge still
      exits 0. */
  lemma EveryMissionHasABlindSpot(m: Mission)
    requires MissionFailures(Object(m)) == [] && Field(m, "agent") == Text("opencode")
    requires GoodMission(m) && !GitOutput.HasSpecial(NormalizePath(ArgsOf(m).result))
    ensures exists e :: BlindSpot(AllowedChangedFiles(m), e)
                        && BridgeExit(Object(m), false, 0, Some(Lines([e]))) == 0
  {
    var allowed, n := AllowedChangedFiles(m), NormalizePath(ArgsOf(m).result);
    ResultIsLedgerName(m);
    assert n[0] == LEDGER_PREFIX[0] == 'a';
    AllowlistIs(ArgsOf(m).expected, ArgsOf(m).result, ArgsOf(m).events);
    EveryAllowlistHasABlindSpot(allowed, n);
    var e :| BlindSpot(allowed, e);
    BridgePasses(m, [e]);
  }
}
