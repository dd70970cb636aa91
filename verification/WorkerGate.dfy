/** The worker gate: checking its arguments and auditing what the worker did. */
module WorkerGate {
  import opened Common
  import opened PathText
  import opened ContractPaths
  import opened StatusListing

  datatype Args = Args(mission: string, result: string, events: string, expected: seq<string>,
                       timeout: real, allowEdits: bool)

  /** The validated arguments: `outputs` is what the audit allows to change. */
  datatype Plan = Plan(mission: string, expected: set<string>, outputs: set<string>)

  const VALID_STATUS: seq<string> := ["done", "failed", "partial"]
  const TIMEOUT_EXIT_CODE: int := 124

  predicate ExpectedOk(paths: seq<string>) {
    forall i :: 0 <= i < |paths| ==> ContractFault(Text(paths[i])).None?
  }

  function Normalized(paths: seq<string>): set<string> {
    set i | 0 <= i < |paths| :: NormalizePath(paths[i])
  }

  /** The checks before anything runs; `None` is exit 1. */
  function Validate(a: Args): Option<Plan> {
    if ContractFault(Text(a.mission)).Some? then None
    else if LedgerFault(Text(a.result), {".json"}).Some? then None
    else if LedgerFault(Text(a.events), {".jsonl", ".json"}).Some? then None
    else if a.timeout <= 0.0 || !ExpectedOk(a.expected) then None
    else
      var expected := Normalized(a.expected);
      Some(Plan(NormalizePath(a.mission), expected, expected + {NormalizePath(a.result), NormalizePath(a.events)}))
  }

  /** The loop over the expected files; the first bad one ends the run. */
  method CheckExpected(paths: seq<string>) returns (expected: Option<set<string>>)
    ensures expected == if ExpectedOk(paths) then Some(Normalized(paths)) else None
  {
    var names: set<string> := {};
    for i := 0 to |paths|
      invariant names == Normalized(paths[..i]) && ExpectedOk(paths[..i])
    {
      OneMorePath(paths[..i], paths[i]);
      assert paths[..i + 1] == paths[..i] + [paths[i]];
      if ContractFault(Text(paths[i])).Some? { return None; }
      names := names + {NormalizePath(paths[i])};
    }
    assert paths[..|paths|] == paths;
    return Some(names);
  }

  lemma OneMorePath(paths: seq<string>, path: string)
    ensures ExpectedOk(paths + [path]) <==> ExpectedOk(paths) && ContractFault(Text(path)).None?
    ensures Normalized(paths + [path]) == Normalized(paths) + {NormalizePath(path)}
  {
    hide ContractFault, NormalizePath;
    var all := paths + [path];
    assert all[|paths|] == path;
    assert forall i :: 0 <= i < |paths| ==> all[i] == paths[i];
    assert NormalizePath(path) in Normalized(all);
    forall p | p in Normalized(paths) ensures p in Normalized(all) {
      var i :| 0 <= i < |paths| && NormalizePath(paths[i]) == p;
      assert NormalizePath(all[i]) == p;
    }
  }

  /** Arguments that may be run. */
  predicate GoodArgs(a: Args) {
    && ContractFault(Text(a.mission)).None?
    && LedgerFault(Text(a.result), {".json"}).None?
    && LedgerFault(Text(a.events), {".jsonl", ".json"}).None?
    && a.timeout > 0.0 && ExpectedOk(a.expected)
  }

  /** A normalised path that the contract rules accept. */
  predicate AcceptedPath(p: string) {
    ContractFault(Text(p)).None? && NormalizePath(p) == p
  }

  lemma NormalizedPathIsAccepted(p: string)
    requires ContractFault(Text(p)).None?
    ensures AcceptedPath(NormalizePath(p))
  {
    NormalizedIsAccepted(p);
    NormalizeIdempotent(p);
  }

  /** Whatever passes the checks allows only accepted relative paths to change. */
  lemma OutputsAreAccepted(a: Args)
    requires GoodArgs(a)
    ensures forall p :: p in Validate(a).value.outputs ==> AcceptedPath(p)
  {
    NormalizedPathIsAccepted(a.result);
    NormalizedPathIsAccepted(a.events);
    forall p | p in Normalized(a.expected) ensures AcceptedPath(p) {
      var i :| 0 <= i < |a.expected| && NormalizePath(a.expected[i]) == p;
      NormalizedPathIsAccepted(a.expected[i]);
    }
  }

  method ValidateArgs(a: Args) returns (plan: Option<Plan>)
    ensures plan == Validate(a)
    ensures plan.Some? <==> GoodArgs(a)
    ensures plan.Some? ==> forall p :: p in plan.value.outputs ==> AcceptedPath(p)
    ensures plan.Some? ==> plan.value.expected <= plan.value.outputs
  {
    if ContractFault(Text(a.mission)).Some? { return None; }
    if LedgerFault(Text(a.result), {".json"}).Some? { return None; }
    if LedgerFault(Text(a.events), {".jsonl", ".json"}).Some? { return None; }
    if a.timeout <= 0.0 { return None; }
    var expected := CheckExpected(a.expected);
    if expected.None? { return None; }
    plan := Some(Plan(NormalizePath(a.mission), expected.value,
                      expected.value + {NormalizePath(a.result), NormalizePath(a.events)}));
    OutputsAreAccepted(a);
  }

  // -------------------------------------------------------------- the worker's result

  /** The result file when the worker has ended. */
  datatype ResultFile = Absent | Malformed | Parsed(value: Json)

  /** Git's answer: its lines, a failure it reports, or none in time, which raises another
      exception than the one that `main` catches. */
  datatype Answer = Listed(lines: seq<string>) | Refused | Hung

  /** What happened after validation: whether the worker was killed for its time, its exit
      status otherwise, the result file it left, and git's lines, `atTimeout` when the gate
      writes the result itself and `listing` for the audit; `None` when there are none. */
  datatype WorkerRun = WorkerRun(ready: bool, dryRun: bool, timedOut: bool, code: int, file: ResultFile,
                                 atTimeout: Answer, listing: Option<seq<string>>)

  function ExitOf(run: WorkerRun): int {
    if run.timedOut then TIMEOUT_EXIT_CODE else run.code
  }

  predicate NonEmptyTexts(v: Json) {
    v.List? && forall i :: 0 <= i < |v.items| ==> v.items[i].Text? && v.items[i].text != ""
  }

  predicate KnownStatus(v: Json) {
    v.Text? && v.text in VALID_STATUS
  }

  /** `validate_result` has no issue. */
  predicate ResultOk(r: map<string, Json>) {
    && KnownStatus(Get(r, "status", Null))
    && NonEmptyTexts(Get(r, "files_changed", Null))
    && Get(r, "test_result", Null).Text?
    && (Get(r, "blocker", Null).Null? || Get(r, "blocker", Null).Text?)
  }

  /** Every reported file is an accepted path and an expected one. */
  predicate ReportedOk(items: seq<Json>, plan: Plan) {
    forall i :: 0 <= i < |items| ==> ContractFault(items[i]).None? && NormalizePath(items[i].text) in plan.expected
  }

  /** Looping over `files_changed` raises unless it is absent, a list, a text or an object. */
  predicate Iterable(v: Json) {
    v.List? || v.Text? || v.Object?
  }

  function Reported(r: map<string, Json>): Json {
    Get(r, "files_changed", List([]))
  }

  /** A file that is no object, or whose `files_changed` cannot be looped over, raises. */
  predicate Readable(file: ResultFile) {
    file.Parsed? ==> file.value.Object? && Iterable(Reported(file.value.fields))
  }

  /** The result has no issue and reports only expected files. */
  predicate GoodResult(file: ResultFile, plan: Plan) {
    && file.Parsed? && file.value.Object? && ResultOk(file.value.fields)
    && ReportedOk(Reported(file.value.fields).items, plan)
  }

  /** The gate itself writes a result when the worker was killed before it did. */
  predicate WritesResult(run: WorkerRun) {
    run.timedOut && run.file.Absent?
  }

  /** What `main` exits with. The result that the gate writes itself is well-formed, says
      `partial` and names expected files only, so such a run ends with 124. */
  function WorkerExit(a: Args, run: WorkerRun): int {
    var plan := Validate(a);
    if plan.None? || !run.ready then 1
    else if run.dryRun then 0
    else if WritesResult(run) && run.atTimeout.Refused? then TIMEOUT_EXIT_CODE
    else if WritesResult(run) && run.atTimeout.Hung? then 1
    else if !Readable(run.file) || run.listing.None? then 1
    else if !(GoodResult(run.file, plan.value) && WorkerChangedPaths(run.listing.value) <= plan.value.outputs) then
      if ExitOf(run) == TIMEOUT_EXIT_CODE then TIMEOUT_EXIT_CODE else 1
    else if ExitOf(run) == 0 && Get(run.file.value.fields, "status", Null) == Text("done") then 0
    else if ExitOf(run) == 0 then 1
    else ExitOf(run)
  }

  predicate AllAccepted(items: seq<Json>) {
    forall i :: 0 <= i < |items| ==> ContractFault(items[i]).None?
  }

  /** The normalised names of the accepted items. */
  function AcceptedNames(items: seq<Json>): set<string> {
    if items == [] then {}
    else
      var v := items[|items| - 1];
      AcceptedNames(items[..|items| - 1]) + (if ContractFault(v).None? then {NormalizePath(v.text)} else {})
  }

  /** The loop over the reported files: which were accepted, and whether one was not. */
  method ReadReported(items: seq<Json>) returns (accepted: set<string>, failed: bool)
    ensures failed <==> !AllAccepted(items)
    ensures accepted == AcceptedNames(items)
  {
    accepted, failed := {}, false;
    for i := 0 to |items|
      invariant failed <==> !AllAccepted(items[..i])
      invariant accepted == AcceptedNames(items[..i])
    {
      OneMoreItem(items[..i], items[i]);
      assert items[..i + 1] == items[..i] + [items[i]];
      if ContractFault(items[i]).Some? {
        failed := true;
      } else {
        accepted := accepted + {NormalizePath(items[i].text)};
      }
    }
    assert items[..|items|] == items;
  }

  lemma OneMoreItem(items: seq<Json>, v: Json)
    ensures AllAccepted(items + [v]) <==> AllAccepted(items) && ContractFault(v).None?
    ensures AcceptedNames(items + [v]) ==
            AcceptedNames(items) + (if ContractFault(v).None? then {NormalizePath(v.text)} else {})
  {
    var all := items + [v];
    assert all[..|items|] == items && all[|items|] == v;
    assert forall i :: 0 <= i < |items| ==> all[i] == items[i];
  }

  /** The loop's outcome is what the audit of the report asks for. */
  lemma {:induction false} ReportedIs(items: seq<Json>, plan: Plan)
    ensures AllAccepted(items) && AcceptedNames(items) - plan.expected == {} <==> ReportedOk(items, plan)
  {
    EmptyDifference(AcceptedNames(items), plan.expected);
    if items != [] {
      var init, v := items[..|items| - 1], items[|items| - 1];
      ReportedIs(init, plan);
      EmptyDifference(AcceptedNames(init), plan.expected);
      OneMoreItem(init, v);
      assert init + [v] == items;
      OneMoreReported(init, v, plan);
    }
  }

  lemma OneMoreReported(items: seq<Json>, v: Json, plan: Plan)
    ensures ReportedOk(items + [v], plan) <==>
            ReportedOk(items, plan) && ContractFault(v).None? && NormalizePath(v.text) in plan.expected
  {
    var all := items + [v];
    assert all[|items|] == v;
    assert forall i :: 0 <= i < |items| ==> all[i] == items[i];
  }

  // ------------------------------------------------------------------- the whole gate

  /** `write_timeout_result`: the expected files among the changed ones, in some order. */
  method TimeoutResult(expected: set<string>, actual: set<string>, note: string)
    returns (result: map<string, Json>)
    ensures Get(result, "status", Null) == Text("partial")
    ensures (forall p :: p in expected ==> p != "") ==> ResultOk(result)
    ensures Reported(result).List? && AllTexts(Reported(result).items)
    ensures forall p :: Text(p) in Reported(result).items <==> p in expected && p in actual
  {
    var rest := actual * expected;
    var items: seq<Json> := [];
    while rest != {}
      invariant AllTexts(items) && rest <= actual * expected
      invariant forall p :: p in actual * expected <==> p in rest || Text(p) in items
    {
      var p :| p in rest;
      rest := rest - {p};
      items := items + [Text(p)];
    }
    result := map["status" := Text("partial"), "files_changed" := List(items), "test_result" := Text(note),
                  "blocker" := Text("timeout with missing worker result JSON")];
    assert VALID_STATUS[2] == "partial";
    forall i | 0 <= i < |items| ensures items[i].Text? && items[i].text in actual * expected {
      assert items[i] in items && items[i] == Text(items[i].text);
    }
  }

  predicate AllTexts(items: seq<Json>) {
    forall i :: 0 <= i < |items| ==> items[i].Text?
  }

  lemma OwnResultIsGood(result: map<string, Json>, a: Args)
    requires GoodArgs(a) && ResultOk(result) && AllTexts(Reported(result).items)
    requires forall p :: Text(p) in Reported(result).items ==> p in Normalized(a.expected)
    ensures GoodResult(Parsed(Object(result)), Validate(a).value)
  {
    OutputsAreAccepted(a);
    var items := Reported(result).items;
    forall i | 0 <= i < |items|
      ensures ContractFault(items[i]).None? && NormalizePath(items[i].text) in Normalized(a.expected)
    {
      assert items[i] in items && items[i] == Text(items[i].text);
      assert AcceptedPath(items[i].text);
    }
  }

  /** The checks on the result file: whether one of them failed. */
  method CheckResult(file: ResultFile, plan: Plan) returns (hardFailure: bool)
    requires Readable(file)
    ensures hardFailure <==> !GoodResult(file, plan)
  {
    if !file.Parsed? { return true; }
    var result := file.value.fields;
    hardFailure := !ResultOk(result);
    var reported := Reported(result);
    if reported.List? {
      var accepted, failed := ReadReported(reported.items);
      hardFailure := hardFailure || failed || accepted - plan.expected != {};
      ReportedIs(reported.items, plan);
    }
  }

  /** `main`, with what the run and git answered as inputs. It exits 0 exactly for the runs
      that pass, and a worker that was killed for its time makes it exit 124 unless its
      result file cannot be read, git hangs, or git fails during the audit. */
  method WorkerMain(a: Args, run: WorkerRun, note: string) returns (exit: int)
    ensures exit == WorkerExit(a, run)
    ensures exit == 0 <==> Passes(a, run)
    ensures GoodArgs(a) && run.ready && !run.dryRun && run.timedOut ==>
              && (exit == 124 || exit == 1)
              && (exit == 124 <==>
                    if WritesResult(run) then run.atTimeout.Refused? || (run.atTimeout.Listed? && run.listing.Some?)
                    else Readable(run.file) && run.listing.Some?)
  {
    hide LedgerFault, NormalizePath, WorkerChangedPaths;
    WorkerPassesExactlyWhen(a, run);
    var plan := ValidateArgs(a);
    if plan.None? || !run.ready { return 1; }
    if run.dryRun { return 0; }
    var file := run.file;
    if run.timedOut && file.Absent? {
      if run.atTimeout.Refused? { return TIMEOUT_EXIT_CODE; }
      if run.atTimeout.Hung? { return 1; }
      var changed := CollectChangedPaths(run.atTimeout.lines);
      assert forall p :: p in plan.value.expected ==> AcceptedPath(p);
      var own := TimeoutResult(plan.value.expected, changed, note);
      OwnResultIsGood(own, a);
      file := Parsed(Object(own));
    }
    if !Readable(file) { return 1; }
    var hardFailure := CheckResult(file, plan.value);
    if run.listing.None? { return 1; }
    var actual := CollectChangedPaths(run.listing.value);
    if actual - plan.value.outputs != {} { hardFailure := true; }
    EmptyDifference(actual, plan.value.outputs);
    var rc := ExitOf(run);
    if hardFailure { return if rc == TIMEOUT_EXIT_CODE then TIMEOUT_EXIT_CODE else 1; }
    if rc == 0 && Get(file.value.fields, "status", Null) == Text("done") { return 0; }
    if rc == TIMEOUT_EXIT_CODE { return TIMEOUT_EXIT_CODE; }
    return if rc != 0 then rc else 1;
  }

  // ----------------------------------------------------------------------- theorems

  lemma ResultIsList(r: map<string, Json>)
    requires ResultOk(r)
    ensures Reported(r).List? && Reported(r) == Get(r, "files_changed", Null)
  {}

  /** A worker run that passes: its arguments are valid, it ended by itself with status 0 and
      says it is done, its result is well-formed, it reports only expected files, and the
      gate read nothing off git's lines but the expected files and its two outputs. */
  predicate Passes(a: Args, run: WorkerRun) {
    && GoodArgs(a) && run.ready
    && (!run.dryRun ==>
          && !run.timedOut && run.code == 0
          && GoodResult(run.file, Validate(a).value)
          && Get(run.file.value.fields, "status", Null) == Text("done")
          && run.listing.Some? && WorkerChangedPaths(run.listing.value) <= Validate(a).value.outputs)
  }

  /** The gate exits 0 exactly for the runs that pass. A non-zero exit of the worker, or a
      worker that was killed, is never turned into a pass. */
  lemma WorkerPassesExactlyWhen(a: Args, run: WorkerRun)
    ensures WorkerExit(a, run) == 0 <==> Passes(a, run)
  {
    if run.file.Parsed? && run.file.value.Object? && ResultOk(run.file.value.fields) {
      ResultIsList(run.file.value.fields);
    }
  }

  /** A passed run touched allowed files only, for all names, if and only if the path of
      every misread line and the old path of every renamed file are allowed. */
  lemma TouchedByAPassedWorker(a: Args, run: WorkerRun, es: seq<Entry>)
    requires Listing(es) && run.listing == Some(Lines(es))
    requires WorkerExit(a, run) == 0 && !run.dryRun
    ensures GoodArgs(a)
    ensures var allowed := Validate(a).value.outputs;
            Touched(es) <= allowed <==> GapsAllowed(allowed, es, true)
  {
    WorkerPassesExactlyWhen(a, run);
    WorkerGateReads(es);
    AuditCoversExactlyWhen(Validate(a).value.outputs, es, true);
  }
}
