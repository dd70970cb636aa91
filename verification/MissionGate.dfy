/** The agent mission gate: `validate_mission`. */
module MissionGate {
  import opened Common
  import opened PathText
  import opened ContractPaths

  type Mission = map<string, Json>

  const REQUIRED_KEYS: seq<string> :=
    ["phase", "agent", "mission", "expected_files", "result", "events", "timeout_seconds"]
  const VALID_AGENTS: seq<string> := ["opencode", "claude", "goose"]
  const PHASES: seq<string> := ["P1-", "P2-", "P3-", "P4-", "P5-", "P6-", "P7-", "P8-"]
  const MAX_TIMEOUT: int := 43200

  datatype Failure =
    | NotAnObject
    | Missing(key: string)
    | PhaseType
    | PhaseName
    | BadAgent
    | BadPath(key: string, fault: Fault)
    | BadExpected(index: nat, fault: Fault)
    | NothingExpected
    | TimeoutType
    | TimeoutRange
    | AllowEditsType
    | NotesType

  /** `validate_mission_path`. */
  function MissionFault(v: Json): Option<Fault> {
    var fault := SafeRelativeFault(v);
    if fault.Some? then fault
    else if EndsWith(NormalizePath(v.text), ".md") then None
    else Some(WrongSuffix)
  }

  /** `validate_ledger_output`. */
  function OutputFault(v: Json, key: string): Option<Fault> {
    var fault := SafeRelativeFault(v);
    if fault.Some? then fault
    else
      var n := NormalizePath(v.text);
      if !(LEDGER_PREFIX <= n) then Some(OutsideLedger)
      else if !EndsWith(n, ".json") && !EndsWith(n, ".jsonl") then Some(WrongSuffix)
      else if key == "result" && !EndsWith(n, ".json") then Some(WrongSuffix)
      else if key == "events" && !EndsWith(n, ".jsonl") then Some(WrongSuffix)
      else None
  }

  // -------------------------------------------------------------------- the checks

  function MissingKeys(required: seq<string>, m: Mission): seq<Failure> {
    if required == [] then []
    else
      var last := |required| - 1;
      MissingKeys(required[..last], m) + if required[last] in m then [] else [Missing(required[last])]
  }

  predicate HasPhase(s: string) {
    exists k :: 0 <= k < |PHASES| && PHASES[k] <= s
  }

  function PhaseFailures(v: Json): seq<Failure> {
    if !v.Text? || Blank(v.text) then [PhaseType] else if HasPhase(v.text) then [] else [PhaseName]
  }

  predicate KnownAgent(v: Json) {
    v.Text? && v.text in VALID_AGENTS
  }

  function PathFailures(fault: Option<Fault>, key: string): seq<Failure> {
    if fault.Some? then [BadPath(key, fault.value)] else []
  }

  function ExpectedFailures(items: seq<Json>): seq<Failure> {
    if items == [] then []
    else
      var last := |items| - 1;
      var fault := SafeRelativeFault(items[last]);
      ExpectedFailures(items[..last]) + if fault.Some? then [BadExpected(last, fault.value)] else []
  }

  function ExpectedListFailures(v: Json): seq<Failure> {
    if !v.List? || v.items == [] then [NothingExpected] else ExpectedFailures(v.items)
  }

  function TimeoutFailures(v: Json): seq<Failure> {
    if !v.Number? then [TimeoutType] else if v.n < 1 || v.n > MAX_TIMEOUT then [TimeoutRange] else []
  }

  function OptionalFailures(m: Mission): seq<Failure> {
    (if "allow_edits" in m && !m["allow_edits"].Bool? then [AllowEditsType] else [])
    + (if "notes" in m && !m["notes"].Text? then [NotesType] else [])
  }

  function Field(m: Mission, key: string): Json {
    Get(m, key, Null)
  }

  function HeadFailures(m: Mission): seq<Failure> {
    PhaseFailures(Field(m, "phase")) + (if KnownAgent(Field(m, "agent")) then [] else [BadAgent])
    + PathFailures(MissionFault(Field(m, "mission")), "mission")
  }

  function TailFailures(m: Mission): seq<Failure> {
    PathFailures(OutputFault(Field(m, "result"), "result"), "result")
    + PathFailures(OutputFault(Field(m, "events"), "events"), "events")
    + TimeoutFailures(Field(m, "timeout_seconds")) + OptionalFailures(m)
  }

  /** `validate_mission`: the failures in order. */
  function MissionFailures(data: Json): seq<Failure> {
    if !data.Object? then [NotAnObject]
    else
      var m := data.fields;
      var missing := MissingKeys(REQUIRED_KEYS, m);
      if missing != [] then missing
      else HeadFailures(m) + ExpectedListFailures(Field(m, "expected_files")) + TailFailures(m)
  }

  method FindMissing(required: seq<string>, m: Mission) returns (failures: seq<Failure>)
    ensures failures == MissingKeys(required, m)
  {
    failures := [];
    for i := 0 to |required|
      invariant failures == MissingKeys(required[..i], m)
    {
      assert required[..i + 1][..i] == required[..i];
      if required[i] !in m { failures := failures + [Missing(required[i])]; }
    }
    assert required[..|required|] == required;
  }

  method CheckExpected(v: Json) returns (failures: seq<Failure>)
    ensures failures == ExpectedListFailures(v)
  {
    if !v.List? || v.items == [] { return [NothingExpected]; }
    failures := [];
    for i := 0 to |v.items|
      invariant failures == ExpectedFailures(v.items[..i])
    {
      assert v.items[..i + 1][..i] == v.items[..i];
      var fault := SafeRelativeFault(v.items[i]);
      if fault.Some? { failures := failures + [BadExpected(i, fault.value)]; }
    }
    assert v.items[..|v.items|] == v.items;
  }

  // ---------------------------------------------------------- what acceptance means

  predicate SafeList(v: Json) {
    v.List? && forall i :: 0 <= i < |v.items| ==> SafeRelativeFault(v.items[i]).None?
  }

  /** The paths of a mission that may be run. */
  predicate GoodPaths(m: Mission) {
    && MissionFault(Field(m, "mission")).None?
    && SafeList(Field(m, "expected_files")) && Field(m, "expected_files").items != []
    && OutputFault(Field(m, "result"), "result").None?
    && OutputFault(Field(m, "events"), "events").None?
  }

  predicate GoodTimeout(v: Json) {
    v.Number? && 1 <= v.n <= MAX_TIMEOUT
  }

  /** A mission that may be run: a second, positive reading of the contract. */
  predicate GoodMission(m: Mission) {
    && Field(m, "phase").Text? && !Blank(Field(m, "phase").text) && HasPhase(Field(m, "phase").text)
    && KnownAgent(Field(m, "agent"))
    && GoodPaths(m)
    && GoodTimeout(Field(m, "timeout_seconds"))
    && ("allow_edits" in m ==> m["allow_edits"].Bool?) && ("notes" in m ==> m["notes"].Text?)
  }

  predicate HasKeys(m: Mission, keys: seq<string>) {
    forall i :: 0 <= i < |keys| ==> keys[i] in m
  }

  lemma {:induction false} NoMissingKeys(required: seq<string>, m: Mission)
    ensures MissingKeys(required, m) == [] <==> HasKeys(m, required)
  {
    if required != [] {
      var last := |required| - 1;
      NoMissingKeys(required[..last], m);
      assert HasKeys(m, required) <==> HasKeys(m, required[..last]) && required[last] in m;
    }
  }

  lemma SafeListSnoc(items: seq<Json>, v: Json)
    ensures SafeList(List(items + [v])) <==> SafeList(List(items)) && SafeRelativeFault(v).None?
  {
    var all := items + [v];
    assert all[|items|] == v;
    assert forall i :: 0 <= i < |items| ==> all[i] == items[i];
  }

  lemma {:induction false} NoExpectedFailures(items: seq<Json>)
    ensures ExpectedFailures(items) == [] <==> SafeList(List(items))
  {
    if items != [] {
      var last := |items| - 1;
      NoExpectedFailures(items[..last]);
      SafeListSnoc(items[..last], items[last]);
      assert items[..last] + [items[last]] == items;
    }
  }

  lemma NullIsNoPath()
    ensures MissionFault(Null).Some? && OutputFault(Null, "result").Some? && OutputFault(Null, "events").Some?
  {}

  lemma FieldIsThere(m: Mission, key: string)
    requires Field(m, key) != Null
    ensures key in m
  {}

  lemma GoodHasKeys(m: Mission)
    requires GoodMission(m)
    ensures HasKeys(m, REQUIRED_KEYS)
  {
    hide MissionFault, OutputFault, SafeRelativeFault, HasPhase, Blank;
    NullIsNoPath();
    FieldIsThere(m, "phase");
    FieldIsThere(m, "agent");
    FieldIsThere(m, "mission");
    FieldIsThere(m, "expected_files");
    FieldIsThere(m, "result");
    FieldIsThere(m, "events");
    FieldIsThere(m, "timeout_seconds");
    var r := REQUIRED_KEYS;
    assert r == ["phase", "agent", "mission", "expected_files", "result", "events", "timeout_seconds"];
  }

  lemma CleanHead(m: Mission)
    ensures HeadFailures(m) == [] <==>
            && Field(m, "phase").Text? && !Blank(Field(m, "phase").text) && HasPhase(Field(m, "phase").text)
            && KnownAgent(Field(m, "agent")) && MissionFault(Field(m, "mission")).None?
  {}

  lemma CleanTail(m: Mission)
    ensures TailFailures(m) == [] <==>
            && OutputFault(Field(m, "result"), "result").None? && OutputFault(Field(m, "events"), "events").None?
            && GoodTimeout(Field(m, "timeout_seconds"))
            && ("allow_edits" in m ==> m["allow_edits"].Bool?) && ("notes" in m ==> m["notes"].Text?)
  {}

  /** `validate_mission` reports nothing exactly for the missions that may be run. */
  lemma AcceptedMissions(m: Mission)
    ensures MissionFailures(Object(m)) == [] <==> GoodMission(m)
  {
    NoMissingKeys(REQUIRED_KEYS, m);
    CleanHead(m);
    CleanTail(m);
    var files := Field(m, "expected_files");
    if files.List? {
      NoExpectedFailures(files.items);
      assert List(files.items) == files;
    }
    if GoodMission(m) { GoodHasKeys(m); }
  }

  /** `validate_mission`. */
  method ValidateMission(data: Json) returns (failures: seq<Failure>)
    ensures failures == MissionFailures(data)
    ensures failures == [] <==> data.Object? && GoodMission(data.fields)
  {
    if !data.Object? { return [NotAnObject]; }
    var m := data.fields;
    AcceptedMissions(m);
    assert data == Object(m);
    failures := FindMissing(REQUIRED_KEYS, m);
    if failures != [] { return; }
    failures := HeadFailures(m);
    var more := CheckExpected(Field(m, "expected_files"));
    failures := failures + more;
    failures := failures + TailFailures(m);
  }
}
