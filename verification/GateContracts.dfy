/**
  The contracts of the gates in their own words: which packets, directives, missions, worker
  arguments and worker results are accepted, spelled out field by field.
 */
module GateContracts {
  import opened Common
  import opened PathText
  import opened ContractPaths
  import RunPacket
  import DirectiveGate
  import MissionGate
  import WorkerGate

  type Fields = map<string, Json>

  // ------------------------------------------------------------------------- the words

  /** The field is there and a text that is not empty. */
  predicate Says(d: Fields, field: string) {
    field in d && d[field].Text? && d[field].text != ""
  }

  /** The field is there and one of these texts. */
  predicate SaysOneOf(d: Fields, field: string, words: set<string>) {
    field in d && d[field].Text? && d[field].text in words
  }

  /** A list of texts that are not empty. */
  predicate ListsTexts(v: Json) {
    v.List? && forall i :: 0 <= i < |v.items| ==> v.items[i].Text? && v.items[i] != Text("")
  }

  /** A list of safe paths. */
  predicate ListsPaths(v: Json) {
    v.List? && forall i :: 0 <= i < |v.items| ==> v.items[i].Text? && SafePath(v.items[i])
  }

  /** The path is in the list, whatever the slashes. */
  predicate Among(path: string, list: Json) {
    list.List? && exists i :: 0 <= i < |list.items| && list.items[i].Text?
                              && NormalizePath(list.items[i].text) == NormalizePath(path)
  }

  /** The field is `true` or `false`; a missing one counts as `false`. */
  predicate Flag(d: Fields, field: string, value: bool) {
    if field in d then d[field] == Bool(value) else !value
  }

  // -------------------------------------------------------------- packet and directive

  /** Phase, branch, risk, command and report. */
  predicate HeaderContract(d: Fields, current: Option<string>) {
    && Says(d, "phase") && Says(d, "branch") && current == Some(d["branch"].text)
    && SaysOneOf(d, "risk", {"LOW", "MEDIUM", "HIGH", "CRITICAL"})
    && "command" in d && ListsTexts(d["command"])
    && "gate_only" in d && (d["gate_only"] == Bool(true) || (d["gate_only"] == Bool(false) && d["command"] != List([])))
    && "report" in d && LedgerFile(d["report"], {".md"})
  }

  /** On `platform-dev` the flag is needed, and elsewhere it is refused. */
  predicate DevContract(d: Fields) {
    "branch" in d && Flag(d, "allow_platform_dev", d["branch"] == Text("platform-dev"))
  }

  lemma TextsAre(v: Json)
    ensures RunPacket.TextList(v) <==> ListsTexts(v)
  {}

  lemma PathsAre(v: Json)
    ensures RunPacket.PathList(v) <==> ListsPaths(v)
  {
    hide SafePath, ContractFault;
    forall j: Json ensures ContractFault(j).None? <==> j.Text? && SafePath(j) {
      ContractPathsExactly(j);
      SafePathIsText(j);
    }
  }

  lemma SafePathIsText(v: Json)
    ensures SafePath(v) ==> v.Text?
  {
    hide NamesOnly, OffLimits, Split;
  }

  lemma RiskIs(v: Json)
    ensures RunPacket.GoodRisk(v) <==> v.Text? && v.text in {"LOW", "MEDIUM", "HIGH", "CRITICAL"}
  {
    var r := RunPacket.VALID_RISK_LEVELS;
    assert r[0] == "LOW" && r[1] == "MEDIUM" && r[2] == "HIGH" && r[3] == "CRITICAL";
  }

  lemma CommandIs(d: Fields)
    requires "command" in d && "gate_only" in d
    ensures RunPacket.RunnableCommand(d) <==>
            && ListsTexts(d["command"])
            && (d["gate_only"] == Bool(true) || (d["gate_only"] == Bool(false) && d["command"] != List([])))
  {
    TextsAre(d["command"]);
    if d["command"].List? { assert d["command"] == List([]) <==> d["command"].items == []; }
  }

  lemma HeaderIs(d: Fields, current: Option<string>)
    requires "phase" in d && "branch" in d && "risk" in d && "command" in d && "gate_only" in d && "report" in d
    ensures RunPacket.GoodHeader(d, current) <==> HeaderContract(d, current)
  {
    hide LedgerFault, LedgerFile, RunPacket.RunnableCommand, RunPacket.GoodRisk, ListsTexts;
    RiskIs(d["risk"]);
    CommandIs(d);
    LedgerFilesExactly(d["report"], {".md"});
  }

  lemma DevIs(d: Fields)
    requires "branch" in d
    ensures RunPacket.DevFlagFits(d) <==> DevContract(d)
  {}

  /** The files of a packet: everything expected is allowed, and the report is expected. */
  predicate FilesContract(p: Fields) {
    && "allowed_files" in p && ListsPaths(p["allowed_files"])
    && "expected_files" in p && ListsPaths(p["expected_files"])
    && (forall i :: 0 <= i < |p["expected_files"].items| ==>
          Among(p["expected_files"].items[i].text, p["allowed_files"]))
    && Says(p, "report") && Among(p["report"].text, p["expected_files"])
  }

  /** A packet that may be run. */
  predicate PacketContract(p: Fields, current: Option<string>, anyAgent: bool) {
    && HeaderContract(p, current) && FilesContract(p) && DevContract(p)
    && Says(p, "agent") && (anyAgent || p["agent"].text in {"opencode", "goose", "codex"})
    && "tests" in p && ListsTexts(p["tests"]) && p["tests"] != List([])
    && ("notes" in p ==> p["notes"].Text? || ListsTexts(p["notes"]))
  }

  lemma NameIsAmong(path: string, list: Json)
    requires list.List? && RunPacket.AllTexts(list.items)
    ensures NormalizePath(path) in RunPacket.Names(list.items) <==> Among(path, list)
  {
    hide NormalizePath;
  }

  lemma SubsetIsAmong(items: seq<Json>, list: Json)
    requires RunPacket.AllTexts(items) && list.List? && RunPacket.AllTexts(list.items)
    ensures RunPacket.Names(items) <= RunPacket.Names(list.items) <==>
            forall i :: 0 <= i < |items| ==> Among(items[i].text, list)
  {
    hide NormalizePath, Among;
    forall i | 0 <= i < |items|
      ensures NormalizePath(items[i].text) in RunPacket.Names(list.items) <==> Among(items[i].text, list)
    {
      NameIsAmong(items[i].text, list);
    }
    if RunPacket.Names(items) <= RunPacket.Names(list.items) {
      forall i | 0 <= i < |items| ensures Among(items[i].text, list) {
        assert NormalizePath(items[i].text) in RunPacket.Names(items);
      }
    }
  }

  lemma ScopeIs(p: Fields)
    requires "allowed_files" in p && "expected_files" in p && "report" in p
    ensures RunPacket.GoodScope(p) <==> FilesContract(p)
  {
    hide NormalizePath, Among, SafePath, RunPacket.PathList, ListsPaths, RunPacket.Names;
    var (allowed, expected) := (p["allowed_files"], p["expected_files"]);
    PathsAre(allowed);
    PathsAre(expected);
    if RunPacket.PathList(allowed) && RunPacket.PathList(expected) && Says(p, "report") {
      RunPacket.AcceptedAreTexts(allowed);
      RunPacket.AcceptedAreTexts(expected);
      ListsPathsIsList(allowed);
      ListsPathsIsList(expected);
      SubsetIsAmong(expected.items, allowed);
      NameIsAmong(p["report"].text, expected);
    }
  }

  lemma ListsPathsIsList(v: Json)
    requires ListsPaths(v)
    ensures v.List? && forall i :: 0 <= i < |v.items| ==> v.items[i].Text?
  {
    hide SafePath;
  }

  lemma AgentIs(t: string)
    ensures t in RunPacket.VALID_AGENTS <==> t in {"opencode", "goose", "codex"}
  {
    var r := RunPacket.VALID_AGENTS;
    assert r[0] == "opencode" && r[1] == "goose" && r[2] == "codex";
  }

  lemma PacketFields(p: Fields)
    ensures RunPacket.HasFields(p, RunPacket.REQUIRED_PACKET_FIELDS) <==>
            && "phase" in p && "branch" in p && "agent" in p && "report" in p && "risk" in p && "allowed_files" in p
            && "expected_files" in p && "command" in p && "tests" in p && "gate_only" in p
  {
    if RunPacket.HasFields(p, RunPacket.REQUIRED_PACKET_FIELDS) { RunPacket.FieldsPresent(p); }
    assert RunPacket.REQUIRED_PACKET_FIELDS ==
           ["phase", "branch", "agent", "report", "risk", "allowed_files", "expected_files", "command", "tests",
            "gate_only"];
  }

  /** For all packets: the packet gate reports nothing exactly for those that keep the contract. */
  lemma PacketGateExactly(p: Fields, current: Option<string>, anyAgent: bool)
    ensures RunPacket.PacketIssues(p, current, anyAgent) == Some([]) <==> PacketContract(p, current, anyAgent)
  {
    hide RunPacket.PacketIssues, RunPacket.GoodHeader, RunPacket.GoodScope, RunPacket.DevFlagFits, RunPacket.TextList;
    hide HeaderContract, FilesContract, DevContract, ListsTexts, RunPacket.HasFields;
    RunPacket.AcceptedPackets(p, current, anyAgent);
    PacketFields(p);
    ContractHasFields(p, current);
    if RunPacket.HasFields(p, RunPacket.REQUIRED_PACKET_FIELDS) {
      HeaderIs(p, current);
      DevIs(p);
      TextsAre(p["tests"]);
      TestsAreSome(p["tests"]);
      if "notes" in p { TextsAre(p["notes"]); }
      ScopeIs(p);
      if Says(p, "agent") { AgentIs(p["agent"].text); }
    }
  }

  lemma TestsAreSome(v: Json)
    ensures RunPacket.TextList(v) ==> v.List? && (v.items != [] <==> v != List([]))
  {}

  lemma ContractHasFields(d: Fields, current: Option<string>)
    ensures HeaderContract(d, current) ==>
              "phase" in d && "branch" in d && "risk" in d && "command" in d && "gate_only" in d && "report" in d
    ensures FilesContract(d) ==> "allowed_files" in d && "expected_files" in d
  {
    hide LedgerFile, ListsTexts, ListsPaths, Among;
  }

  /** A directive that may be run. */
  predicate DirectiveContract(d: Fields, current: Option<string>) {
    && HeaderContract(d, current) && DevContract(d)
    && ("expected_files" in d ==> ListsPaths(d["expected_files"]))
  }

  lemma DirectiveFields(d: Fields)
    ensures RunPacket.HasFields(d, DirectiveGate.REQUIRED_FIELDS) <==>
            "phase" in d && "branch" in d && "report" in d && "risk" in d && "command" in d && "gate_only" in d
  {
    if RunPacket.HasFields(d, DirectiveGate.REQUIRED_FIELDS) { DirectiveGate.HeaderFields(d); }
    assert DirectiveGate.REQUIRED_FIELDS == ["phase", "branch", "report", "risk", "command", "gate_only"];
  }

  /** For all directives: the directive gate reports nothing exactly for those that keep the
      contract. */
  lemma DirectiveGateExactly(d: Fields, current: Option<string>)
    ensures DirectiveGate.DirectiveIssues(d, current) == [] <==> DirectiveContract(d, current)
  {
    hide DirectiveGate.DirectiveIssues, RunPacket.GoodHeader, RunPacket.DevFlagFits, RunPacket.PathList;
    hide HeaderContract, DevContract, ListsPaths, RunPacket.HasFields;
    DirectiveGate.AcceptedDirectives(d, current);
    DirectiveFields(d);
    ContractHasFields(d, current);
    if RunPacket.HasFields(d, DirectiveGate.REQUIRED_FIELDS) {
      HeaderIs(d, current);
      DevIs(d);
      PathsAre(Get(d, "expected_files", List([])));
      NoPaths();
    }
  }

  lemma NoPaths()
    ensures ListsPaths(List([]))
  {}

  /** The directive has exactly these fields of its packet, as they are there, and the flag. */
  lemma DirectiveCopies(p: Fields, key: string)
    ensures var d := RunPacket.Directive(p, RunPacket.DIRECTIVE_FIELDS);
            && (key in d <==>
                  || key == "allow_platform_dev"
                  || (key in p
                      && key in ["phase", "branch", "report", "risk", "command", "gate_only", "expected_files"]))
            && (key in d && key in p ==> d[key] == p[key])
            && (key in d && key !in p ==> d[key] == Bool(false))
  {
    var f := RunPacket.DIRECTIVE_FIELDS;
    assert f == ["phase", "branch", "report", "risk", "command", "gate_only", "expected_files", "allow_platform_dev"];
    RunPacket.DirectiveGet(p, f, key);
  }

  // --------------------------------------------------------------------------- mission

  /** A safe path that is not only white space. */
  predicate MissionPath(v: Json) {
    v.Text? && SafePath(v) && Printed(v)
  }

  predicate PhaseName(s: string) {
    |s| >= 3 && s[0] == 'P' && '1' <= s[1] <= '8' && s[2] == '-'
  }

  /** A mission that may be run. */
  predicate MissionContract(m: Fields) {
    && "phase" in m && m["phase"].Text? && PhaseName(m["phase"].text)
    && SaysOneOf(m, "agent", {"opencode", "claude", "goose"})
    && "mission" in m && MissionPath(m["mission"]) && Ends(NormalizePath(m["mission"].text), ".md")
    && "expected_files" in m && m["expected_files"].List? && m["expected_files"].items != []
    && (forall i :: 0 <= i < |m["expected_files"].items| ==> MissionPath(m["expected_files"].items[i]))
    && "result" in m && LedgerFile(m["result"], {".json"})
    && "events" in m && LedgerFile(m["events"], {".jsonl"})
    && "timeout_seconds" in m && m["timeout_seconds"].Number? && 1 <= m["timeout_seconds"].n <= 43200
    && ("allow_edits" in m ==> m["allow_edits"].Bool?) && ("notes" in m ==> m["notes"].Text?)
  }

  lemma MissionPathIs(v: Json)
    ensures SafeRelativeFault(v).None? <==> MissionPath(v)
  {
    hide SafePath, SafeRelativeFault;
    SafeRelativeExactly(v);
  }

  lemma MissionFileIs(v: Json)
    ensures MissionGate.MissionFault(v).None? <==> MissionPath(v) && Ends(NormalizePath(v.text), ".md")
  {
    hide SafeRelativeFault, MissionPath, EndsWith, Ends;
    MissionPathIs(v);
    PathIsText(v);
    if MissionPath(v) { EndsMeans(NormalizePath(v.text), ".md"); }
  }

  lemma PathIsText(v: Json)
    ensures MissionPath(v) ==> v.Text?
  {
    hide SafePath;
  }

  lemma LedgerPathIsPrinted(v: Json)
    requires v.Text? && "ai-ledger/platform/" <= NormalizePath(v.text)
    ensures Printed(v)
  {
    assert NormalizePath(v.text)[0] == 'a';
    assert !IsSpace(v.text[0]);
  }

  lemma OutputIs(v: Json, key: string, suffix: string)
    requires (key == "result" && suffix == ".json") || (key == "events" && suffix == ".jsonl")
    ensures MissionGate.OutputFault(v, key).None? <==> LedgerFile(v, {suffix})
  {
    hide SafeRelativeFault, EndsWith, Ends, SafePath;
    MissionPathIs(v);
    if MissionPath(v) {
      EndsMeans(NormalizePath(v.text), ".json");
      EndsMeans(NormalizePath(v.text), ".jsonl");
    }
    SafePathIsText(v);
    if SafePath(v) && "ai-ledger/platform/" <= NormalizePath(v.text) { LedgerPathIsPrinted(v); }
  }

  lemma PhaseIs(s: string)
    ensures MissionGate.HasPhase(s) <==> PhaseName(s)
    ensures PhaseName(s) ==> !Blank(s)
  {
    var p := MissionGate.PHASES;
    assert p[0] == "P1-" && p[1] == "P2-" && p[2] == "P3-" && p[3] == "P4-";
    assert p[4] == "P5-" && p[5] == "P6-" && p[6] == "P7-" && p[7] == "P8-";
    if PhaseName(s) {
      var k := s[1] as int - '1' as int;
      assert p[k] <= s;
      assert !IsSpace(s[0]);
    }
  }

  lemma MissionAgentIs(v: Json)
    ensures MissionGate.KnownAgent(v) <==> v.Text? && v.text in {"opencode", "claude", "goose"}
  {
    var a := MissionGate.VALID_AGENTS;
    assert a[0] == "opencode" && a[1] == "claude" && a[2] == "goose";
  }

  lemma MissionListIs(v: Json)
    ensures MissionGate.SafeList(v) <==>
            v.List? && forall i :: 0 <= i < |v.items| ==> MissionPath(v.items[i])
  {
    hide SafeRelativeFault, MissionPath;
    forall j: Json ensures SafeRelativeFault(j).None? <==> MissionPath(j) { MissionPathIs(j); }
  }

  /** For all missions: the mission gate reports nothing exactly for those that keep the
      contract. */
  lemma MissionGateExactly(m: Fields)
    ensures MissionGate.MissionFailures(Object(m)) == [] <==> MissionContract(m)
  {
    hide MissionGate.MissionFailures, MissionPath, LedgerFile, MissionGate.OutputFault, MissionGate.MissionFault;
    hide MissionGate.SafeList, MissionGate.HasPhase, MissionGate.KnownAgent, PhaseName, Blank, Ends, NormalizePath;
    MissionGate.AcceptedMissions(m);
    var phase := MissionGate.Field(m, "phase");
    if phase.Text? { PhaseIs(phase.text); }
    MissionAgentIs(MissionGate.Field(m, "agent"));
    MissionFileIs(MissionGate.Field(m, "mission"));
    MissionListIs(MissionGate.Field(m, "expected_files"));
    OutputIs(MissionGate.Field(m, "result"), "result", ".json");
    OutputIs(MissionGate.Field(m, "events"), "events", ".jsonl");
    NullIsNothing();
  }

  lemma NullIsNothing()
    ensures !MissionPath(Null) && !LedgerFile(Null, {".json"}) && !LedgerFile(Null, {".jsonl"})
  {}

  // ---------------------------------------------------------------------------- worker

  /** Arguments the worker gate runs with. */
  predicate ArgsContract(a: WorkerGate.Args) {
    && SafePath(Text(a.mission)) && LedgerFile(Text(a.result), {".json"})
    && LedgerFile(Text(a.events), {".jsonl", ".json"}) && a.timeout > 0.0
    && forall i :: 0 <= i < |a.expected| ==> SafePath(Text(a.expected[i]))
  }

  /** For all arguments: the worker gate runs exactly with those that keep the contract, and then
      the audit allows the expected files and the two outputs to change. */
  lemma ArgsExactly(a: WorkerGate.Args)
    ensures WorkerGate.Validate(a).Some? <==> ArgsContract(a)
    ensures WorkerGate.Validate(a).Some? ==>
              forall p :: p in WorkerGate.Validate(a).value.outputs <==>
                || p == NormalizePath(a.result) || p == NormalizePath(a.events)
                || exists i :: 0 <= i < |a.expected| && p == NormalizePath(a.expected[i])
  {
    hide ContractFault, LedgerFault, SafePath, LedgerFile, NormalizePath;
    ContractPathsExactly(Text(a.mission));
    LedgerFilesExactly(Text(a.result), {".json"});
    LedgerFilesExactly(Text(a.events), {".jsonl", ".json"});
    forall s: string ensures ContractFault(Text(s)).None? <==> SafePath(Text(s)) { ContractPathsExactly(Text(s)); }
  }

  /** A result file that a worker may leave. */
  predicate ResultContract(r: Fields) {
    && SaysOneOf(r, "status", {"done", "failed", "partial"})
    && "files_changed" in r && ListsTexts(r["files_changed"])
    && "test_result" in r && r["test_result"].Text?
    && ("blocker" in r ==> r["blocker"].Text? || r["blocker"].Null?)
  }

  lemma ResultExactly(r: Fields)
    ensures WorkerGate.ResultOk(r) <==> ResultContract(r)
  {
    var s := WorkerGate.VALID_STATUS;
    assert s[0] == "done" && s[1] == "failed" && s[2] == "partial";
  }

  /** Reading the report raises exactly when the result is no object, or when its list of files is
      there and is neither a list nor a text nor an object. */
  lemma ReadableExactly(file: WorkerGate.ResultFile)
    ensures WorkerGate.Readable(file) <==>
            (file.Parsed? ==>
               file.value.Object? &&
               ("files_changed" in file.value.fields ==>
                  var v := file.value.fields["files_changed"]; v.List? || v.Text? || v.Object?))
  {}
}
