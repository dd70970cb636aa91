/** The run packet gate: checking a packet and making a directive from it. */
module RunPacket {
  import opened Common
  import opened PathText
  import opened ContractPaths

  type Packet = map<string, Json>

  const REQUIRED_PACKET_FIELDS: seq<string> :=
    ["phase", "branch", "agent", "report", "risk", "allowed_files", "expected_files", "command", "tests", "gate_only"]
  const VALID_AGENTS: seq<string> := ["opencode", "goose", "codex"]
  const VALID_RISK_LEVELS: seq<string> := ["LOW", "MEDIUM", "HIGH", "CRITICAL"]
  const DIRECTIVE_FIELDS: seq<string> :=
    ["phase", "branch", "report", "risk", "command", "gate_only", "expected_files", "allow_platform_dev"]

  datatype Issue =
    | Missing(field: string)
    | NotAText(field: string)
    | UnknownAgent
    | BadRisk
    | NotAList(field: string)
    | BadText(field: string, index: nat)
    | EmptyList(field: string)
    | EmptyCommand
    | GateOnlyType
    | NoCurrentBranch
    | OtherBranch
    | BadReport(fault: Fault)
    | BadPath(field: string, index: nat, fault: Fault)
    | NotAllowed(paths: set<string>)
    | ReportNotIn(field: string)
    | NotesType
    | DevType
    | DevNotAllowed
    | DevElsewhere

  // -------------------------------------------------------------------- the checks

  predicate NonEmptyText(v: Json) {
    v.Text? && v.text != ""
  }

  function MissingFields(required: seq<string>, p: Packet): seq<Issue> {
    if required == [] then []
    else
      var last := |required| - 1;
      MissingFields(required[..last], p) + if required[last] in p then [] else [Missing(required[last])]
  }

  function TextIssues(p: Packet, field: string): seq<Issue> {
    if NonEmptyText(Get(p, field, Null)) then [] else [NotAText(field)]
  }

  function AgentIssues(p: Packet, allowUnknown: bool): seq<Issue> {
    var agent := Get(p, "agent", Text(""));
    if !NonEmptyText(agent) then [NotAText("agent")]
    else if !allowUnknown && agent.text !in VALID_AGENTS then [UnknownAgent]
    else []
  }

  function RiskIssues(p: Packet): seq<Issue> {
    var risk := Get(p, "risk", Text(""));
    if risk.Text? && risk.text in VALID_RISK_LEVELS then [] else [BadRisk]
  }

  /** The first item that is not a non-empty text. */
  function FirstBadText(items: seq<Json>): (k: nat)
    ensures k <= |items|
    ensures forall i :: 0 <= i < k ==> NonEmptyText(items[i])
    ensures k < |items| ==> !NonEmptyText(items[k])
  {
    if items == [] || !NonEmptyText(items[0]) then 0 else 1 + FirstBadText(items[1..])
  }

  function CommandIssues(p: Packet): seq<Issue> {
    var command := Get(p, "command", Null);
    if !command.List? then [NotAList("command")]
    else
      var bad := FirstBadText(command.items);
      (if bad < |command.items| then [BadText("command", bad)] else [])
      + (if command.items == [] && !Holds(Get(p, "gate_only", Bool(false))) then [EmptyCommand] else [])
  }

  function GateOnlyIssues(p: Packet): seq<Issue> {
    if Get(p, "gate_only", Null).Bool? then [] else [GateOnlyType]
  }

  function BranchIssues(p: Packet, current: Option<string>): seq<Issue> {
    var branch := Get(p, "branch", Text(""));
    if current.None? then [NoCurrentBranch]
    else if NonEmptyText(branch) && branch.text != current.value then [OtherBranch]
    else []
  }

  function ReportIssues(p: Packet): seq<Issue> {
    var report := Get(p, "report", Text(""));
    if !NonEmptyText(report) then []
    else
      var fault := LedgerFault(report, {".md"});
      if fault.Some? then [BadReport(fault.value)] else []
  }

  function PathIssues(items: seq<Json>, field: string): seq<Issue> {
    if items == [] then []
    else
      var last := |items| - 1;
      var fault := ContractFault(items[last]);
      PathIssues(items[..last], field) + if fault.Some? then [BadPath(field, last, fault.value)] else []
  }

  function FileIssues(p: Packet, field: string): seq<Issue> {
    var files := Get(p, field, List([]));
    if files.List? then PathIssues(files.items, field) else [NotAList(field)]
  }

  predicate AllTexts(items: seq<Json>) {
    forall i :: 0 <= i < |items| ==> items[i].Text?
  }

  /** The normalised paths of a list. */
  function Names(items: seq<Json>): set<string>
    requires AllTexts(items)
  {
    set i | 0 <= i < |items| :: NormalizePath(items[i].text)
  }

  /** `set(normalize_path(f) for f in ...)` raises on an entry that is not a text. */
  predicate Raises(p: Packet) {
    var allowed, expected := Get(p, "allowed_files", List([])), Get(p, "expected_files", List([]));
    allowed.List? && expected.List? && !(AllTexts(allowed.items) && AllTexts(expected.items))
  }

  function ReportNotAmong(report: Json, names: set<string>, field: string): seq<Issue> {
    if NonEmptyText(report) && NormalizePath(report.text) !in names then [ReportNotIn(field)] else []
  }

  function ScopeIssues(p: Packet): seq<Issue>
    requires !Raises(p)
  {
    var allowed, expected := Get(p, "allowed_files", List([])), Get(p, "expected_files", List([]));
    var report := Get(p, "report", Text(""));
    if !allowed.List? || !expected.List? then []
    else
      var (allowedSet, expectedSet) := (Names(allowed.items), Names(expected.items));
      (if expectedSet - allowedSet != {} then [NotAllowed(expectedSet - allowedSet)] else [])
      + ReportNotAmong(report, allowedSet, "allowed_files") + ReportNotAmong(report, expectedSet, "expected_files")
  }

  function BadTexts(items: seq<Json>, field: string): seq<Issue> {
    if items == [] then []
    else
      var last := |items| - 1;
      BadTexts(items[..last], field) + if NonEmptyText(items[last]) then [] else [BadText(field, last)]
  }

  /** `validate_string_list`. */
  function TextListIssues(v: Json, field: string, allowEmpty: bool): seq<Issue> {
    if !v.List? then [NotAList(field)]
    else BadTexts(v.items, field) + if !allowEmpty && v.items == [] then [EmptyList(field)] else []
  }

  function NotesIssues(p: Packet): seq<Issue> {
    if "notes" !in p || p["notes"].Text? then []
    else if p["notes"].List? then TextListIssues(p["notes"], "notes", true)
    else [NotesType]
  }

  function DevIssues(p: Packet): seq<Issue> {
    var allow := Get(p, "allow_platform_dev", Bool(false));
    var onDev := Get(p, "branch", Null) == Text("platform-dev");
    if !allow.Bool? then [DevType]
    else if onDev && !allow.b then [DevNotAllowed]
    else if !onDev && allow.b then [DevElsewhere]
    else []
  }

  /** `validate_packet`: the issues in order; `None` is an exception. */
  function PacketIssues(p: Packet, current: Option<string>, allowUnknown: bool): Option<seq<Issue>> {
    var missing := MissingFields(REQUIRED_PACKET_FIELDS, p);
    if missing != [] then Some(missing)
    else if Raises(p) then None
    else Some(
      TextIssues(p, "phase") + TextIssues(p, "branch") + AgentIssues(p, allowUnknown) + TextIssues(p, "report")
      + RiskIssues(p) + CommandIssues(p) + GateOnlyIssues(p) + BranchIssues(p, current) + ReportIssues(p)
      + FileIssues(p, "allowed_files") + FileIssues(p, "expected_files") + ScopeIssues(p)
      + TextListIssues(Get(p, "tests", List([])), "tests", false) + NotesIssues(p) + DevIssues(p))
  }

  // --------------------------------------------------------------------- the gate

  method FindMissing(required: seq<string>, p: Packet) returns (issues: seq<Issue>)
    ensures issues == MissingFields(required, p)
  {
    issues := [];
    for i := 0 to |required|
      invariant issues == MissingFields(required[..i], p)
    {
      assert required[..i + 1][..i] == required[..i];
      if required[i] !in p { issues := issues + [Missing(required[i])]; }
    }
    assert required[..|required|] == required;
  }

  method CheckCommand(p: Packet) returns (issues: seq<Issue>)
    ensures issues == CommandIssues(p)
  {
    issues := [];
    var command := Get(p, "command", Null);
    if !command.List? { return [NotAList("command")]; }
    var i := 0;
    while i < |command.items|
      invariant i <= |command.items| && issues == []
      invariant FirstBadText(command.items) == i + FirstBadText(command.items[i..])
    {
      if !NonEmptyText(command.items[i]) {
        issues := [BadText("command", i)];
        break;
      }
      assert command.items[i..][1..] == command.items[i + 1..];
      i := i + 1;
    }
    if command.items == [] && !Holds(Get(p, "gate_only", Bool(false))) {
      issues := issues + [EmptyCommand];
    }
  }

  method CheckPaths(items: seq<Json>, field: string) returns (issues: seq<Issue>)
    ensures issues == PathIssues(items, field)
  {
    issues := [];
    for i := 0 to |items|
      invariant issues == PathIssues(items[..i], field)
    {
      assert items[..i + 1][..i] == items[..i];
      var fault := ContractFault(items[i]);
      if fault.Some? { issues := issues + [BadPath(field, i, fault.value)]; }
    }
    assert items[..|items|] == items;
  }

  method CheckTexts(v: Json, field: string, allowEmpty: bool) returns (issues: seq<Issue>)
    ensures issues == TextListIssues(v, field, allowEmpty)
  {
    if !v.List? { return [NotAList(field)]; }
    issues := [];
    for i := 0 to |v.items|
      invariant issues == BadTexts(v.items[..i], field)
    {
      assert v.items[..i + 1][..i] == v.items[..i];
      if !NonEmptyText(v.items[i]) { issues := issues + [BadText(field, i)]; }
    }
    assert v.items[..|v.items|] == v.items;
    if !allowEmpty && v.items == [] { issues := issues + [EmptyList(field)]; }
  }

  // ---------------------------------------------------------- what acceptance means

  predicate TextList(v: Json) {
    v.List? && forall i :: 0 <= i < |v.items| ==> NonEmptyText(v.items[i])
  }

  predicate PathList(v: Json) {
    v.List? && forall i :: 0 <= i < |v.items| ==> ContractFault(v.items[i]).None?
  }

  predicate HasFields(p: Packet, fields: seq<string>) {
    forall i :: 0 <= i < |fields| ==> fields[i] in p
  }

  /** The value of a field that may be missing. */
  function Field(p: Packet, name: string): Json {
    Get(p, name, Null)
  }

  /** The dev flag is set on the branch `platform-dev` and nowhere else. */
  predicate DevFlagFits(p: Packet) {
    var allow := Get(p, "allow_platform_dev", Bool(false));
    allow.Bool? && (allow.b <==> Field(p, "branch") == Text("platform-dev"))
  }

  predicate RunnableCommand(p: Packet) {
    var command, gateOnly := Field(p, "command"), Field(p, "gate_only");
    TextList(command) && gateOnly.Bool? && (command.items == [] ==> gateOnly.b)
  }

  predicate GoodRisk(v: Json) {
    v.Text? && v.text in VALID_RISK_LEVELS
  }

  /** The parts of the contract that a directive repeats. */
  predicate GoodHeader(p: Packet, current: Option<string>) {
    && NonEmptyText(Field(p, "phase"))
    && NonEmptyText(Field(p, "branch")) && current == Some(Field(p, "branch").text)
    && GoodRisk(Field(p, "risk")) && RunnableCommand(p)
    && LedgerFault(Field(p, "report"), {".md"}).None?
  }

  /** The report is expected and everything expected is allowed. */
  predicate GoodScope(p: Packet) {
    var allowed, expected := Field(p, "allowed_files"), Field(p, "expected_files");
    && PathList(allowed) && PathList(expected) && NonEmptyText(Field(p, "report"))
    && Names(expected.items) <= Names(allowed.items)
    && NormalizePath(Field(p, "report").text) in Names(expected.items)
  }

  /** A packet that may be run: a second, positive reading of the contract. */
  predicate GoodPacket(p: Packet, current: Option<string>, allowUnknown: bool) {
    && HasFields(p, REQUIRED_PACKET_FIELDS)
    && GoodHeader(p, current) && GoodScope(p)
    && NonEmptyText(Field(p, "agent")) && (allowUnknown || Field(p, "agent").text in VALID_AGENTS)
    && TextList(Field(p, "tests")) && Field(p, "tests").items != []
    && ("notes" in p ==> p["notes"].Text? || TextList(p["notes"]))
    && DevFlagFits(p)
  }

  lemma {:induction false} NoMissingFields(required: seq<string>, p: Packet)
    ensures MissingFields(required, p) == [] <==> HasFields(p, required)
  {
    if required != [] {
      var last := |required| - 1;
      NoMissingFields(required[..last], p);
      assert HasFields(p, required) <==> HasFields(p, required[..last]) && required[last] in p;
    }
  }

  /** No issue is reported for a list exactly when every entry is an accepted path. */
  lemma {:induction false} NoPathIssues(items: seq<Json>, field: string)
    ensures PathIssues(items, field) == [] <==> PathList(List(items))
  {
    if items != [] {
      var last := |items| - 1;
      NoPathIssues(items[..last], field);
      PathListSnoc(items[..last], items[last]);
      assert items[..last] + [items[last]] == items;
    }
  }

  lemma PathListSnoc(items: seq<Json>, v: Json)
    ensures PathList(List(items + [v])) <==> PathList(List(items)) && ContractFault(v).None?
  {
    var all := items + [v];
    assert all[|items|] == v;
    assert forall i :: 0 <= i < |items| ==> all[i] == items[i];
  }

  lemma {:induction false} NoBadTexts(items: seq<Json>, field: string)
    ensures BadTexts(items, field) == [] <==> TextList(List(items))
  {
    if items != [] {
      var last := |items| - 1;
      NoBadTexts(items[..last], field);
      assert TextList(List(items)) <==> TextList(List(items[..last])) && NonEmptyText(items[last]);
    }
  }

  lemma FieldsPresent(p: Packet)
    requires HasFields(p, REQUIRED_PACKET_FIELDS)
    ensures "phase" in p && "branch" in p && "agent" in p && "report" in p && "risk" in p && "allowed_files" in p
    ensures "expected_files" in p && "command" in p && "tests" in p && "gate_only" in p
  {
    var r := REQUIRED_PACKET_FIELDS;
    assert r[0] == "phase" && r[1] == "branch" && r[2] == "agent" && r[3] == "report" && r[4] == "risk";
    assert r[5] == "allowed_files" && r[6] == "expected_files" && r[7] == "command" && r[8] == "tests";
    assert r[9] == "gate_only";
  }

  predicate CleanFields(p: Packet, current: Option<string>, allowUnknown: bool) {
    && TextIssues(p, "phase") == [] && TextIssues(p, "branch") == [] && AgentIssues(p, allowUnknown) == []
    && TextIssues(p, "report") == [] && RiskIssues(p) == [] && CommandIssues(p) == [] && GateOnlyIssues(p) == []
    && BranchIssues(p, current) == [] && ReportIssues(p) == []
  }

  predicate CleanScope(p: Packet) {
    FileIssues(p, "allowed_files") == [] && FileIssues(p, "expected_files") == [] && !Raises(p) && ScopeIssues(p) == []
  }

  predicate CleanRest(p: Packet) {
    && TextListIssues(Get(p, "tests", List([])), "tests", false) == [] && NotesIssues(p) == [] && DevIssues(p) == []
  }

  lemma NoIssuesAnywhere(p: Packet, current: Option<string>, allowUnknown: bool)
    ensures PacketIssues(p, current, allowUnknown) == Some([]) <==>
            && MissingFields(REQUIRED_PACKET_FIELDS, p) == []
            && CleanFields(p, current, allowUnknown) && CleanScope(p) && CleanRest(p)
  {}

  lemma CleanFieldsAre(p: Packet, current: Option<string>, allowUnknown: bool)
    requires HasFields(p, REQUIRED_PACKET_FIELDS)
    ensures CleanFields(p, current, allowUnknown) <==>
            && GoodHeader(p, current) && NonEmptyText(Field(p, "agent"))
            && (allowUnknown || Field(p, "agent").text in VALID_AGENTS)
  {
    FieldsPresent(p);
    if p["command"].List? {
      assert FirstBadText(p["command"].items) == |p["command"].items| <==> TextList(p["command"]);
    }
  }

  lemma AcceptedAreTexts(v: Json)
    requires PathList(v)
    ensures AllTexts(v.items)
  {
    forall i | 0 <= i < |v.items| ensures v.items[i].Text? { assert ContractFault(v.items[i]).None?; }
  }

  lemma CleanFilesAre(p: Packet, field: string)
    requires field in p
    ensures FileIssues(p, field) == [] <==> PathList(Field(p, field))
  {
    if p[field].List? {
      NoPathIssues(p[field].items, field);
      assert List(p[field].items) == p[field];
    }
  }

  lemma CleanScopeIs(p: Packet)
    requires HasFields(p, REQUIRED_PACKET_FIELDS) && NonEmptyText(Field(p, "report"))
    ensures CleanScope(p) <==> GoodScope(p)
  {
    FieldsPresent(p);
    CleanFilesAre(p, "allowed_files");
    CleanFilesAre(p, "expected_files");
    var allowed, expected := p["allowed_files"], p["expected_files"];
    if PathList(allowed) && PathList(expected) {
      AcceptedAreTexts(allowed);
      AcceptedAreTexts(expected);
      EmptyDifference(Names(expected.items), Names(allowed.items));
    }
  }

  lemma CleanRestIs(p: Packet)
    requires HasFields(p, REQUIRED_PACKET_FIELDS)
    ensures CleanRest(p) <==>
            && TextList(Field(p, "tests")) && Field(p, "tests").items != []
            && ("notes" in p ==> p["notes"].Text? || TextList(p["notes"]))
            && DevFlagFits(p)
  {
    FieldsPresent(p);
    if p["tests"].List? { NoBadTexts(p["tests"].items, "tests"); }
    if "notes" in p && p["notes"].List? { NoBadTexts(p["notes"].items, "notes"); }
  }

  /** `validate_packet` reports nothing exactly for the packets that may be run. */
  lemma AcceptedPackets(p: Packet, current: Option<string>, allowUnknown: bool)
    ensures PacketIssues(p, current, allowUnknown) == Some([]) <==> GoodPacket(p, current, allowUnknown)
  {
    NoIssuesAnywhere(p, current, allowUnknown);
    NoMissingFields(REQUIRED_PACKET_FIELDS, p);
    if HasFields(p, REQUIRED_PACKET_FIELDS) {
      CleanFieldsAre(p, current, allowUnknown);
      CleanRestIs(p);
      if NonEmptyText(Field(p, "report")) { CleanScopeIs(p); }
    }
  }

  /** `validate_packet`. */
  method ValidatePacket(p: Packet, current: Option<string>, allowUnknown: bool) returns (r: Option<seq<Issue>>)
    ensures r == PacketIssues(p, current, allowUnknown)
    ensures r == Some([]) <==> GoodPacket(p, current, allowUnknown)
  {
    AcceptedPackets(p, current, allowUnknown);
    var issues := FindMissing(REQUIRED_PACKET_FIELDS, p);
    if issues != [] { return Some(issues); }
    issues := TextIssues(p, "phase");
    issues := issues + TextIssues(p, "branch");
    issues := issues + AgentIssues(p, allowUnknown);
    issues := issues + TextIssues(p, "report");
    issues := issues + RiskIssues(p);
    var more := CheckCommand(p);
    issues := issues + more;
    issues := issues + GateOnlyIssues(p);
    issues := issues + BranchIssues(p, current);
    issues := issues + ReportIssues(p);
    var allowed, expected := Get(p, "allowed_files", List([])), Get(p, "expected_files", List([]));
    more := [NotAList("allowed_files")];
    if allowed.List? { more := CheckPaths(allowed.items, "allowed_files"); }
    issues := issues + more;
    more := [NotAList("expected_files")];
    if expected.List? { more := CheckPaths(expected.items, "expected_files"); }
    issues := issues + more;
    if Raises(p) { return None; }
    issues := issues + ScopeIssues(p);
    more := CheckTexts(Get(p, "tests", List([])), "tests", false);
    issues := issues + more;
    if "notes" in p && p["notes"].List? {
      more := CheckTexts(p["notes"], "notes", true);
      issues := issues + more;
    } else {
      issues := issues + NotesIssues(p);
    }
    issues := issues + DevIssues(p);
    return Some(issues);
  }

  // ------------------------------------------------------------------ the directive

  function NormalizeItems(items: seq<Json>): (r: seq<Json>)
    ensures |r| == |items|
    ensures forall i :: 0 <= i < |items| ==>
              r[i] == if items[i].Text? then Text(NormalizePath(items[i].text)) else items[i]
  {
    if items == [] then []
    else [if items[0].Text? then Text(NormalizePath(items[0].text)) else items[0]] + NormalizeItems(items[1..])
  }

  function NormalizeFiles(p: Packet, field: string): Packet {
    if Get(p, field, Null).List? then p[field := List(NormalizeItems(p[field].items))] else p
  }

  function NormalizeReport(p: Packet): Packet {
    if Get(p, "report", Null).Text? then p["report" := Text(NormalizePath(p["report"].text))] else p
  }

  /** `normalize_packet`. */
  function NormalizePacket(p: Packet): Packet {
    NormalizeFiles(NormalizeFiles(NormalizeReport(p), "allowed_files"), "expected_files")
  }

  function Directive(p: Packet, fields: seq<string>): Packet {
    if fields == [] then map[]
    else
      var last := |fields| - 1;
      var d, f := Directive(p, fields[..last]), fields[last];
      if f == "allow_platform_dev" then d[f := Get(p, f, Bool(false))]
      else if f in p then d[f := p[f]]
      else d
  }

  method BuildDirective(p: Packet) returns (directive: Packet)
    ensures directive == Directive(p, DIRECTIVE_FIELDS)
  {
    directive := map[];
    var fields := DIRECTIVE_FIELDS;
    for i := 0 to |fields|
      invariant directive == Directive(p, fields[..i])
    {
      assert fields[..i + 1][..i] == fields[..i];
      var f := fields[i];
      if f == "allow_platform_dev" {
        directive := directive[f := Get(p, f, Bool(false))];
      } else if f in p {
        directive := directive[f := p[f]];
      }
    }
    assert fields[..|fields|] == fields;
  }

  lemma {:induction false} DirectiveGet(p: Packet, fields: seq<string>, key: string)
    ensures var d := Directive(p, fields);
            && (key in d <==> key in fields && (key == "allow_platform_dev" || key in p))
            && (key in d ==> d[key] == Get(p, key, Bool(false)))
  {
    if fields != [] {
      var last := |fields| - 1;
      DirectiveGet(p, fields[..last], key);
      assert fields == fields[..last] + [fields[last]];
    }
  }
}
