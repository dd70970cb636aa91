/**
  What the packet gate, the directive gate and the mission gate report about an input they do not
  accept: each issue exactly when it is the case.
 */
module GateReports {
  import opened Common
  import opened PathText
  import opened ContractPaths
  import opened RunPacket
  import opened GateContracts
  import DirectiveGate
  import MissionGate

  /** Why a path is refused: the first of these that applies. */
  lemma FaultExactly(v: Json, fault: Fault)
    ensures ContractFault(v) == Some(fault) <==>
            var isText := v.Text? && v.text != "";
            var rooted := isText && (v.text[0] == '/' || ':' in Split(NormalizePath(v.text), '/')[0]);
            match fault
            case NotText => !isText
            case Absolute => rooted
            case UnsafePart => isText && !rooted && !NamesOnly(NormalizePath(v.text))
            case Forbidden => isText && !rooted && NamesOnly(NormalizePath(v.text)) && OffLimits(v.text)
            case _ => false
  {
    hide Split, NamesOnly, IsTraversal, HasUnsafePart, IsForbidden, OffLimits;
    if v.Text? && v.text != "" {
      SafeParts(v.text);
      ForbiddenExactlyWhen(v.text);
      assert "/" <= v.text <==> v.text[0] == '/';
    }
  }

  /** A report path: the same, then the directory, then the suffix. */
  lemma LedgerFaultExactly(v: Json, suffixes: set<string>, fault: Fault)
    ensures LedgerFault(v, suffixes) == Some(fault) <==>
            if !SafePath(v) then ContractFault(v) == Some(fault)
            else if !("ai-ledger/platform/" <= NormalizePath(v.text)) then fault == OutsideLedger
            else fault == WrongSuffix && forall suffix :: suffix in suffixes ==> !Ends(NormalizePath(v.text), suffix)
  {
    hide SafePath, ContractFault, EndsWith, Ends;
    ContractPathsExactly(v);
    if SafePath(v) {
      SafePathIsText(v);
      forall suffix: string ensures EndsWith(NormalizePath(v.text), suffix) <==> Ends(NormalizePath(v.text), suffix) {
        EndsMeans(NormalizePath(v.text), suffix);
      }
    }
  }

  // -------------------------------------------------------------------- missing fields

  lemma {:induction false} MissingExactly(required: seq<string>, p: Fields, issue: Issue)
    ensures issue in MissingFields(required, p) <==>
            issue.Missing? && issue.field in required && issue.field !in p
  {
    if required != [] {
      var last := |required| - 1;
      MissingExactly(required[..last], p, issue);
      assert required == required[..last] + [required[last]];
    }
  }

  // ---------------------------------------------------------------------- every issue

  predicate IsText(v: Json) {
    v.Text? && v.text != ""
  }

  /** Entry `i` is the first that is not a text, or empty. */
  predicate FirstBad(v: Json, i: nat) {
    v.List? && i < |v.items| && !IsText(v.items[i]) && forall k :: 0 <= k < i ==> IsText(v.items[k])
  }

  predicate BadEntry(v: Json, i: nat) {
    v.List? && i < |v.items| && !IsText(v.items[i])
  }

  /** `n` is one of the paths, normalised. */
  predicate InList(n: string, items: seq<Json>) {
    exists i :: 0 <= i < |items| && items[i].Text? && NormalizePath(items[i].text) == n
  }

  /** These are the expected paths that are not allowed. */
  ghost predicate NotCovered(p: Fields, paths: set<string>)
    requires "allowed_files" in p && "expected_files" in p
  {
    var (allowed, expected) := (p["allowed_files"], p["expected_files"]);
    && allowed.List? && expected.List? && paths != {}
    && forall n :: n in paths <==>
         && InList(n, expected.items) && !InList(n, allowed.items)
  }

  predicate AllThere(p: Fields) {
    && "phase" in p && "branch" in p && "agent" in p && "report" in p && "risk" in p && "allowed_files" in p
    && "expected_files" in p && "command" in p && "tests" in p && "gate_only" in p
  }

  /** The header fields, and the command. */
  predicate HeaderIssue(p: Fields, current: Option<string>, issue: Issue)
    requires "branch" in p && "report" in p && "command" in p && "gate_only" in p
  {
    match issue
    case NotAText(f) => f in {"phase", "branch", "report"} && !Says(p, f)
    case BadRisk => !SaysOneOf(p, "risk", {"LOW", "MEDIUM", "HIGH", "CRITICAL"})
    case NotAList(f) => f == "command" && !p[f].List?
    case BadText(f, i) => f == "command" && FirstBad(p[f], i)
    case EmptyCommand => p["command"] == List([]) && !Holds(p["gate_only"])
    case GateOnlyType => !p["gate_only"].Bool?
    case NoCurrentBranch => current.None?
    case OtherBranch => current.Some? && Says(p, "branch") && p["branch"].text != current.value
    case BadReport(fault) => Says(p, "report") && LedgerFault(p["report"], {".md"}) == Some(fault)
    case _ => false
  }

  predicate AgentIssue(p: Fields, anyAgent: bool, issue: Issue) {
    match issue
    case NotAText(f) => f == "agent" && !Says(p, f)
    case UnknownAgent => Says(p, "agent") && !anyAgent && p["agent"].text !in {"opencode", "goose", "codex"}
    case _ => false
  }

  predicate PathIssue(p: Fields, field: string, issue: Issue)
    requires field in p
  {
    match issue
    case NotAList(f) => f == field && !p[f].List?
    case BadPath(f, i, fault) =>
      f == field && p[f].List? && i < |p[f].items| && ContractFault(p[f].items[i]) == Some(fault)
    case _ => false
  }

  ghost predicate ScopeIssue(p: Fields, issue: Issue)
    requires AllThere(p)
  {
    match issue
    case NotAllowed(paths) => NotCovered(p, paths)
    case ReportNotIn(f) =>
      && (f == "allowed_files" || f == "expected_files") && p["allowed_files"].List? && p["expected_files"].List?
      && Says(p, "report") && !Among(p["report"].text, p[f])
    case _ => false
  }

  predicate ListIssue(v: Json, field: string, mayBeEmpty: bool, issue: Issue) {
    match issue
    case NotAList(f) => f == field && !v.List?
    case BadText(f, i) => f == field && BadEntry(v, i)
    case EmptyList(f) => f == field && v == List([]) && !mayBeEmpty
    case _ => false
  }

  predicate NotesIssue(p: Fields, issue: Issue) {
    "notes" in p && !p["notes"].Text? &&
    if p["notes"].List? then ListIssue(p["notes"], "notes", true, issue) else issue.NotesType?
  }

  predicate DevIssue(p: Fields, issue: Issue)
    requires "branch" in p
  {
    var dev := p["branch"] == Text("platform-dev");
    match issue
    case DevType => "allow_platform_dev" in p && !p["allow_platform_dev"].Bool?
    case DevNotAllowed => dev && Flag(p, "allow_platform_dev", false)
    case DevElsewhere => !dev && Flag(p, "allow_platform_dev", true)
    case _ => false
  }

  /** The issue is the case. */
  ghost predicate IsTheCase(p: Fields, current: Option<string>, anyAgent: bool, issue: Issue)
    requires AllThere(p)
  {
    || HeaderIssue(p, current, issue) || AgentIssue(p, anyAgent, issue)
    || PathIssue(p, "allowed_files", issue) || PathIssue(p, "expected_files", issue)
    || ScopeIssue(p, issue) || ListIssue(p["tests"], "tests", false, issue) || NotesIssue(p, issue)
    || DevIssue(p, issue)
  }

  // ---------------------------------------------------------------------- proofs, part by part

  lemma FirstBadIs(v: Json, i: nat)
    requires v.List?
    ensures FirstBad(v, i) <==> FirstBadText(v.items) == i < |v.items|
  {}

  lemma CommandExactly(p: Fields, issue: Issue)
    requires "command" in p && "gate_only" in p
    ensures issue in CommandIssues(p) <==>
            match issue
            case NotAList(f) => f == "command" && !p[f].List?
            case BadText(f, i) => f == "command" && FirstBad(p[f], i)
            case EmptyCommand => p["command"] == List([]) && !Holds(p["gate_only"])
            case _ => false
  {
    var command := p["command"];
    if command.List? {
      assert command == List([]) <==> command.items == [];
      if issue.BadText? { FirstBadIs(command, issue.index); }
    }
  }

  lemma TextExactly(p: Fields, field: string, issue: Issue)
    requires field in p
    ensures issue in TextIssues(p, field) <==> issue == NotAText(field) && !Says(p, field)
  {}

  lemma RiskExactly(p: Fields, issue: Issue)
    requires "risk" in p
    ensures issue in RiskIssues(p) <==>
            issue.BadRisk? && !SaysOneOf(p, "risk", {"LOW", "MEDIUM", "HIGH", "CRITICAL"})
  {
    RiskIs(p["risk"]);
  }

  lemma GateOnlyExactly(p: Fields, issue: Issue)
    requires "gate_only" in p
    ensures issue in GateOnlyIssues(p) <==> issue.GateOnlyType? && !p["gate_only"].Bool?
  {}

  lemma BranchExactly(p: Fields, current: Option<string>, issue: Issue)
    requires "branch" in p
    ensures issue in BranchIssues(p, current) <==>
            || (issue.NoCurrentBranch? && current.None?)
            || (issue.OtherBranch? && current.Some? && Says(p, "branch") && p["branch"].text != current.value)
  {}

  lemma ReportFaultExactly(p: Fields, issue: Issue)
    requires "report" in p
    ensures issue in ReportIssues(p) <==>
            issue.BadReport? && Says(p, "report") && LedgerFault(p["report"], {".md"}) == Some(issue.fault)
  {
    hide LedgerFault;
  }

  lemma HeaderExactly(p: Fields, current: Option<string>, issue: Issue)
    requires AllThere(p)
    ensures issue in TextIssues(p, "phase") + TextIssues(p, "branch") + TextIssues(p, "report") + RiskIssues(p)
                     + CommandIssues(p) + GateOnlyIssues(p) + BranchIssues(p, current) + ReportIssues(p) <==>
            HeaderIssue(p, current, issue)
  {
    hide LedgerFault, CommandIssues, FirstBad, Holds, TextIssues, RiskIssues, GateOnlyIssues, BranchIssues;
    hide ReportIssues, Says, SaysOneOf;
    TextExactly(p, "phase", issue);
    TextExactly(p, "branch", issue);
    TextExactly(p, "report", issue);
    RiskExactly(p, issue);
    CommandExactly(p, issue);
    GateOnlyExactly(p, issue);
    BranchExactly(p, current, issue);
    ReportFaultExactly(p, issue);
  }

  lemma AgentExactly(p: Fields, anyAgent: bool, issue: Issue)
    requires "agent" in p
    ensures issue in AgentIssues(p, anyAgent) <==> AgentIssue(p, anyAgent, issue)
  {
    if Says(p, "agent") { AgentIs(p["agent"].text); }
  }

  lemma {:induction false} PathsExactly(items: seq<Json>, field: string, issue: Issue)
    ensures issue in PathIssues(items, field) <==>
            issue.BadPath? && issue.field == field && issue.index < |items|
            && ContractFault(items[issue.index]) == Some(issue.fault)
  {
    hide ContractFault;
    if items != [] {
      var last := |items| - 1;
      PathsExactly(items[..last], field, issue);
    }
  }

  lemma FilesExactly(p: Fields, field: string, issue: Issue)
    requires field in p
    ensures issue in FileIssues(p, field) <==> PathIssue(p, field, issue)
  {
    hide ContractFault;
    if p[field].List? { PathsExactly(p[field].items, field, issue); }
  }

  lemma {:induction false} TextsExactly(items: seq<Json>, field: string, issue: Issue)
    ensures issue in BadTexts(items, field) <==>
            issue.BadText? && issue.field == field && issue.index < |items| && !IsText(items[issue.index])
  {
    if items != [] { TextsExactly(items[..|items| - 1], field, issue); }
  }

  lemma ListExactly(v: Json, field: string, mayBeEmpty: bool, issue: Issue)
    ensures issue in TextListIssues(v, field, mayBeEmpty) <==> ListIssue(v, field, mayBeEmpty, issue)
  {
    if v.List? {
      TextsExactly(v.items, field, issue);
      assert v == List([]) <==> v.items == [];
    }
  }

  lemma ScopeExactly(p: Fields, issue: Issue)
    requires AllThere(p) && !RunPacket.Raises(p)
    ensures issue in ScopeIssues(p) <==> ScopeIssue(p, issue)
  {
    hide NormalizePath, Among, Says;
    var (allowed, expected) := (p["allowed_files"], p["expected_files"]);
    if allowed.List? && expected.List? {
      NamesExactly(expected.items);
      NamesExactly(allowed.items);
      EmptyDifference(Names(expected.items), Names(allowed.items));
      ReportExactly(p);
      if issue.NotAllowed? { NotCoveredIs(p, issue.paths); }
    }
  }

  lemma NamesExactly(items: seq<Json>)
    requires RunPacket.AllTexts(items)
    ensures forall n :: n in Names(items) <==> InList(n, items)
  {
    hide NormalizePath;
  }

  lemma NotCoveredIs(p: Fields, paths: set<string>)
    requires AllThere(p) && !RunPacket.Raises(p) && p["allowed_files"].List? && p["expected_files"].List?
    ensures var rest := Names(p["expected_files"].items) - Names(p["allowed_files"].items);
            NotCovered(p, paths) <==> rest != {} && paths == rest
  {
    hide NormalizePath, Names;
    NamesExactly(p["expected_files"].items);
    NamesExactly(p["allowed_files"].items);
  }

  lemma ReportExactly(p: Fields)
    requires AllThere(p) && !RunPacket.Raises(p) && p["allowed_files"].List? && p["expected_files"].List?
    ensures ReportNotAmong(p["report"], Names(p["allowed_files"].items), "allowed_files") ==
            if Says(p, "report") && !Among(p["report"].text, p["allowed_files"])
            then [ReportNotIn("allowed_files")] else []
    ensures ReportNotAmong(p["report"], Names(p["expected_files"].items), "expected_files") ==
            if Says(p, "report") && !Among(p["report"].text, p["expected_files"])
            then [ReportNotIn("expected_files")] else []
  {
    hide NormalizePath, Among, Names;
    if Says(p, "report") {
      NameIsAmong(p["report"].text, p["allowed_files"]);
      NameIsAmong(p["report"].text, p["expected_files"]);
    }
  }

  lemma NotesExactly(p: Fields, issue: Issue)
    ensures issue in NotesIssues(p) <==> NotesIssue(p, issue)
  {
    if "notes" in p && p["notes"].List? { ListExactly(p["notes"], "notes", true, issue); }
  }

  lemma DevExactly(p: Fields, issue: Issue)
    requires "branch" in p
    ensures issue in DevIssues(p) <==> DevIssue(p, issue)
  {}

  /** For all packets: one with a missing field gets exactly the missing fields reported; one whose
      file lists hold something that is no text raises; and otherwise an issue is reported if and
      only if it is the case. */
  lemma PacketReportsExactly(p: Fields, current: Option<string>, anyAgent: bool, issue: Issue)
    ensures var report := PacketIssues(p, current, anyAgent);
            if !AllThere(p) then
              report.Some? && (issue in report.value <==>
                               && issue.Missing? && issue.field !in p
                               && issue.field in ["phase", "branch", "agent", "report", "risk", "allowed_files",
                                                  "expected_files", "command", "tests", "gate_only"])
            else if report.None? then
              && p["allowed_files"].List? && p["expected_files"].List?
              && exists v :: (v in p["allowed_files"].items || v in p["expected_files"].items) && !v.Text?
            else issue in report.value <==> IsTheCase(p, current, anyAgent, issue)
  {
    hide MissingFields, ContractFault, LedgerFault, HeaderIssue, AgentIssue, PathIssue, ScopeIssue, ListIssue;
    hide NotesIssue, DevIssue, TextIssues, RiskIssues, CommandIssues, GateOnlyIssues, BranchIssues, ReportIssues;
    hide FileIssues, ScopeIssues, TextListIssues, NotesIssues, DevIssues, AgentIssues;
    PacketFields(p);
    NoMissingFields(REQUIRED_PACKET_FIELDS, p);
    if AllThere(p) {
      if !RunPacket.Raises(p) {
        HeaderExactly(p, current, issue);
        AgentExactly(p, anyAgent, issue);
        FilesExactly(p, "allowed_files", issue);
        FilesExactly(p, "expected_files", issue);
        ScopeExactly(p, issue);
        ListExactly(p["tests"], "tests", false, issue);
        NotesExactly(p, issue);
        DevExactly(p, issue);
      }
    } else {
      MissingExactly(REQUIRED_PACKET_FIELDS, p, issue);
    }
  }

  // ------------------------------------------------------------------------- directives

  predicate HasHeader(d: Fields) {
    "phase" in d && "branch" in d && "report" in d && "risk" in d && "command" in d && "gate_only" in d
  }

  /** A field of the wrong kind. */
  predicate TypeIssue(d: Fields, issue: Issue)
    requires HasHeader(d)
  {
    match issue
    case NotAText(f) => f in {"phase", "branch", "report"} && !Says(d, f)
    case BadRisk => !SaysOneOf(d, "risk", {"LOW", "MEDIUM", "HIGH", "CRITICAL"})
    case NotAList(f) => f == "command" && !d[f].List?
    case BadText(f, i) => f == "command" && FirstBad(d[f], i)
    case EmptyCommand => d["command"] == List([]) && !Holds(d["gate_only"])
    case GateOnlyType => !d["gate_only"].Bool?
    case _ => false
  }

  /** The rest, which is looked at only when all kinds are right. */
  predicate ScopeOrDevIssue(d: Fields, current: Option<string>, issue: Issue)
    requires HasHeader(d)
  {
    || (issue.NoCurrentBranch? && current.None?)
    || (issue.OtherBranch? && current.Some? && Says(d, "branch") && d["branch"].text != current.value)
    || (issue.BadReport? && Says(d, "report") && LedgerFault(d["report"], {".md"}) == Some(issue.fault))
    || ("expected_files" in d && PathIssue(d, "expected_files", issue))
    || DevIssue(d, issue)
  }

  lemma DirectiveCommandExactly(d: Fields, issue: Issue)
    requires "command" in d && "gate_only" in d
    ensures issue in DirectiveGate.DirectiveCommandIssues(d) <==> issue in CommandIssues(d)
  {
    var command := d["command"];
    if command.List? && command.items == [] { assert FirstBadText(command.items) == 0; }
  }

  lemma TypesExactly(d: Fields, issue: Issue)
    requires HasHeader(d)
    ensures issue in DirectiveGate.TypeIssues(d) <==> TypeIssue(d, issue)
  {
    hide CommandIssues, DirectiveGate.DirectiveCommandIssues, FirstBad, Holds, TextIssues, RiskIssues, GateOnlyIssues;
    hide Says, SaysOneOf;
    TextExactly(d, "phase", issue);
    TextExactly(d, "branch", issue);
    TextExactly(d, "report", issue);
    RiskExactly(d, issue);
    DirectiveCommandExactly(d, issue);
    CommandExactly(d, issue);
    GateOnlyExactly(d, issue);
  }

  lemma RestExactly(d: Fields, current: Option<string>, issue: Issue)
    requires HasHeader(d)
    ensures issue in BranchIssues(d, current) + ReportIssues(d) + FileIssues(d, "expected_files") + DevIssues(d) <==>
            ScopeOrDevIssue(d, current, issue)
  {
    hide LedgerFault, PathIssue, DevIssue, DevIssues, PathIssues, BranchIssues, ReportIssues;
    DevExactly(d, issue);
    BranchExactly(d, current, issue);
    ReportFaultExactly(d, issue);
    if "expected_files" in d { FilesExactly(d, "expected_files", issue); } else { NoFiles(issue); }
  }

  lemma NoFiles(issue: Issue)
    ensures issue !in PathIssues([], "expected_files")
  {}

  /** For all directives: a missing field is reported alone, a field of the wrong kind before
      anything else, and otherwise an issue is reported if and only if it is the case. */
  lemma DirectiveReportsExactly(d: Fields, current: Option<string>, issue: Issue)
    ensures issue in DirectiveGate.DirectiveIssues(d, current) <==>
            if !HasHeader(d) then
              issue.Missing? && issue.field !in d
              && issue.field in ["phase", "branch", "report", "risk", "command", "gate_only"]
            else if exists other :: TypeIssue(d, other) then TypeIssue(d, issue)
            else ScopeOrDevIssue(d, current, issue)
  {
    hide MissingFields, TypeIssue, ScopeOrDevIssue, DirectiveGate.TypeIssues;
    hide BranchIssues, ReportIssues, FileIssues, DevIssues;
    DirectiveFields(d);
    NoMissingFields(DirectiveGate.REQUIRED_FIELDS, d);
    if HasHeader(d) {
      forall other ensures other in DirectiveGate.TypeIssues(d) <==> TypeIssue(d, other) { TypesExactly(d, other); }
      if DirectiveGate.TypeIssues(d) != [] { assert DirectiveGate.TypeIssues(d)[0] in DirectiveGate.TypeIssues(d); }
      RestExactly(d, current, issue);
    } else {
      MissingExactly(DirectiveGate.REQUIRED_FIELDS, d, issue);
    }
  }

  // --------------------------------------------------------------------------- missions

  /** Why the mission gate refuses a path: the first of these that applies. */
  lemma SafeFaultExactly(v: Json, fault: Fault)
    ensures SafeRelativeFault(v) == Some(fault) <==>
            var n := if v.Text? then NormalizePath(v.text) else "";
            var rooted := "/" <= n || ':' in Split(n, '/')[0];
            match fault
            case NotText => !Printed(v)
            case Absolute => Printed(v) && rooted
            case Traversal => Printed(v) && !rooted && ".." in Split(n, '/')
            case UnsafePart => Printed(v) && !rooted && ".." !in Split(n, '/') && !NamesOnly(n)
            case Forbidden => Printed(v) && !rooted && NamesOnly(n) && OffLimits(v.text)
            case _ => false
  {
    hide Split, NamesOnly, HasUnsafePart, IsForbidden, OffLimits;
    if v.Text? {
      SafeParts(v.text);
      ForbiddenExactlyWhen(v.text);
      if "/" <= v.text { assert NormalizePath(v.text)[0] == '/'; }
      NamesAreNotUp(v.text);
    }
  }

  lemma NamesAreNotUp(s: string)
    ensures NamesOnly(NormalizePath(s)) ==> ".." !in Split(NormalizePath(s), '/')
  {
    hide Split;
    var parts := Split(NormalizePath(s), '/');
    if ".." in parts {
      var i :| 0 <= i < |parts| && parts[i] == "..";
    }
  }

  /** The failure is the case. */
  predicate FailureHolds(m: Fields, failure: MissionGate.Failure) {
    match failure
    case PhaseType => "phase" in m && !Printed(m["phase"])
    case PhaseName => "phase" in m && Printed(m["phase"]) && !PhaseName(m["phase"].text)
    case BadAgent => !SaysOneOf(m, "agent", {"opencode", "claude", "goose"})
    case BadPath(key, fault) =>
      && key in m
      && (|| (key == "mission" && MissionGate.MissionFault(m[key]) == Some(fault))
          || ((key == "result" || key == "events") && MissionGate.OutputFault(m[key], key) == Some(fault)))
    case BadExpected(i, fault) =>
      && "expected_files" in m && m["expected_files"].List? && i < |m["expected_files"].items|
      && SafeRelativeFault(m["expected_files"].items[i]) == Some(fault)
    case NothingExpected =>
      "expected_files" in m && (!m["expected_files"].List? || m["expected_files"] == List([]))
    case TimeoutType => "timeout_seconds" in m && !m["timeout_seconds"].Number?
    case TimeoutRange =>
      && "timeout_seconds" in m && m["timeout_seconds"].Number?
      && (m["timeout_seconds"].n < 1 || m["timeout_seconds"].n > 43200)
    case AllowEditsType => "allow_edits" in m && !m["allow_edits"].Bool?
    case NotesType => "notes" in m && !m["notes"].Text?
    case _ => false
  }

  lemma {:induction false} MissingKeysExactly(required: seq<string>, m: Fields, failure: MissionGate.Failure)
    ensures failure in MissionGate.MissingKeys(required, m) <==>
            failure.Missing? && failure.key in required && failure.key !in m
  {
    if required != [] {
      var last := |required| - 1;
      MissingKeysExactly(required[..last], m, failure);
      assert required == required[..last] + [required[last]];
    }
  }

  lemma {:induction false} ExpectedExactly(items: seq<Json>, failure: MissionGate.Failure)
    ensures failure in MissionGate.ExpectedFailures(items) <==>
            failure.BadExpected? && failure.index < |items|
            && SafeRelativeFault(items[failure.index]) == Some(failure.fault)
  {
    hide SafeRelativeFault;
    if items != [] { ExpectedExactly(items[..|items| - 1], failure); }
  }

  predicate HasKeys(m: Fields) {
    && "phase" in m && "agent" in m && "mission" in m && "expected_files" in m && "result" in m && "events" in m
    && "timeout_seconds" in m
  }

  lemma RequiredKeys(m: Fields)
    ensures MissionGate.HasKeys(m, MissionGate.REQUIRED_KEYS) <==> HasKeys(m)
  {
    var r := MissionGate.REQUIRED_KEYS;
    assert r == ["phase", "agent", "mission", "expected_files", "result", "events", "timeout_seconds"];
    if MissionGate.HasKeys(m, r) {
      assert r[0] == "phase" && r[1] == "agent" && r[2] == "mission" && r[3] == "expected_files";
      assert r[4] == "result" && r[5] == "events" && r[6] == "timeout_seconds";
    }
  }

  lemma PhaseExactly(v: Json, failure: MissionGate.Failure)
    ensures failure in MissionGate.PhaseFailures(v) <==>
            || (failure.PhaseType? && !Printed(v))
            || (failure.PhaseName? && Printed(v) && !PhaseName(v.text))
  {
    hide MissionGate.HasPhase, PhaseName;
    if v.Text? { PhaseIs(v.text); }
  }

  lemma HeadExactly(m: Fields, failure: MissionGate.Failure)
    requires HasKeys(m)
    ensures failure in MissionGate.HeadFailures(m) <==>
            && (failure.PhaseType? || failure.PhaseName? || failure.BadAgent?
                || (failure.BadPath? && failure.key == "mission"))
            && FailureHolds(m, failure)
  {
    hide MissionGate.PhaseFailures, MissionGate.KnownAgent, MissionGate.MissionFault, MissionGate.OutputFault;
    hide SafeRelativeFault, Printed, PhaseName;
    PhaseExactly(m["phase"], failure);
    MissionAgentIs(m["agent"]);
  }

  lemma OutputExactly(fault: Option<Fault>, key: string, failure: MissionGate.Failure)
    ensures failure in MissionGate.PathFailures(fault, key) <==>
            failure.BadPath? && failure.key == key && fault == Some(failure.fault)
  {}

  lemma TimeoutExactly(v: Json, failure: MissionGate.Failure)
    ensures failure in MissionGate.TimeoutFailures(v) <==>
            || (failure.TimeoutType? && !v.Number?)
            || (failure.TimeoutRange? && v.Number? && (v.n < 1 || v.n > 43200))
  {}

  lemma OptionalExactly(m: Fields, failure: MissionGate.Failure)
    ensures failure in MissionGate.OptionalFailures(m) <==>
            || (failure.AllowEditsType? && "allow_edits" in m && !m["allow_edits"].Bool?)
            || (failure.NotesType? && "notes" in m && !m["notes"].Text?)
  {}

  lemma TailExactly(m: Fields, failure: MissionGate.Failure)
    requires HasKeys(m)
    ensures failure in MissionGate.TailFailures(m) <==>
            && !failure.PhaseType? && !failure.PhaseName? && !failure.BadAgent? && !failure.BadExpected?
            && !failure.NothingExpected? && !(failure.BadPath? && failure.key == "mission")
            && FailureHolds(m, failure)
  {
    hide MissionGate.MissionFault, MissionGate.OutputFault, SafeRelativeFault, Printed, PhaseName;
    hide MissionGate.PathFailures, MissionGate.TimeoutFailures, MissionGate.OptionalFailures;
    OutputExactly(MissionGate.OutputFault(m["result"], "result"), "result", failure);
    OutputExactly(MissionGate.OutputFault(m["events"], "events"), "events", failure);
    TimeoutExactly(m["timeout_seconds"], failure);
    OptionalExactly(m, failure);
  }

  lemma FilesOfMission(m: Fields, failure: MissionGate.Failure)
    requires HasKeys(m)
    ensures failure in MissionGate.ExpectedListFailures(m["expected_files"]) <==>
            (failure.BadExpected? || failure.NothingExpected?) && FailureHolds(m, failure)
  {
    hide MissionGate.MissionFault, MissionGate.OutputFault, SafeRelativeFault, Printed, PhaseName;
    var v := m["expected_files"];
    if v.List? {
      assert v == List([]) <==> v.items == [];
      ExpectedExactly(v.items, failure);
    }
  }

  /** For all missions: a missing key is reported alone; otherwise a failure is reported if and
      only if it is the case. */
  lemma MissionReportsExactly(m: Fields, failure: MissionGate.Failure)
    ensures failure in MissionGate.MissionFailures(Object(m)) <==>
            if !HasKeys(m) then
              failure.Missing? && failure.key !in m
              && failure.key in ["phase", "agent", "mission", "expected_files", "result", "events", "timeout_seconds"]
            else FailureHolds(m, failure)
  {
    hide MissionGate.MissingKeys, MissionGate.HeadFailures, MissionGate.TailFailures, FailureHolds;
    hide MissionGate.ExpectedListFailures, MissionGate.HasKeys;
    RequiredKeys(m);
    MissionGate.NoMissingKeys(MissionGate.REQUIRED_KEYS, m);
    if HasKeys(m) {
      HeadExactly(m, failure);
      FilesOfMission(m, failure);
      TailExactly(m, failure);
    } else {
      MissingKeysExactly(MissionGate.REQUIRED_KEYS, m, failure);
    }
  }
}
