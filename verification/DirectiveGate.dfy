/** The directive gate, and what a run packet's acceptance promises about it. */
module DirectiveGate {
  import opened Common
  import opened PathText
  import opened ContractPaths
  import opened RunPacket
  import GitOutput
  import StatusListing

  const REQUIRED_FIELDS: seq<string> := ["phase", "branch", "report", "risk", "command", "gate_only"]

  // ---------------------------------------------------------------- validate_directive

  function DirectiveCommandIssues(d: Packet): seq<Issue> {
    var command := Get(d, "command", Null);
    if !command.List? then [NotAList("command")]
    else
      var bad := FirstBadText(command.items);
      if bad < |command.items| then [BadText("command", bad)]
      else if command.items == [] && !Holds(Get(d, "gate_only", Bool(false))) then [EmptyCommand]
      else []
  }

  /** The checks that end the validation when one fails. */
  function TypeIssues(d: Packet): seq<Issue> {
    TextIssues(d, "phase") + TextIssues(d, "branch") + TextIssues(d, "report")
    + RiskIssues(d) + DirectiveCommandIssues(d) + GateOnlyIssues(d)
  }

  /** `validate_directive`: the issues in order. */
  function DirectiveIssues(d: Packet, current: Option<string>): seq<Issue> {
    var missing := MissingFields(REQUIRED_FIELDS, d);
    if missing != [] then missing
    else if TypeIssues(d) != [] then TypeIssues(d)
    else BranchIssues(d, current) + ReportIssues(d) + FileIssues(d, "expected_files") + DevIssues(d)
  }

  /** A directive that may be run: a second, positive reading of the contract. */
  predicate GoodDirective(d: Packet, current: Option<string>) {
    && HasFields(d, REQUIRED_FIELDS)
    && GoodHeader(d, current)
    && PathList(Get(d, "expected_files", List([])))
    && DevFlagFits(d)
  }

  lemma HeaderFields(d: Packet)
    requires HasFields(d, REQUIRED_FIELDS)
    ensures "phase" in d && "branch" in d && "report" in d && "risk" in d && "command" in d && "gate_only" in d
  {
    var r := REQUIRED_FIELDS;
    assert r[0] == "phase" && r[1] == "branch" && r[2] == "report" && r[3] == "risk" && r[4] == "command";
    assert r[5] == "gate_only";
  }

  lemma NoTypeIssues(d: Packet)
    requires HasFields(d, REQUIRED_FIELDS)
    ensures TypeIssues(d) == [] <==>
            && NonEmptyText(Field(d, "phase")) && NonEmptyText(Field(d, "branch")) && NonEmptyText(Field(d, "report"))
            && GoodRisk(Field(d, "risk")) && RunnableCommand(d)
  {
    HeaderFields(d);
    if d["command"].List? {
      assert FirstBadText(d["command"].items) == |d["command"].items| <==> TextList(d["command"]);
    }
  }

  lemma NoFileIssues(d: Packet)
    ensures FileIssues(d, "expected_files") == [] <==> PathList(Get(d, "expected_files", List([])))
  {
    var files := Get(d, "expected_files", List([]));
    if files.List? {
      NoPathIssues(files.items, "expected_files");
      assert List(files.items) == files;
    }
  }

  /** The checks of the second half, once the types are right. */
  lemma NoScopeIssues(d: Packet, current: Option<string>)
    requires NonEmptyText(Field(d, "branch")) && NonEmptyText(Field(d, "report"))
    ensures BranchIssues(d, current) + ReportIssues(d) + FileIssues(d, "expected_files") + DevIssues(d) == [] <==>
            && current == Some(Field(d, "branch").text)
            && LedgerFault(Field(d, "report"), {".md"}).None?
            && PathList(Get(d, "expected_files", List([])))
            && DevFlagFits(d)
  {
    NoFileIssues(d);
    NoBranchIssues(d, current);
    NoReportIssues(d);
    NoDevIssues(d);
  }

  lemma NoBranchIssues(d: Packet, current: Option<string>)
    requires NonEmptyText(Field(d, "branch"))
    ensures BranchIssues(d, current) == [] <==> current == Some(Field(d, "branch").text)
  {}

  lemma NoReportIssues(d: Packet)
    requires NonEmptyText(Field(d, "report"))
    ensures ReportIssues(d) == [] <==> LedgerFault(Field(d, "report"), {".md"}).None?
  {}

  lemma NoDevIssues(d: Packet)
    ensures DevIssues(d) == [] <==> DevFlagFits(d)
  {}

  /** `validate_directive` reports nothing exactly for the directives that may be run. */
  lemma AcceptedDirectives(d: Packet, current: Option<string>)
    ensures DirectiveIssues(d, current) == [] <==> GoodDirective(d, current)
  {
    NoMissingFields(REQUIRED_FIELDS, d);
    if HasFields(d, REQUIRED_FIELDS) {
      NoTypeIssues(d);
      if NonEmptyText(Field(d, "branch")) && NonEmptyText(Field(d, "report")) { NoScopeIssues(d, current); }
    }
  }

  /** `validate_directive`. */
  method ValidateDirective(d: Packet, current: Option<string>) returns (issues: seq<Issue>)
    ensures issues == DirectiveIssues(d, current)
    ensures issues == [] <==> GoodDirective(d, current)
  {
    AcceptedDirectives(d, current);
    issues := FindMissing(REQUIRED_FIELDS, d);
    if issues != [] { return; }
    issues := TextIssues(d, "phase");
    issues := issues + TextIssues(d, "branch");
    issues := issues + TextIssues(d, "report");
    issues := issues + RiskIssues(d);
    issues := issues + DirectiveCommandIssues(d);
    issues := issues + GateOnlyIssues(d);
    if issues != [] { return; }
    issues := BranchIssues(d, current);
    issues := issues + ReportIssues(d);
    var files := Get(d, "expected_files", List([]));
    var more := [NotAList("expected_files")];
    if files.List? { more := CheckPaths(files.items, "expected_files"); }
    issues := issues + more;
    issues := issues + DevIssues(d);
  }

  // ------------------------------------------------------------- packet to directive

  function DirectiveOf(p: Packet): Packet {
    Directive(NormalizePacket(p), DIRECTIVE_FIELDS)
  }

  lemma NormalizedField(p: Packet, key: string)
    ensures key in NormalizePacket(p) <==> key in p
    ensures key != "report" && key != "allowed_files" && key != "expected_files" ==>
              Field(NormalizePacket(p), key) == Field(p, key)
    ensures Field(NormalizePacket(p), "report") ==
            if Field(p, "report").Text? then Text(NormalizePath(Field(p, "report").text)) else Field(p, "report")
    ensures Field(NormalizePacket(p), "expected_files") ==
            if Field(p, "expected_files").List? then List(NormalizeItems(Field(p, "expected_files").items))
            else Field(p, "expected_files")
  {}

  lemma DirectiveKeys()
    ensures "phase" in DIRECTIVE_FIELDS && "branch" in DIRECTIVE_FIELDS && "report" in DIRECTIVE_FIELDS
    ensures "risk" in DIRECTIVE_FIELDS && "command" in DIRECTIVE_FIELDS && "gate_only" in DIRECTIVE_FIELDS
    ensures "expected_files" in DIRECTIVE_FIELDS && "allow_platform_dev" in DIRECTIVE_FIELDS
  {
    var f := DIRECTIVE_FIELDS;
    assert f[0] == "phase" && f[1] == "branch" && f[2] == "report" && f[3] == "risk" && f[4] == "command";
    assert f[5] == "gate_only" && f[6] == "expected_files" && f[7] == "allow_platform_dev";
  }

  /** One field of the directive made from a packet. */
  lemma DirectiveField(p: Packet, key: string)
    requires key in DIRECTIVE_FIELDS && key != "allow_platform_dev"
    ensures key in DirectiveOf(p) <==> key in p
    ensures key in p ==> DirectiveOf(p)[key] == Field(NormalizePacket(p), key)
  {
    NormalizedField(p, key);
    DirectiveGet(NormalizePacket(p), DIRECTIVE_FIELDS, key);
  }

  lemma SameField(p: Packet, key: string)
    requires key in p && key in DIRECTIVE_FIELDS
    requires key != "allow_platform_dev" && key != "report" && key != "allowed_files" && key != "expected_files"
    ensures key in DirectiveOf(p) && Field(DirectiveOf(p), key) == Field(p, key)
  {
    DirectiveField(p, key);
    NormalizedField(p, key);
  }

  lemma ReportIsKept(p: Packet)
    requires "report" in p && LedgerFault(Field(p, "report"), {".md"}).None?
    ensures "report" in DirectiveOf(p) && LedgerFault(Field(DirectiveOf(p), "report"), {".md"}).None?
  {
    DirectiveKeys();
    DirectiveField(p, "report");
    NormalizedField(p, "report");
    NormalizedLedgerIsAccepted(p["report"].text, {".md"});
    assert Text(p["report"].text) == p["report"];
  }

  lemma HeaderIsKept(p: Packet, current: Option<string>)
    requires HasFields(p, REQUIRED_PACKET_FIELDS) && GoodHeader(p, current)
    ensures HasFields(DirectiveOf(p), REQUIRED_FIELDS) && GoodHeader(DirectiveOf(p), current)
  {
    FieldsPresent(p);
    DirectiveKeys();
    SameField(p, "phase"); SameField(p, "branch"); SameField(p, "risk");
    SameField(p, "command"); SameField(p, "gate_only");
    ReportIsKept(p);
  }

  lemma NormalizedListIsAccepted(v: Json)
    requires PathList(v)
    ensures PathList(List(NormalizeItems(v.items)))
    ensures AllTexts(v.items) && AllTexts(NormalizeItems(v.items))
    ensures Names(NormalizeItems(v.items)) == Names(v.items)
  {
    AcceptedAreTexts(v);
    var r := NormalizeItems(v.items);
    forall i | 0 <= i < |r|
      ensures ContractFault(r[i]).None? && r[i].Text? && NormalizePath(r[i].text) == NormalizePath(v.items[i].text)
    {
      assert ContractFault(v.items[i]).None?;
      assert v.items[i] == Text(v.items[i].text);
      NormalizedIsAccepted(v.items[i].text);
      NormalizeIdempotent(v.items[i].text);
    }
  }

  lemma ScopeIsKept(p: Packet)
    requires HasFields(p, REQUIRED_PACKET_FIELDS) && GoodScope(p)
    ensures var files := Get(DirectiveOf(p), "expected_files", List([]));
            PathList(files) && AllTexts(files.items) && Names(files.items) == Names(Field(p, "expected_files").items)
  {
    FieldsPresent(p);
    DirectiveKeys();
    DirectiveField(p, "expected_files");
    NormalizedField(p, "expected_files");
    NormalizedListIsAccepted(Field(p, "expected_files"));
  }

  lemma DevFlagIsKept(p: Packet)
    requires "branch" in p && DevFlagFits(p)
    ensures DevFlagFits(DirectiveOf(p))
  {
    DirectiveKeys();
    DirectiveField(p, "branch");
    NormalizedField(p, "branch");
    NormalizedField(p, "allow_platform_dev");
    DirectiveGet(NormalizePacket(p), DIRECTIVE_FIELDS, "allow_platform_dev");
  }

  /** Every accepted run packet gives a directive that the directive gate accepts on the
      same branch. */
  lemma AcceptedPacketGivesAcceptedDirective(p: Packet, current: Option<string>, allowUnknown: bool)
    requires PacketIssues(p, current, allowUnknown) == Some([])
    ensures DirectiveIssues(DirectiveOf(p), current) == []
  {
    AcceptedPackets(p, current, allowUnknown);
    FieldsPresent(p);
    HeaderIsKept(p, current);
    ScopeIsKept(p);
    DevFlagIsKept(p);
    AcceptedDirectives(DirectiveOf(p), current);
  }

  // --------------------------------------------------------------------- exit status

  /** The expected files of an accepted directive. */
  function ExpectedFiles(d: Packet): set<string>
    requires PathList(Get(d, "expected_files", List([])))
  {
    AcceptedAreTexts(Get(d, "expected_files", List([])));
    Names(Get(d, "expected_files", List([])).items)
  }

  datatype AllowlistIssue = Unexpected(paths: set<string>) | ChangedWithoutList(paths: set<string>)

  /** `validate_changed_files_allowlist`: one rule, whether or not anything is expected. */
  function AllowlistIssues(changed: set<string>, expected: set<string>): (r: seq<AllowlistIssue>)
    ensures r == [] <==> changed <= expected
    ensures r != [] ==>
              |r| == 1 && r[0].paths == changed - expected && (r[0].ChangedWithoutList? <==> expected == {})
  {
    EmptyDifference(changed, expected);
    assert changed - {} == changed;
    if expected != {} then if changed - expected != {} then [Unexpected(changed - expected)] else []
    else if changed != {} then [ChangedWithoutList(changed)]
    else []
  }

  /** What `main` exits with: `runner` is the runner's exit status and `listing` git's lines
      afterwards, if git answered. */
  function GateExit(d: Packet, current: Option<string>, dryRun: bool, runner: int, listing: Option<seq<string>>): int {
    if DirectiveIssues(d, current) != [] then 1
    else
      AcceptedDirectives(d, current);
      if dryRun then 0
      else if listing.None? then 1
      else if AllowlistIssues(StatusListing.ChangedPaths(listing.value), ExpectedFiles(d)) != [] then 1
      else runner
  }

  method Gate(d: Packet, current: Option<string>, dryRun: bool, runner: int, listing: Option<seq<string>>)
    returns (exit: int)
    ensures exit == GateExit(d, current, dryRun, runner, listing)
    ensures exit == 0 <==>
            && GoodDirective(d, current)
            && (dryRun || (runner == 0 && listing.Some?
                           && StatusListing.ChangedPaths(listing.value) <= ExpectedFiles(d)))
  {
    var issues := ValidateDirective(d, current);
    if issues != [] { return 1; }
    AcceptedDirectives(d, current);
    var expected := ExpectedFiles(d);
    if dryRun { return 0; }
    if listing.None? { return 1; }
    var changed := StatusListing.GetChangedFiles(listing.value);
    if AllowlistIssues(changed, expected) != [] { return 1; }
    return runner;
  }

  /** From an accepted packet to a finished run: the directive gate exits 0 exactly for a dry
      run, or when the runner did and every path the gate read off git's lines is one of the
      packet's expected files. */
  lemma RunOfAnAcceptedPacket(p: Packet, current: Option<string>, allowUnknown: bool,
                              dryRun: bool, runner: int, listing: Option<seq<string>>)
    requires PacketIssues(p, current, allowUnknown) == Some([])
    ensures PathList(Field(p, "expected_files"))
    ensures GateExit(DirectiveOf(p), current, dryRun, runner, listing) == 0 <==>
            dryRun || (runner == 0 && listing.Some?
                       && StatusListing.ChangedPaths(listing.value) <= Names(Field(p, "expected_files").items))
  {
    AcceptedPackets(p, current, allowUnknown);
    AcceptedPacketGivesAcceptedDirective(p, current, allowUnknown);
    AcceptedDirectives(DirectiveOf(p), current);
    ScopeIsKept(p);
  }

  /** What a passed run touched, for all names: it stayed in its scope if and only if the
      path of every misread line and the old path of every renamed file are expected. */
  lemma TouchedByAnAcceptedRun(p: Packet, current: Option<string>, allowUnknown: bool,
                               runner: int, es: seq<StatusListing.Entry>)
    requires PacketIssues(p, current, allowUnknown) == Some([])
    requires StatusListing.Listing(es)
    requires GateExit(DirectiveOf(p), current, false, runner, Some(StatusListing.Lines(es))) == 0
    ensures PathList(Field(p, "expected_files"))
    ensures var expected := Names(Field(p, "expected_files").items);
            StatusListing.Touched(es) <= expected <==> StatusListing.GapsAllowed(expected, es, false)
  {
    RunOfAnAcceptedPacket(p, current, allowUnknown, false, runner, Some(StatusListing.Lines(es)));
    StatusListing.DirectiveGateReads(es);
    StatusListing.AuditCoversExactlyWhen(Names(Field(p, "expected_files").items), es, false);
  }

  /** The gate keeps a packet to its expected files as far as the change `e` goes, whatever
      else git lists. */
  ghost predicate KeepsToExpected(p: Packet, current: Option<string>, e: StatusListing.Entry)
    requires PathList(Field(p, "expected_files"))
  {
    forall es :: StatusListing.Listing(es) && e in es
                 && GateExit(DirectiveOf(p), current, false, 0, Some(StatusListing.Lines(es))) == 0 ==>
                   e.path in ExpectedOf(p)
  }

  function ExpectedOf(p: Packet): set<string>
    requires PathList(Field(p, "expected_files"))
  {
    AcceptedAreTexts(Field(p, "expected_files"));
    Names(Field(p, "expected_files").items)
  }

  /** It does so if and only if the line is read right, or the path is expected, or what is
      read instead is something else that is not. */
  lemma KeepsToExpectedExactlyWhen(p: Packet, current: Option<string>, allowUnknown: bool, e: StatusListing.Entry)
    requires PacketIssues(p, current, allowUnknown) == Some([])
    requires StatusListing.EntryOk(e)
    ensures PathList(Field(p, "expected_files"))
    ensures KeepsToExpected(p, current, e) <==>
            StatusListing.ReadsRight(e, false) || e.path in ExpectedOf(p)
            || StatusListing.LineRead(e, false) !in ExpectedOf(p) + {""}
  {
    AcceptedPackets(p, current, allowUnknown);
    StatusListing.DirectiveTrustsExactlyWhen(ExpectedOf(p), e);
    forall es | StatusListing.Listing(es)
      ensures GateExit(DirectiveOf(p), current, false, 0, Some(StatusListing.Lines(es))) == 0 <==>
              StatusListing.ChangedPaths(StatusListing.Lines(es)) <= ExpectedOf(p)
    {
      RunOfAnAcceptedPacket(p, current, allowUnknown, false, 0, Some(StatusListing.Lines(es)));
    }
  }

  /** Renaming any file to an expected path passes, whether or not its old path is expected. */
  lemma RenamedFileSlipsThrough(p: Packet, current: Option<string>, allowUnknown: bool, e: StatusListing.Entry)
    requires PacketIssues(p, current, allowUnknown) == Some([])
    requires PathList(Field(p, "expected_files")) && e.path in ExpectedOf(p)
    requires StatusListing.EntryOk(e) && e.from.Some? && StatusListing.ReadsRight(e, false)
    ensures StatusListing.Listing([e]) && e.from.value in StatusListing.Touched([e])
    ensures GateExit(DirectiveOf(p), current, false, 0, Some(StatusListing.Lines([e]))) == 0
  {
    RunOfAnAcceptedPacket(p, current, allowUnknown, false, 0, Some(StatusListing.Lines([e])));
    StatusListing.OneLine(e);
    StatusListing.LineReadsExactlyWhen(e, false);
    assert [e][0].from.value in StatusListing.OldNames([e]);
  }

  /** Every accepted packet has a blind spot, unless git escapes its report's name: a change
      of one file that is not expected after which the gate still exits 0. */
  lemma EveryPacketHasABlindSpot(p: Packet, current: Option<string>, allowUnknown: bool)
    requires PacketIssues(p, current, allowUnknown) == Some([])
    requires GoodScope(p) && !GitOutput.HasSpecial(NormalizePath(Field(p, "report").text))
    ensures exists e :: StatusListing.BlindSpot(ExpectedOf(p), e)
                        && GateExit(DirectiveOf(p), current, false, 0, Some(StatusListing.Lines([e]))) == 0
  {
    AcceptedPackets(p, current, allowUnknown);
    var report := NormalizePath(Field(p, "report").text);
    assert LEDGER_PREFIX <= report && report[0] == LEDGER_PREFIX[0] == 'a';
    StatusListing.EveryAllowlistHasABlindSpot(ExpectedOf(p), report);
    var e :| StatusListing.BlindSpot(ExpectedOf(p), e);
    RunOfAnAcceptedPacket(p, current, allowUnknown, false, 0, Some(StatusListing.Lines([e])));
  }

  /** The expected files of an accepted packet are allowed ones, the report is among them,
      and an allowed file is a relative path inside the repository that no rule forbids. */
  lemma ScopeOfAnAcceptedPacket(p: Packet, current: Option<string>, allowUnknown: bool)
    requires PacketIssues(p, current, allowUnknown) == Some([])
    ensures GoodScope(p)
    ensures forall c :: c in Names(Field(p, "allowed_files").items) ==>
              ContractFault(Text(c)).None? && Resolve(Parts(c), []) == Some(Parts(c))
  {
    AcceptedPackets(p, current, allowUnknown);
    var allowed := Field(p, "allowed_files");
    forall c | c in Names(allowed.items)
      ensures ContractFault(Text(c)).None? && Resolve(Parts(c), []) == Some(Parts(c))
    {
      var i :| 0 <= i < |allowed.items| && NormalizePath(allowed.items[i].text) == c;
      AcceptedName(allowed, i);
      ContractPathsStayInside(c);
    }
  }

  lemma AcceptedName(v: Json, i: nat)
    requires PathList(v) && i < |v.items|
    ensures v.items[i].Text? && ContractFault(Text(NormalizePath(v.items[i].text))).None?
  {
    assert ContractFault(v.items[i]).None?;
    assert v.items[i] == Text(v.items[i].text);
    NormalizedIsAccepted(v.items[i].text);
  }
}
