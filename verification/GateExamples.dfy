/** Contracts that the gates accept: a small run packet and a small mission. */
module GateExamples {
  import opened Common
  import opened PathText
  import opened ContractPaths
  import RunPacket
  import MissionGate

  /** Lower-case text in which no two neighbours start a forbidden fragment. */
  predicate PlainPart(s: string) {
    forall i :: 0 <= i < |s| ==>
                  && !('A' <= s[i] <= 'Z') && s[i] != '\\' && s[i] != '/' && s[i] != ':'
                  && !StartsFragment(s, i)
  }

  predicate StartsFragment(s: string, i: nat)
    requires i < |s|
  {
    && i + 1 < |s|
    && ((s[i] == 'a' && s[i + 1] == 'u') || (s[i] == 'r' && s[i + 1] == 'b') || (s[i] == 't' && s[i + 1] == 'e')
        || (s[i] == 's' && s[i + 1] == 'e') || (s[i] == 'm' && s[i + 1] == 'i') || (s[i] == 'p' && s[i + 1] == 'a'))
  }

  lemma {:induction false} LowerStays(s: string)
    requires forall i :: 0 <= i < |s| ==> !('A' <= s[i] <= 'Z')
    ensures Lower(s) == s
  {
    if s != "" {
      LowerStays(s[1..]);
      assert [s[0]] + s[1..] == s;
    }
  }

  lemma FragmentsStart(k: nat)
    requires k < |FORBIDDEN_FRAGMENTS|
    ensures var f := FORBIDDEN_FRAGMENTS[k]; |f| >= 2 && StartsFragment(f, 0)
  {}

  lemma PlainPartIsFree(s: string)
    requires PlainPart(s)
    ensures !HasForbiddenFragment(s)
  {
    LowerStays(s);
    forall k | 0 <= k < |FORBIDDEN_FRAGMENTS| ensures !Contains(Lower(s), FORBIDDEN_FRAGMENTS[k]) {
      var f := FORBIDDEN_FRAGMENTS[k];
      FragmentsStart(k);
      forall i | 0 <= i <= |s| ensures !OccursAt(s, f, i) {
        if i + |f| <= |s| {
          assert s[i..i + |f|][0] == s[i] && s[i..i + |f|][1] == s[i + 1];
          assert !StartsFragment(s, i);
        }
      }
    }
  }

  lemma {:induction false} OnePart(s: string)
    requires '/' !in s
    ensures Split(s, '/') == [s]
  {
    if s != "" {
      OnePart(s[1..]);
      assert [s[0]] + s[1..] == s;
    }
  }

  lemma SlashesStay(s: string)
    requires '\\' !in s
    ensures NormalizePath(s) == s
  {
    assert forall i :: 0 <= i < |s| ==> NormalizePath(s)[i] == s[i];
  }

  /** A plain file name in the ledger directory. */
  function InLedger(name: string): string {
    LEDGER_PREFIX + name
  }

  predicate PlainName(name: string) {
    PlainPart(name) && name != "" && name != "." && name != ".."
  }

  lemma LedgerNameParts(name: string)
    requires PlainName(name)
    ensures NormalizePath(InLedger(name)) == InLedger(name)
    ensures Parts(InLedger(name)) == ["ai-ledger", "platform", name]
  {
    var s := InLedger(name);
    assert '\\' !in s by {
      forall i | 0 <= i < |s| ensures s[i] != '\\' {
        if i >= |LEDGER_PREFIX| { assert s[i] == name[i - |LEDGER_PREFIX|]; }
      }
    }
    SlashesStay(s);
    LedgerParts(s);
    assert s[|LEDGER_PREFIX|..] == name;
    OnePart(name);
  }

  lemma LedgerIsPlain()
    ensures PlainPart("ai-ledger")
  {}

  lemma PlatformIsPlain()
    ensures PlainPart("platform")
  {}

  lemma NoForbiddenStart(s: string)
    requires |s| > 1 && s[0] == 'a' && s[1] == 'i'
    ensures forall k :: 0 <= k < |FORBIDDEN_PREFIXES| ==> !(FORBIDDEN_PREFIXES[k] <= s)
    ensures s != FORBIDDEN_SPECIFIC
  {
    forall k | 0 <= k < |FORBIDDEN_PREFIXES| ensures !(FORBIDDEN_PREFIXES[k] <= s) {
      assert FORBIDDEN_PREFIXES[k][0] != 'a';
    }
    assert FORBIDDEN_SPECIFIC[0] == 'd';
  }

  lemma AllowedName(n: string, parts: seq<string>)
    requires Split(n, '/') == parts && forall k :: 0 <= k < |parts| ==> !HasForbiddenFragment(parts[k])
    requires forall k :: 0 <= k < |FORBIDDEN_PREFIXES| ==> !(FORBIDDEN_PREFIXES[k] <= n)
    requires n != FORBIDDEN_SPECIFIC
    ensures !IsForbiddenName(n)
  {}

  lemma ThreeFree(a: string, b: string, c: string)
    requires !HasForbiddenFragment(a) && !HasForbiddenFragment(b) && !HasForbiddenFragment(c)
    ensures forall k :: 0 <= k < |[a, b, c]| ==> !HasForbiddenFragment([a, b, c][k])
  {
    forall k | 0 <= k < |[a, b, c]| ensures !HasForbiddenFragment([a, b, c][k]) {
      assert k == 0 || k == 1 || k == 2;
    }
  }

  lemma LedgerNameIsAllowed(name: string)
    requires PlainName(name)
    ensures !IsForbidden(InLedger(name))
  {
    LedgerNameParts(name);
    LedgerIsPlain();
    PlatformIsPlain();
    PlainPartIsFree("ai-ledger");
    PlainPartIsFree("platform");
    PlainPartIsFree(name);
    ThreeFree("ai-ledger", "platform", name);
    NoForbiddenStart(InLedger(name));
    AllowedName(InLedger(name), ["ai-ledger", "platform", name]);
  }

  lemma LedgerNameIsSafe(name: string)
    requires PlainName(name)
    ensures SafeRelativeFault(Text(InLedger(name))).None? && ContractFault(Text(InLedger(name))).None?
  {
    LedgerNameParts(name);
    LedgerNameIsAllowed(name);
    var s := InLedger(name);
    assert s[0] == 'a' && !IsSpace(s[0]);
    MissionRuleAgainstWorkerRule(Text(s));
  }

  /** A name with a fitting end names an accepted ledger file. */
  lemma LedgerNameFits(name: string, suffix: string)
    requires PlainName(name) && EndsWith(name, suffix)
    ensures forall suffixes: set<string> :: suffix in suffixes ==> LedgerFault(Text(InLedger(name)), suffixes).None?
    ensures LEDGER_PREFIX <= NormalizePath(InLedger(name)) && EndsWith(NormalizePath(InLedger(name)), suffix)
  {
    LedgerNameParts(name);
    LedgerNameIsSafe(name);
    assert InLedger(name)[|InLedger(name)| - |suffix|..] == name[|name| - |suffix|..];
  }

  // -------------------------------------------------------------------- run packet

  const REPORT: string := "r.md"

  function Files(): Json {
    List([Text(InLedger(REPORT))])
  }

  function SmallPacket(): RunPacket.Packet {
    map["phase" := Text("P1-E"), "branch" := Text("b"), "agent" := Text("goose"), "report" := Text(InLedger(REPORT)),
        "risk" := Text("LOW"), "allowed_files" := Files(), "expected_files" := Files(),
        "command" := List([Text("x")]), "tests" := List([Text("y")]), "gate_only" := Bool(false)]
  }

  lemma FilesAreAccepted()
    ensures RunPacket.PathList(Files()) && RunPacket.Names(Files().items) == {InLedger(REPORT)}
  {
    LedgerNameIsSafe(REPORT);
    LedgerNameParts(REPORT);
    assert Files().items[0] == Text(InLedger(REPORT));
  }

  /** A packet with the fields of the small one. */
  predicate LooksSmall(p: RunPacket.Packet) {
    && RunPacket.HasFields(p, RunPacket.REQUIRED_PACKET_FIELDS)
    && RunPacket.Field(p, "phase") == Text("P1-E") && RunPacket.Field(p, "branch") == Text("b")
    && RunPacket.Field(p, "agent") == Text("goose") && RunPacket.Field(p, "risk") == Text("LOW")
    && RunPacket.Field(p, "command") == List([Text("x")]) && RunPacket.Field(p, "gate_only") == Bool(false)
    && RunPacket.Field(p, "report") == Text(InLedger(REPORT)) && RunPacket.Field(p, "tests") == List([Text("y")])
    && RunPacket.Field(p, "allowed_files") == Files() && RunPacket.Field(p, "expected_files") == Files()
    && "notes" !in p && "allow_platform_dev" !in p
  }

  lemma SmallPacketLooksSmall()
    ensures LooksSmall(SmallPacket())
  {}

  lemma KnownNames()
    ensures "goose" in RunPacket.VALID_AGENTS && "LOW" in RunPacket.VALID_RISK_LEVELS
  {
    assert RunPacket.VALID_AGENTS[1] == "goose" && RunPacket.VALID_RISK_LEVELS[0] == "LOW";
  }

  lemma SmallHeader(p: RunPacket.Packet)
    requires LooksSmall(p) && LedgerFault(Text(InLedger(REPORT)), {".md"}).None?
    ensures RunPacket.GoodHeader(p, Some("b"))
  {
    KnownNames();
  }

  lemma SmallScope(p: RunPacket.Packet, report: string)
    requires LooksSmall(p) && report == InLedger(REPORT) && NormalizePath(report) == report
    requires RunPacket.PathList(Files()) && RunPacket.Names(Files().items) == {report}
    ensures RunPacket.GoodScope(p)
  {}

  lemma SmallIsGood(p: RunPacket.Packet)
    requires LooksSmall(p) && RunPacket.GoodHeader(p, Some("b")) && RunPacket.GoodScope(p)
    ensures RunPacket.GoodPacket(p, Some("b"), false)
  {
    KnownNames();
  }

  lemma ReportIsAccepted(report: string)
    requires report == InLedger(REPORT)
    ensures LedgerFault(Text(report), {".md"}).None? && NormalizePath(report) == report
    ensures RunPacket.PathList(Files()) && RunPacket.Names(Files().items) == {report}
  {
    LedgerNameFits(REPORT, ".md");
    LedgerNameParts(REPORT);
    FilesAreAccepted();
  }

  lemma LooksSmallIsAccepted(p: RunPacket.Packet, report: string)
    requires LooksSmall(p) && report == InLedger(REPORT)
    ensures RunPacket.PacketIssues(p, Some("b"), false) == Some([])
  {
    ReportIsAccepted(report);
    SmallHeader(p);
    SmallScope(p, report);
    SmallIsGood(p);
    RunPacket.AcceptedPackets(p, Some("b"), false);
  }

  /** The packet contract can be met. */
  lemma SmallPacketIsAccepted()
    ensures RunPacket.PacketIssues(SmallPacket(), Some("b"), false) == Some([])
  {
    SmallPacketLooksSmall();
    LooksSmallIsAccepted(SmallPacket(), InLedger(REPORT));
  }

  // ----------------------------------------------------------------------- mission

  function SmallMission(): MissionGate.Mission {
    map["phase" := Text("P1-E"), "agent" := Text("opencode"), "mission" := Text(InLedger("m.md")),
        "expected_files" := Files(), "result" := Text(InLedger("r.json")),
        "events" := Text(InLedger("e.jsonl")), "timeout_seconds" := Number(60)]
  }

  lemma MissionNameFits()
    ensures MissionGate.MissionFault(Text(InLedger("m.md"))).None?
  {
    LedgerNameIsSafe("m.md");
    LedgerNameFits("m.md", ".md");
  }

  lemma ResultNameFits()
    ensures MissionGate.OutputFault(Text(InLedger("r.json")), "result").None?
  {
    LedgerNameIsSafe("r.json");
    LedgerNameFits("r.json", ".json");
  }

  lemma EventsNameFits()
    ensures MissionGate.OutputFault(Text(InLedger("e.jsonl")), "events").None?
  {
    LedgerNameIsSafe("e.jsonl");
    LedgerNameFits("e.jsonl", ".jsonl");
  }

  lemma ExpectedFits()
    ensures MissionGate.SafeList(Files())
  {
    LedgerNameIsSafe(REPORT);
  }

  lemma MissionFields()
    ensures var m := SmallMission();
            && MissionGate.Field(m, "phase") == Text("P1-E") && MissionGate.Field(m, "agent") == Text("opencode")
            && MissionGate.Field(m, "mission") == Text(InLedger("m.md"))
            && MissionGate.Field(m, "expected_files") == Files()
            && MissionGate.Field(m, "result") == Text(InLedger("r.json"))
            && MissionGate.Field(m, "events") == Text(InLedger("e.jsonl"))
            && MissionGate.Field(m, "timeout_seconds") == Number(60)
            && "allow_edits" !in m && "notes" !in m
  {}

  lemma AssembleMission(m: MissionGate.Mission, mission: string, files: Json, result: string, events: string)
    requires MissionGate.Field(m, "phase") == Text("P1-E") && MissionGate.Field(m, "agent") == Text("opencode")
    requires MissionGate.Field(m, "mission") == Text(mission) && MissionGate.MissionFault(Text(mission)).None?
    requires MissionGate.Field(m, "expected_files") == files && MissionGate.SafeList(files) && files.items != []
    requires MissionGate.Field(m, "result") == Text(result) && MissionGate.OutputFault(Text(result), "result").None?
    requires MissionGate.Field(m, "events") == Text(events) && MissionGate.OutputFault(Text(events), "events").None?
    requires MissionGate.Field(m, "timeout_seconds") == Number(60) && "allow_edits" !in m && "notes" !in m
    ensures MissionGate.MissionFailures(Object(m)) == []
  {
    assert MissionGate.VALID_AGENTS[0] == "opencode" && MissionGate.PHASES[0] <= "P1-E";
    assert !IsSpace("P1-E"[0]);
    MissionGate.AcceptedMissions(m);
  }

  /** The mission contract can be met. */
  lemma SmallMissionIsAccepted()
    ensures MissionGate.MissionFailures(Object(SmallMission())) == []
  {
    MissionFields();
    MissionNameFits();
    ResultNameFits();
    EventsNameFits();
    ExpectedFits();
    AssembleMission(SmallMission(), InLedger("m.md"), Files(), InLedger("r.json"), InLedger("e.jsonl"));
  }
}
