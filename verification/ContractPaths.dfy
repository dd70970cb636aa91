/** JSON values and the path rules that the platform gates share. */
module ContractPaths {
  import opened Common
  import opened PathText
  import ForbiddenPaths

  datatype Json =
    | Null
    | Bool(b: bool)
    | Number(n: int)
    | Fraction(r: real)
    | Text(text: string)
    | List(items: seq<Json>)
    | Object(fields: map<string, Json>)

  /** Python's truth value of a parsed JSON value. */
  predicate Holds(j: Json) {
    match j
    case Null => false
    case Bool(b) => b
    case Number(n) => n != 0
    case Fraction(r) => r != 0.0
    case Text(s) => s != ""
    case List(items) => items != []
    case Object(fields) => |fields| > 0
  }

  /** Exactly these values are false. */
  lemma FalseValues(j: Json)
    ensures !Holds(j) <==>
            j in [Null, Bool(false), Number(0), Fraction(0.0), Text(""), List([]), Object(map[])]
  {
    if j.Object? && |j.fields| == 0 { assert j.fields == map[]; }
  }

  /** `data.get(key, default)`. */
  function Get(data: map<string, Json>, key: string, default: Json): Json {
    if key in data then data[key] else default
  }

  datatype Fault = NotText | Absolute | Traversal | UnsafePart | Forbidden | OutsideLedger | WrongSuffix

  const FORBIDDEN_PREFIXES: seq<string> := ["backend/", "frontend/", ".github/workflows/", ".claude/"]
  const FORBIDDEN_SPECIFIC: string := "docs/ai/PHASE4_FRONTEND_CONTRACT.md"
  const FORBIDDEN_FRAGMENTS: seq<string> := ["auth", "rbac", "tenancy", "session", "migration", "payment"]

  predicate OccursAt(s: string, part: string, i: nat) {
    i + |part| <= |s| && s[i..i + |part|] == part
  }

  /** `part in s`. */
  predicate Contains(s: string, part: string) {
    exists i :: 0 <= i <= |s| && OccursAt(s, part, i)
  }

  predicate HasForbiddenFragment(part: string) {
    exists k :: 0 <= k < |FORBIDDEN_FRAGMENTS| && Contains(Lower(part), FORBIDDEN_FRAGMENTS[k])
  }

  predicate IsForbiddenName(n: string) {
    || (exists k :: 0 <= k < |FORBIDDEN_PREFIXES| && FORBIDDEN_PREFIXES[k] <= n)
    || n == FORBIDDEN_SPECIFIC
    || (exists k :: 0 <= k < |Split(n, '/')| && HasForbiddenFragment(Split(n, '/')[k]))
  }

  /** `is_forbidden` and `is_forbidden_path`. */
  predicate IsForbidden(path: string) {
    IsForbiddenName(NormalizePath(path))
  }

  /** `validate_contract_path` of the packet, directive and worker gates. */
  function ContractFault(v: Json): Option<Fault> {
    if !v.Text? || v.text == "" then Some(NotText)
    else if "/" <= v.text || ':' in Parts(v.text)[0] then Some(Absolute)
    else if IsTraversal(v.text) || HasUnsafePart(v.text) then Some(UnsafePart)
    else if IsForbidden(v.text) then Some(Forbidden)
    else None
  }

  /** `validate_safe_relative` of the mission gate. */
  function SafeRelativeFault(v: Json): Option<Fault> {
    if !v.Text? || Blank(v.text) then Some(NotText)
    else if IsAbsolute(v.text) then Some(Absolute)
    else if IsTraversal(v.text) then Some(Traversal)
    else if HasUnsafePart(v.text) then Some(UnsafePart)
    else if IsForbidden(v.text) then Some(Forbidden)
    else None
  }

  predicate EndsWithOne(s: string, suffixes: set<string>) {
    exists suffix :: suffix in suffixes && EndsWith(s, suffix)
  }

  /** `validate_ledger_path`, and the report rule of the packet and directive gates. */
  function LedgerFault(v: Json, suffixes: set<string>): Option<Fault> {
    var fault := ContractFault(v);
    if fault.Some? then fault
    else if !(LEDGER_PREFIX <= NormalizePath(v.text)) then Some(OutsideLedger)
    else if !EndsWithOne(NormalizePath(v.text), suffixes) then Some(WrongSuffix)
    else None
  }

  lemma EmptyDifference(a: set<string>, b: set<string>)
    ensures a - b == {} <==> a <= b
  {
    if a - b == {} {
      forall x | x in a ensures x in b { assert x !in a - b; }
    }
  }

  // ----------------------------------------------------------------- normalisation

  /** Normalising a path changes no verdict: a gate that reads the normalised path decides
      as the one that read the original. */
  lemma NormalizedIsAccepted(s: string)
    ensures ContractFault(Text(s)).None? <==> ContractFault(Text(NormalizePath(s))).None?
  {
    var n := NormalizePath(s);
    NormalizeIdempotent(s);
    if "/" <= n { LeadingSlashIsUnsafe(n); }
  }

  lemma ForbiddenWhenNormalized(s: string)
    ensures IsForbidden(NormalizePath(s)) <==> IsForbidden(s)
  {
    NormalizeIdempotent(s);
  }

  lemma SafeIsNotForbidden(v: Json)
    requires SafeRelativeFault(v).None?
    ensures !IsForbidden(v.text)
  {
    hide IsForbidden, IsAbsolute, IsTraversal, HasUnsafePart, Blank;
  }

  lemma NormalizedLedgerIsAccepted(s: string, suffixes: set<string>)
    ensures LedgerFault(Text(s), suffixes).None? <==> LedgerFault(Text(NormalizePath(s)), suffixes).None?
  {
    NormalizedIsAccepted(s);
    NormalizeIdempotent(s);
  }

  lemma LeadingSlashIsUnsafe(n: string)
    requires "/" <= n
    ensures "" in Split(n, '/')
  {
    SplitFirst("", n[1..], '/');
    assert n == "" + ['/'] + n[1..];
    assert Split(n, '/')[0] == "";
  }

  // ------------------------------------------------- mission rule against worker rule

  lemma {:induction false} BlankStaysWhole(s: string)
    requires Blank(s)
    ensures NormalizePath(s) == s && Lower(s) == s && Split(s, '/') == [s]
  {
    if s != "" {
      BlankStaysWhole(s[1..]);
      assert [s[0]] + s[1..] == s;
    }
  }

  lemma BlankHasNoFragment(s: string)
    requires Blank(s)
    ensures !HasForbiddenFragment(s)
  {
    BlankStaysWhole(s);
    forall k | 0 <= k < |FORBIDDEN_FRAGMENTS| ensures !Contains(Lower(s), FORBIDDEN_FRAGMENTS[k]) {
      var f := FORBIDDEN_FRAGMENTS[k];
      assert !IsSpace(f[0]);
      forall i | 0 <= i <= |s| ensures !OccursAt(s, f, i) {
        if i + |f| <= |s| { assert s[i..i + |f|][0] == s[i]; }
      }
    }
  }

  lemma BlankIsNotForbidden(s: string)
    requires Blank(s) && s != ""
    ensures !IsForbidden(s)
  {
    BlankStaysWhole(s);
    BlankHasNoFragment(s);
    assert IsSpace(s[0]) && !IsSpace(FORBIDDEN_SPECIFIC[0]);
    forall k | 0 <= k < |FORBIDDEN_PREFIXES| ensures !(FORBIDDEN_PREFIXES[k] <= s) {
      assert !IsSpace(FORBIDDEN_PREFIXES[k][0]);
    }
  }

  lemma BlankIsContractPath(s: string)
    requires Blank(s) && s != ""
    ensures ContractFault(Text(s)).None?
  {
    BlankStaysWhole(s);
    BlankIsNotForbidden(s);
    assert IsSpace(s[0]) && !IsSpace('/') && !IsSpace(':') && !IsSpace('.');
    assert Parts(s) == [s];
    assert s != "." && s != "..";
  }

  /** The worker's rule accepts everything the mission rule accepts, and the only paths it
      accepts beyond that are non-empty texts of white space. */
  lemma MissionRuleAgainstWorkerRule(v: Json)
    ensures ContractFault(v).None? <==>
            SafeRelativeFault(v).None? || (v.Text? && v.text != "" && Blank(v.text))
  {
    if v.Text? {
      if Blank(v.text) {
        if v.text != "" { BlankIsContractPath(v.text); }
      } else if "/" <= NormalizePath(v.text) {
        LeadingSlashIsUnsafe(NormalizePath(v.text));
      }
    }
  }

  /** An accepted contract path leads, part by part, to a place inside the repository. */
  lemma ContractPathsStayInside(s: string)
    requires ContractFault(Text(s)).None?
    ensures Resolve(Parts(s), []) == Some(Parts(s))
    ensures !("backend/" <= NormalizePath(s)) && !("frontend/" <= NormalizePath(s))
  {
    ResolvePlain(Parts(s), []);
    assert [] + Parts(s) == Parts(s);
    assert FORBIDDEN_PREFIXES[0] == "backend/" && FORBIDDEN_PREFIXES[1] == "frontend/";
  }

  // --------------------------------------------------- the rule on the path as it is given

  /** The path starts so, with slashes of either kind. */
  predicate Starts(path: string, dir: string) {
    |dir| <= |path| && forall k :: 0 <= k < |dir| ==> (if path[k] == '\\' then '/' else path[k]) == dir[k]
  }

  /** The word occurs somewhere, in any letter case. */
  predicate Mentions(path: string, word: string) {
    exists i :: 0 <= i <= |path| && ForbiddenPaths.ReadsAt(path, word, i)
  }

  /** What no contract may touch: four directories, one document, and whatever has one of six
      words anywhere in its path. */
  predicate OffLimits(path: string) {
    || Starts(path, "backend/") || Starts(path, "frontend/") || Starts(path, ".github/workflows/")
    || Starts(path, ".claude/")
    || (Starts(path, "docs/ai/PHASE4_FRONTEND_CONTRACT.md") && |path| == |"docs/ai/PHASE4_FRONTEND_CONTRACT.md"|)
    || Mentions(path, "auth") || Mentions(path, "rbac") || Mentions(path, "tenancy") || Mentions(path, "session")
    || Mentions(path, "migration") || Mentions(path, "payment")
  }

  lemma StartsNormalized(path: string, dir: string)
    ensures Starts(path, dir) <==> dir <= NormalizePath(path)
  {}

  lemma {:induction false} LowerJoined(a: string, b: string)
    ensures Lower(a + b) == Lower(a) + Lower(b)
  {
    if a == "" {
      assert a + b == b;
    } else {
      assert (a + b)[1..] == a[1..] + b;
      LowerJoined(a[1..], b);
    }
  }

  /** A text without the separator stands before it or behind it. */
  lemma OccursOnOneSide(a: string, sep: char, b: string, part: string, i: nat)
    requires part != "" && sep !in part
    ensures OccursAt(a + [sep] + b, part, i) <==>
            OccursAt(a, part, i) || (i > |a| && OccursAt(b, part, i - |a| - 1))
    ensures OccursAt(a, part, i) ==> i < |a|
  {
    var (s, n) := (a + [sep] + b, i + |part|);
    assert s[|a|] == sep;
    if n <= |a| { assert s[i..n] == a[i..n]; }
    if i > |a| && n <= |s| { assert s[i..n] == b[i - |a| - 1..n - |a| - 1]; }
  }

  lemma ContainsOnOneSide(a: string, sep: char, b: string, part: string)
    requires part != "" && sep !in part
    ensures Contains(a + [sep] + b, part) <==> Contains(a, part) || Contains(b, part)
  {
    hide OccursAt;
    var s := a + [sep] + b;
    if Contains(s, part) {
      var i :| 0 <= i <= |s| && OccursAt(s, part, i);
      OccursOnOneSide(a, sep, b, part, i);
    }
    if Contains(a, part) {
      var i :| 0 <= i <= |a| && OccursAt(a, part, i);
      OccursOnOneSide(a, sep, b, part, i);
    }
    if Contains(b, part) {
      var i :| 0 <= i <= |b| && OccursAt(b, part, i);
      var k := |a| + 1 + i;
      OccursOnOneSide(a, sep, b, part, k);
      assert k - |a| - 1 == i && OccursAt(s, part, k);
    }
  }

  /** The first piece, and the pieces of what is behind it. */
  lemma {:induction false} SplitAt(s: string, sep: char, n: nat)
    requires n <= |s| && sep !in s[..n] && (n < |s| ==> s[n] == sep)
    ensures Split(s, sep) == [s[..n]] + if n == |s| then [] else Split(s[n + 1..], sep)
  {
    if n == |s| {
      assert s[..n] == s;
      SplitWhole(s, sep);
    } else {
      SplitFirst(s[..n], s[n + 1..], sep);
      assert s == s[..n] + [sep] + s[n + 1..];
    }
  }

  lemma {:induction false} SplitWhole(s: string, sep: char)
    requires sep !in s
    ensures Split(s, sep) == [s]
  {
    if s != "" {
      SplitWhole(s[1..], sep);
      assert [s[0]] + s[1..] == s;
    }
  }

  function FirstSep(s: string, sep: char): (n: nat)
    ensures n <= |s| && sep !in s[..n] && (n < |s| ==> s[n] == sep)
  {
    if s == "" || s[0] == sep then 0 else 1 + FirstSep(s[1..], sep)
  }

  predicate InSomePiece(pieces: seq<string>, word: string) {
    exists k :: 0 <= k < |pieces| && Contains(Lower(pieces[k]), word)
  }

  lemma InFirstOrLater(first: string, rest: seq<string>, word: string)
    ensures InSomePiece([first] + rest, word) <==> Contains(Lower(first), word) || InSomePiece(rest, word)
  {
    hide Contains;
    var pieces := [first] + rest;
    if InSomePiece(rest, word) {
      var k :| 0 <= k < |rest| && Contains(Lower(rest[k]), word);
      assert pieces[k + 1] == rest[k];
    }
    assert pieces[0] == first;
  }

  /** A word without a slash is in the text if and only if it is in one of its pieces. */
  lemma {:induction false} PiecesHaveTheWords(s: string, word: string)
    requires word != "" && '/' !in word
    ensures Contains(Lower(s), word) <==> InSomePiece(Split(s, '/'), word)
    decreases |s|
  {
    hide Contains, Split, Lower, InSomePiece;
    var n := FirstSep(s, '/');
    SplitAt(s, '/', n);
    var first := s[..n];
    if n == |s| {
      InFirstOrLater(first, [], word);
      assert first == s && [first] + [] == [first];
      NoPiece(word);
    } else {
      var rest := s[n + 1..];
      assert s == first + ['/'] + rest;
      LowerOfPieces(first, rest);
      ContainsOnOneSide(Lower(first), '/', Lower(rest), word);
      PiecesHaveTheWords(rest, word);
      InFirstOrLater(first, Split(rest, '/'), word);
    }
  }

  lemma NoPiece(word: string)
    ensures !InSomePiece([], word)
  {}

  lemma LowerOfPieces(a: string, b: string)
    ensures Lower(a + ['/'] + b) == Lower(a) + ['/'] + Lower(b)
  {
    LowerJoined(a + ['/'], b);
    LowerJoined(a, ['/']);
    assert Lower(['/']) == ['/'] + Lower(['/'][1..]);
  }

  lemma MentionsLower(path: string, word: string)
    ensures Mentions(path, word) <==> Contains(Lower(NormalizePath(path)), word)
  {
    hide ForbiddenPaths.ReadsAt;
    var n := Lower(NormalizePath(path));
    forall i | 0 <= i <= |path| ensures ForbiddenPaths.ReadsAt(path, word, i) <==> OccursAt(n, word, i) {
      ForbiddenPaths.ReadsAtFolded(path, n, word, i);
    }
  }

  lemma FragmentFound(path: string, word: string)
    requires word != "" && '/' !in word
    ensures Mentions(path, word) <==> InSomePiece(Split(NormalizePath(path), '/'), word)
  {
    hide Contains, Split, Lower, InSomePiece, Mentions;
    MentionsLower(path, word);
    PiecesHaveTheWords(NormalizePath(path), word);
  }

  lemma PrefixesAre(n: string)
    ensures (exists k :: 0 <= k < |FORBIDDEN_PREFIXES| && FORBIDDEN_PREFIXES[k] <= n) <==>
            "backend/" <= n || "frontend/" <= n || ".github/workflows/" <= n || ".claude/" <= n
  {
    var p := FORBIDDEN_PREFIXES;
    assert p[0] == "backend/" && p[1] == "frontend/" && p[2] == ".github/workflows/" && p[3] == ".claude/";
  }

  lemma FragmentsAre(pieces: seq<string>)
    ensures (exists k :: 0 <= k < |pieces| && HasForbiddenFragment(pieces[k])) <==>
            || InSomePiece(pieces, "auth") || InSomePiece(pieces, "rbac") || InSomePiece(pieces, "tenancy")
            || InSomePiece(pieces, "session") || InSomePiece(pieces, "migration") || InSomePiece(pieces, "payment")
  {
    hide Contains, Lower;
    var f := FORBIDDEN_FRAGMENTS;
    assert f[0] == "auth" && f[1] == "rbac" && f[2] == "tenancy";
    assert f[3] == "session" && f[4] == "migration" && f[5] == "payment";
  }

  lemma MentionsFound(path: string)
    ensures InSomePiece(Split(NormalizePath(path), '/'), "auth") <==> Mentions(path, "auth")
    ensures InSomePiece(Split(NormalizePath(path), '/'), "rbac") <==> Mentions(path, "rbac")
    ensures InSomePiece(Split(NormalizePath(path), '/'), "tenancy") <==> Mentions(path, "tenancy")
    ensures InSomePiece(Split(NormalizePath(path), '/'), "session") <==> Mentions(path, "session")
    ensures InSomePiece(Split(NormalizePath(path), '/'), "migration") <==> Mentions(path, "migration")
    ensures InSomePiece(Split(NormalizePath(path), '/'), "payment") <==> Mentions(path, "payment")
  {
    hide Split, InSomePiece, Mentions;
    FragmentFound(path, "auth");
    FragmentFound(path, "rbac");
    FragmentFound(path, "tenancy");
    FragmentFound(path, "session");
    FragmentFound(path, "migration");
    FragmentFound(path, "payment");
  }

  /** For all paths: forbidden are exactly those that are off limits. */
  lemma ForbiddenExactlyWhen(path: string)
    ensures IsForbidden(path) <==> OffLimits(path)
  {
    hide Split, InSomePiece, Mentions, Starts, HasForbiddenFragment;
    var n := NormalizePath(path);
    PrefixesAre(n);
    FragmentsAre(Split(n, '/'));
    MentionsFound(path);
    StartsNormalized(path, "backend/");
    StartsNormalized(path, "frontend/");
    StartsNormalized(path, ".github/workflows/");
    StartsNormalized(path, ".claude/");
    StartsNormalized(path, FORBIDDEN_SPECIFIC);
  }

  lemma SafeParts(s: string)
    ensures !IsTraversal(s) && !HasUnsafePart(s) <==> NamesOnly(NormalizePath(s))
  {
    hide Split;
    var parts := Parts(s);
    if NamesOnly(NormalizePath(s)) {
      forall p | p in parts ensures p != "" && p != "." && p != ".." {
        var i :| 0 <= i < |parts| && parts[i] == p;
      }
    }
  }

  /** A text that is not empty, does not start at a root or with a drive, has a name in every
      place between its slashes, and is not off limits. */
  predicate SafePath(v: Json) {
    && v.Text? && v.text != "" && v.text[0] != '/' && ':' !in Split(NormalizePath(v.text), '/')[0]
    && NamesOnly(NormalizePath(v.text)) && !OffLimits(v.text)
  }

  /** For all values: what the packet, directive and worker gates accept as a path. */
  lemma ContractPathsExactly(v: Json)
    ensures ContractFault(v).None? <==> SafePath(v)
  {
    hide Split, NamesOnly, IsTraversal, HasUnsafePart, IsForbidden, OffLimits;
    if v.Text? && v.text != "" {
      SafeParts(v.text);
      ForbiddenExactlyWhen(v.text);
      assert "/" <= v.text <==> v.text[0] == '/';
    }
  }

  /** Not only white space. */
  predicate Printed(v: Json) {
    v.Text? && exists i :: 0 <= i < |v.text| && !IsSpace(v.text[i])
  }

  /** The mission gate accepts the same, less texts of white space. */
  lemma SafeRelativeExactly(v: Json)
    ensures SafeRelativeFault(v).None? <==> SafePath(v) && Printed(v)
  {
    hide SafePath, ContractFault, SafeRelativeFault;
    MissionRuleAgainstWorkerRule(v);
    ContractPathsExactly(v);
    BlankHasNoFault(v);
  }

  lemma BlankHasNoFault(v: Json)
    ensures SafeRelativeFault(v).None? ==> v.Text? && !Blank(v.text)
  {}

  /** Such a path below the ledger's directory, with one of these suffixes. */
  predicate LedgerFile(v: Json, suffixes: set<string>) {
    && SafePath(v) && "ai-ledger/platform/" <= NormalizePath(v.text)
    && exists suffix :: suffix in suffixes && Ends(NormalizePath(v.text), suffix)
  }

  lemma LedgerFilesExactly(v: Json, suffixes: set<string>)
    ensures LedgerFault(v, suffixes).None? <==> LedgerFile(v, suffixes)
  {
    hide SafePath, ContractFault, EndsWith;
    ContractPathsExactly(v);
    if ContractFault(v).None? {
      TextIsNoFault(v);
      forall suffix: string ensures EndsWith(NormalizePath(v.text), suffix) <==> Ends(NormalizePath(v.text), suffix) {
        EndsMeans(NormalizePath(v.text), suffix);
      }
    }
  }

  lemma TextIsNoFault(v: Json)
    ensures ContractFault(v).None? ==> v.Text?
  {}

  predicate Ends(s: string, suffix: string) {
    |suffix| <= |s| && forall k :: 0 <= k < |suffix| ==> s[|s| - |suffix| + k] == suffix[k]
  }

  lemma EndsMeans(s: string, suffix: string)
    ensures EndsWith(s, suffix) <==> Ends(s, suffix)
  {
    if |suffix| <= |s| {
      var tail := s[|s| - |suffix|..];
      assert forall k :: 0 <= k < |tail| ==> tail[k] == s[|s| - |suffix| + k];
    }
  }
}
