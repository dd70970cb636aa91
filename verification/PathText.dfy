/** Path strings as the platform scripts take them apart. */
module PathText {
  import opened Common

  predicate IsSpace(c: char) {
    c == ' ' || c == '\t' || c == '\n' || c == '\r' || c as int == 11 || c as int == 12 || 28 <= c as int <= 31
  }

  predicate Blank(s: string) {
    forall i :: 0 <= i < |s| ==> IsSpace(s[i])
  }

  function NormalizePath(p: string): (r: string)
    ensures |r| == |p|
    ensures forall i :: 0 <= i < |p| ==> r[i] == (if p[i] == '\\' then '/' else p[i])
  {
    if p == "" then "" else [if p[0] == '\\' then '/' else p[0]] + NormalizePath(p[1..])
  }

  function Lower(s: string): (r: string)
    ensures |r| == |s|
  {
    if s == "" then ""
    else [if 'A' <= s[0] <= 'Z' then s[0] - 'A' + 'a' else s[0]] + Lower(s[1..])
  }

  /** `s.split(sep)`: always at least one piece. */
  function Split(s: string, sep: char): (parts: seq<string>)
    ensures parts != []
  {
    if s == "" then [""]
    else
      var rest := Split(s[1..], sep);
      if s[0] == sep then [""] + rest else [[s[0]] + rest[0]] + rest[1..]
  }

  /** `sep.join(parts)`. */
  function Glue(parts: seq<string>, sep: char): string
    requires parts != []
  {
    if |parts| == 1 then parts[0] else parts[0] + [sep] + Glue(parts[1..], sep)
  }

  /** The pieces hold no separator, and glued together they are the text. */
  lemma {:induction false} SplitTakesApart(s: string, sep: char)
    ensures Glue(Split(s, sep), sep) == s
    ensures forall p :: p in Split(s, sep) ==> sep !in p
  {
    if s != "" {
      var rest := Split(s[1..], sep);
      SplitTakesApart(s[1..], sep);
      if s[0] == sep {
        assert ([""] + rest)[1..] == rest;
      } else {
        var parts := [[s[0]] + rest[0]] + rest[1..];
        assert parts[1..] == rest[1..];
        assert s == [s[0]] + s[1..];
      }
    }
  }

  function Parts(path: string): (parts: seq<string>)
    ensures parts != []
  {
    Split(NormalizePath(path), '/')
  }

  predicate EndsWith(s: string, suffix: string) {
    |suffix| <= |s| && s[|s| - |suffix|..] == suffix
  }

  /** `is_absolute` of the executor and the mission gate (POSIX `os.path.isabs`). */
  predicate IsAbsolute(path: string) {
    "/" <= path || "/" <= NormalizePath(path) || ':' in Parts(path)[0]
  }

  predicate IsTraversal(path: string) {
    ".." in Parts(path)
  }

  predicate HasUnsafePart(path: string) {
    "" in Parts(path) || "." in Parts(path)
  }

  const LEDGER_PREFIX: string := "ai-ledger/platform/"

  /** `validate_report_path` and `validate_mission_path` accept the path. */
  predicate LedgerJsonPath(path: string) {
    && !Blank(path)
    && !IsAbsolute(path)
    && !IsTraversal(path)
    && !HasUnsafePart(path)
    && LEDGER_PREFIX <= NormalizePath(path)
    && EndsWith(NormalizePath(path), ".json")
  }

  // ------------------------------------------------------------------- confinement

  /** The directory a relative path leads to: `.` stays, `..` goes up, and going up
      from the top leaves the repository. */
  function Resolve(parts: seq<string>, at: seq<string>): Option<seq<string>> {
    if parts == [] then Some(at)
    else if parts[0] == "" || parts[0] == "." then Resolve(parts[1..], at)
    else if parts[0] == ".." then if at == [] then None else Resolve(parts[1..], at[..|at| - 1])
    else Resolve(parts[1..], at + [parts[0]])
  }

  lemma {:induction false} ResolvePlain(parts: seq<string>, at: seq<string>)
    requires "" !in parts && "." !in parts && ".." !in parts
    ensures Resolve(parts, at) == Some(at + parts)
  {
    if parts == [] {
      assert at + parts == at;
    } else {
      assert forall p :: p in parts[1..] ==> p in parts;
      ResolvePlain(parts[1..], at + [parts[0]]);
      assert at + [parts[0]] + parts[1..] == at + parts;
    }
  }

  lemma {:induction false} SplitFirst(a: string, rest: string, sep: char)
    requires sep !in a
    ensures Split(a + [sep] + rest, sep) == [a] + Split(rest, sep)
  {
    var s := a + [sep] + rest;
    if a == "" {
      assert s[1..] == rest;
    } else {
      assert s[1..] == a[1..] + [sep] + rest;
      SplitFirst(a[1..], rest, sep);
      assert ([a[1..]] + Split(rest, sep))[1..] == Split(rest, sep);
      assert [a[0]] + a[1..] == a;
    }
  }

  lemma LedgerParts(n: string)
    requires LEDGER_PREFIX <= n
    ensures Split(n, '/') == ["ai-ledger", "platform"] + Split(n[|LEDGER_PREFIX|..], '/')
  {
    var rest := n[|LEDGER_PREFIX|..];
    assert LEDGER_PREFIX == "ai-ledger" + ['/'] + ("platform" + ['/']);
    assert n == LEDGER_PREFIX + rest;
    assert n == "ai-ledger" + ['/'] + ("platform" + ['/'] + rest);
    SplitFirst("ai-ledger", "platform" + ['/'] + rest, '/');
    SplitFirst("platform", rest, '/');
  }

  /** An accepted report or mission path names a file strictly below `ai-ledger/platform`. */
  lemma LedgerPathsAreConfined(path: string)
    requires LedgerJsonPath(path)
    ensures var target := Resolve(Parts(path), []);
            && target == Some(Parts(path))
            && |target.value| >= 3 && target.value[0] == "ai-ledger" && target.value[1] == "platform"
  {
    ResolvePlain(Parts(path), []);
    assert [] + Parts(path) == Parts(path);
    LedgerParts(NormalizePath(path));
  }

  lemma {:induction false} NormalizeIdempotent(p: string)
    ensures NormalizePath(NormalizePath(p)) == NormalizePath(p)
  {
    assert forall i :: 0 <= i < |p| ==> NormalizePath(NormalizePath(p))[i] == NormalizePath(p)[i];
  }

  /** The text has a name in every place between its slashes. */
  predicate NamesOnly(s: string) {
    forall i :: 0 <= i < |Split(s, '/')| ==>
      Split(s, '/')[i] != "" && Split(s, '/')[i] != "." && Split(s, '/')[i] != ".."
  }

  lemma LedgerIsPlain(path: string)
    requires "ai-ledger/platform/" <= NormalizePath(path)
    ensures !Blank(path) && !IsAbsolute(path)
    ensures Parts(path) == ["ai-ledger", "platform"] + Split(NormalizePath(path)[|LEDGER_PREFIX|..], '/')
  {
    var n := NormalizePath(path);
    LedgerParts(n);
    assert n[0] == 'a' && path[0] == 'a';
    assert Parts(path)[0] == "ai-ledger";
  }

  lemma NamesOnlyMeans(path: string, rest: string)
    requires Parts(path) == ["ai-ledger", "platform"] + Split(rest, '/')
    ensures !IsTraversal(path) && !HasUnsafePart(path) <==> NamesOnly(rest)
  {
    hide Split;
    var (parts, more) := (Parts(path), Split(rest, '/'));
    forall x: string ensures x in parts <==> x == "ai-ledger" || x == "platform" || x in more {
      assert parts[0] == "ai-ledger" && parts[1] == "platform" && parts[2..] == more;
    }
    assert "ai-ledger" != "" && "ai-ledger" != "." && "ai-ledger" != "..";
    assert "platform" != "" && "platform" != "." && "platform" != "..";
  }

  /** The suffix does not reach back into the directory, which ends with a slash. */
  lemma SuffixBehind(n: string, k: nat, suffix: string)
    requires 0 < k <= |n| && n[k - 1] == '/' && EndsWith(n, suffix) && '/' !in suffix
    ensures |n| - k >= |suffix|
    ensures n == n[..k] + n[k..|n| - |suffix|] + suffix && n[k..] == n[k..|n| - |suffix|] + suffix
  {
    forall i | |n| - |suffix| <= i < |n| ensures n[i] != '/' {
      assert n[i] == suffix[i - (|n| - |suffix|)];
    }
  }

  lemma SuffixIs(a: string, stem: string, suffix: string)
    ensures EndsWith(a + stem + suffix, suffix) && a <= a + stem + suffix
    ensures (a + stem + suffix)[|a|..] == stem + suffix
  {}

  lemma LedgerNames(path: string)
    requires LEDGER_PREFIX <= NormalizePath(path)
    ensures LedgerJsonPath(path) <==>
            NamesOnly(NormalizePath(path)[|LEDGER_PREFIX|..]) && EndsWith(NormalizePath(path), ".json")
  {
    hide Split, NamesOnly, IsTraversal, HasUnsafePart, Blank, IsAbsolute, EndsWith;
    LedgerIsPlain(path);
    NamesOnlyMeans(path, NormalizePath(path)[|LEDGER_PREFIX|..]);
  }

  /** For all texts: a report or mission path is accepted if and only if it reads
      `ai-ledger/platform/<names>.json`, with slashes of either kind. */
  lemma LedgerPathsExactly(path: string)
    ensures LedgerJsonPath(path) <==>
            exists stem :: NormalizePath(path) == "ai-ledger/platform/" + stem + ".json" && NamesOnly(stem + ".json")
  {
    hide NamesOnly, LedgerJsonPath, EndsWith;
    var n := NormalizePath(path);
    if LedgerJsonPath(path) {
      LedgerStarts(path);
      LedgerNames(path);
      SuffixBehind(n, |LEDGER_PREFIX|, ".json");
      var stem := n[|LEDGER_PREFIX|..|n| - |".json"|];
      assert n == LEDGER_PREFIX + stem + ".json" && NamesOnly(stem + ".json");
    }
    forall stem | n == "ai-ledger/platform/" + stem + ".json" && NamesOnly(stem + ".json")
      ensures LedgerJsonPath(path)
    {
      SuffixIs(LEDGER_PREFIX, stem, ".json");
      LedgerNames(path);
    }
  }

  lemma LedgerStarts(path: string)
    requires LedgerJsonPath(path)
    ensures LEDGER_PREFIX <= NormalizePath(path) && EndsWith(NormalizePath(path), ".json")
    ensures LEDGER_PREFIX == "ai-ledger/platform/" && NormalizePath(path)[|LEDGER_PREFIX| - 1] == '/'
  {
    assert LEDGER_PREFIX[|LEDGER_PREFIX| - 1] == '/';
  }
}
