/** The paths that `platform_diff_auditor` forbids, and what its cutting and comparing finds. */
module ForbiddenPaths {
  import opened Common
  import opened PathText

  const FORBIDDEN_PREFIXES: seq<string> :=
    ["backend/", "frontend/", "product-dev-recovered/", ".github/", ".claude/", "docs/ai/"]
  const FORBIDDEN_KEYWORDS: seq<string> :=
    ["auth", "rbac", "tenancy", "migration", "payment", "session"]

  /** Characters that `replace(...).split()` cuts at. */
  predicate Cuts(c: char) {
    c == '/' || c == '-' || c == '_' || IsSpace(c)
  }

  /** The words of `s`, the first of which starts with `current`. */
  function Words(s: string, current: string): seq<string> {
    if s == "" then if current == "" then [] else [current]
    else if Cuts(s[0]) then (if current == "" then [] else [current]) + Words(s[1..], "")
    else Words(s[1..], current + [s[0]])
  }

  /** `platform_diff_auditor.is_forbidden`. */
  predicate IsForbidden(path: string) {
    var normalized := Lower(NormalizePath(path));
    (exists i :: 0 <= i < |FORBIDDEN_PREFIXES| && FORBIDDEN_PREFIXES[i] <= normalized)
    || (exists k :: 0 <= k < |FORBIDDEN_KEYWORDS| && FORBIDDEN_KEYWORDS[k] in Words(normalized, ""))
  }

  // ------------------------------------------------- what a forbidden keyword is

  predicate NoCut(s: string) {
    forall i :: 0 <= i < |s| ==> !Cuts(s[i])
  }

  /** `word` stands at `s[i..]` with a separator or an end of the text on both sides. */
  predicate StandsAt(word: string, s: string, i: nat) {
    && i + |word| <= |s| && s[i..i + |word|] == word
    && (i == 0 || Cuts(s[i - 1]))
    && (i + |word| == |s| || Cuts(s[i + |word|]))
  }

  predicate IsWordOf(word: string, s: string) {
    word != "" && NoCut(word) && exists i :: 0 <= i <= |s| && StandsAt(word, s, i)
  }

  /** Cutting and comparing finds a keyword exactly where it stands as a whole word:
      "auth" in "x-auth/y", not in "author". */
  lemma {:induction false} WordsAreWholeWords(s: string, current: string, word: string)
    requires NoCut(current)
    ensures word in Words(s, current) <==> IsWordOf(word, current + s)
  {
    if s == "" {
      assert current + s == current;
      OnlyWord(current, word);
    } else if Cuts(s[0]) {
      WordsAreWholeWords(s[1..], "", word);
      assert "" + s[1..] == s[1..];
      assert current + s == current + [s[0]] + s[1..];
      WordBeforeCut(current, s[0], s[1..], word);
    } else {
      assert current + [s[0]] + s[1..] == current + s;
      WordsAreWholeWords(s[1..], current + [s[0]], word);
    }
  }

  lemma OnlyWord(current: string, word: string)
    requires NoCut(current)
    ensures IsWordOf(word, current) <==> current != "" && word == current
  {
    if current != "" && word == current {
      assert StandsAt(word, current, 0);
    }
  }

  /** A word in the text stands before the cut, as all there is, or behind it. */
  lemma StandsBeforeOrBehind(current: string, cut: char, rest: string, word: string, i: nat)
    requires NoCut(current) && Cuts(cut) && word != "" && NoCut(word)
    requires StandsAt(word, current + [cut] + rest, i)
    ensures (current != "" && word == current) || IsWordOf(word, rest)
  {
    var s := current + [cut] + rest;
    var n := |current| + 1;
    if i < n {
      forall q | i <= q < i + |word| ensures !Cuts(s[q]) {
        assert word[q - i] == s[q];
      }
      assert s[|current|] == cut;
      assert i + |word| <= |current|;
      assert forall q :: 0 <= q < |current| ==> s[q] == current[q];
      assert s[..|current|] == current;
      assert word == s[..|current|];
    } else {
      assert s[i..i + |word|] == rest[i - n..i - n + |word|];
      assert i > n ==> s[i - 1] == rest[i - n - 1];
      assert i + |word| < |s| ==> s[i + |word|] == rest[i - n + |word|];
      assert StandsAt(word, rest, i - n);
    }
  }

  lemma StandsBehind(current: string, cut: char, rest: string, word: string, i: nat)
    requires Cuts(cut) && StandsAt(word, rest, i)
    ensures StandsAt(word, current + [cut] + rest, |current| + 1 + i)
  {
    var s := current + [cut] + rest;
    var n := |current| + 1;
    assert s[i + n..i + n + |word|] == rest[i..i + |word|];
    assert s[i + n - 1] == if i == 0 then cut else rest[i - 1];
    assert i + |word| < |rest| ==> s[i + n + |word|] == rest[i + |word|];
  }

  lemma WordBeforeCut(current: string, cut: char, rest: string, word: string)
    requires NoCut(current) && Cuts(cut)
    ensures IsWordOf(word, current + [cut] + rest) <==> (current != "" && word == current) || IsWordOf(word, rest)
  {
    var s := current + [cut] + rest;
    if IsWordOf(word, s) {
      var i :| 0 <= i <= |s| && StandsAt(word, s, i);
      StandsBeforeOrBehind(current, cut, rest, word, i);
    }
    if current != "" && word == current {
      assert s[0..|current|] == current;
      assert StandsAt(word, s, 0);
    }
    if IsWordOf(word, rest) {
      var i :| 0 <= i <= |rest| && StandsAt(word, rest, i);
      StandsBehind(current, cut, rest, word, i);
    }
  }

  // --------------------------------------------------- the rule on the path as it is given

  /** Backslashes count as slashes and capital letters as small ones. */
  function Fold(c: char): char {
    if c == '\\' then '/' else if 'A' <= c <= 'Z' then c - 'A' + 'a' else c
  }

  /** `word` can be read at `path[i..]`. */
  predicate ReadsAt(path: string, word: string, i: nat) {
    i + |word| <= |path| && forall k :: 0 <= k < |word| ==> Fold(path[i + k]) == word[k]
  }

  /** Between words there is one of `/ \\ - _` or white space. */
  predicate Between(c: char) {
    || c == '/' || c == '\\' || c == '-' || c == '_' || c == ' ' || 9 <= c as int <= 13 || 28 <= c as int <= 31
  }

  predicate WholeWordAt(path: string, word: string, i: nat) {
    && ReadsAt(path, word, i)
    && (i == 0 || Between(path[i - 1])) && (i + |word| == |path| || Between(path[i + |word|]))
  }

  predicate HasWord(path: string, word: string) {
    exists i :: 0 <= i <= |path| && WholeWordAt(path, word, i)
  }

  /** The path is in one of six directories. */
  predicate InReservedDirectory(path: string) {
    || ReadsAt(path, "backend/", 0) || ReadsAt(path, "frontend/", 0) || ReadsAt(path, "product-dev-recovered/", 0)
    || ReadsAt(path, ".github/", 0) || ReadsAt(path, ".claude/", 0) || ReadsAt(path, "docs/ai/", 0)
  }

  /** The path has one of six words in it. */
  predicate HasReservedWord(path: string) {
    || HasWord(path, "auth") || HasWord(path, "rbac") || HasWord(path, "tenancy") || HasWord(path, "migration")
    || HasWord(path, "payment") || HasWord(path, "session")
  }

  predicate Reserved(path: string) {
    InReservedDirectory(path) || HasReservedWord(path)
  }

  lemma {:induction false} LowerAt(s: string, i: nat)
    requires i < |s|
    ensures Lower(s)[i] == if 'A' <= s[i] <= 'Z' then s[i] - 'A' + 'a' else s[i]
  {
    if i > 0 { LowerAt(s[1..], i - 1); }
  }

  lemma FoldCuts(c: char)
    ensures Cuts(Fold(c)) <==> Between(c)
  {
    if 'A' <= c <= 'Z' { assert 'a' <= Fold(c) <= 'z'; }
  }

  lemma FoldedAt(path: string, i: nat)
    requires i < |path|
    ensures Lower(NormalizePath(path))[i] == Fold(path[i])
    ensures Cuts(Fold(path[i])) <==> Between(path[i])
  {
    hide Cuts, Between, Lower;
    LowerAt(NormalizePath(path), i);
    FoldCuts(path[i]);
  }

  lemma ReadsAtFolded(path: string, n: string, word: string, i: nat)
    requires n == Lower(NormalizePath(path))
    ensures ReadsAt(path, word, i) <==> i + |word| <= |n| && n[i..i + |word|] == word
  {
    forall k | 0 <= k < |path| ensures n[k] == Fold(path[k]) {
      FoldedAt(path, k);
    }
    if i + |word| <= |n| {
      var there := n[i..i + |word|];
      assert forall k :: 0 <= k < |there| ==> there[k] == n[i + k];
    }
  }

  lemma WholeWordFolded(path: string, n: string, word: string, i: nat)
    requires n == Lower(NormalizePath(path))
    ensures WholeWordAt(path, word, i) <==> StandsAt(word, n, i)
  {
    ReadsAtFolded(path, n, word, i);
    if i + |word| <= |n| {
      if i > 0 { FoldedAt(path, i - 1); }
      if i + |word| < |n| { FoldedAt(path, i + |word|); }
    }
  }

  lemma HasWordFolded(path: string, n: string, word: string)
    requires n == Lower(NormalizePath(path)) && word != "" && NoCut(word)
    ensures HasWord(path, word) <==> word in Words(n, "")
  {
    hide Words, WholeWordAt, StandsAt;
    forall i | 0 <= i <= |n| ensures WholeWordAt(path, word, i) <==> StandsAt(word, n, i) {
      WholeWordFolded(path, n, word, i);
    }
    WordsAreWholeWords(n, "", word);
    assert "" + n == n;
  }

  lemma PrefixFolded(path: string, n: string, dir: string)
    requires n == Lower(NormalizePath(path))
    ensures ReadsAt(path, dir, 0) <==> dir <= n
  {
    ReadsAtFolded(path, n, dir, 0);
  }

  lemma PlainWords()
    ensures forall k :: 0 <= k < |FORBIDDEN_KEYWORDS| ==> FORBIDDEN_KEYWORDS[k] != "" && NoCut(FORBIDDEN_KEYWORDS[k])
  {}

  lemma PrefixesAre(n: string)
    ensures (exists i :: 0 <= i < |FORBIDDEN_PREFIXES| && FORBIDDEN_PREFIXES[i] <= n) <==>
            || "backend/" <= n || "frontend/" <= n || "product-dev-recovered/" <= n || ".github/" <= n
            || ".claude/" <= n || "docs/ai/" <= n
  {
    var p := FORBIDDEN_PREFIXES;
    assert p[0] == "backend/" && p[1] == "frontend/" && p[2] == "product-dev-recovered/";
    assert p[3] == ".github/" && p[4] == ".claude/" && p[5] == "docs/ai/";
  }

  lemma KeywordsAre(words: seq<string>)
    ensures (exists k :: 0 <= k < |FORBIDDEN_KEYWORDS| && FORBIDDEN_KEYWORDS[k] in words) <==>
            || "auth" in words || "rbac" in words || "tenancy" in words || "migration" in words
            || "payment" in words || "session" in words
  {
    var w := FORBIDDEN_KEYWORDS;
    assert w[0] == "auth" && w[1] == "rbac" && w[2] == "tenancy" && w[3] == "migration";
    assert w[4] == "payment" && w[5] == "session";
  }

  lemma DirectoryFolded(path: string, n: string)
    requires n == Lower(NormalizePath(path))
    ensures InReservedDirectory(path) <==>
            exists i :: 0 <= i < |FORBIDDEN_PREFIXES| && FORBIDDEN_PREFIXES[i] <= n
  {
    hide ReadsAt;
    PrefixesAre(n);
    PrefixFolded(path, n, "backend/");
    PrefixFolded(path, n, "frontend/");
    PrefixFolded(path, n, "product-dev-recovered/");
    PrefixFolded(path, n, ".github/");
    PrefixFolded(path, n, ".claude/");
    PrefixFolded(path, n, "docs/ai/");
  }

  lemma WordFolded(path: string, n: string)
    requires n == Lower(NormalizePath(path))
    ensures HasReservedWord(path) <==>
            exists k :: 0 <= k < |FORBIDDEN_KEYWORDS| && FORBIDDEN_KEYWORDS[k] in Words(n, "")
  {
    hide HasWord, Words;
    PlainWords();
    KeywordsAre(Words(n, ""));
    HasWordFolded(path, n, "auth");
    HasWordFolded(path, n, "rbac");
    HasWordFolded(path, n, "tenancy");
    HasWordFolded(path, n, "migration");
    HasWordFolded(path, n, "payment");
    HasWordFolded(path, n, "session");
  }

  /** For all paths: forbidden are those in one of the six directories or with one of the six
      words, whatever the slashes and the letter case, and no others. */
  lemma ForbiddenExactlyWhen(path: string)
    ensures IsForbidden(path) <==> Reserved(path)
  {
    hide Words, InReservedDirectory, HasReservedWord;
    DirectoryFolded(path, Lower(NormalizePath(path)));
    WordFolded(path, Lower(NormalizePath(path)));
  }

  /** Normalising the path first makes no difference. */
  lemma NormalizedIsForbidden(path: string)
    ensures IsForbidden(NormalizePath(path)) <==> IsForbidden(path)
  {
    NormalizeIdempotent(path);
  }
}
