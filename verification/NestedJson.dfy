/**
  Nested JSON values (RFC 8259), printed as `json.dumps(..., indent=2)` does and read back
  as `json.loads` does. Numbers are integers.
 */
module NestedJson {
  import opened Common
  import opened FlatJson

  /** A value as it stands in a text: an object may name a key twice. */
  datatype Json =
    | Null
    | Bool(b: bool)
    | Integer(n: int)
    | String(text: string)
    | List(items: Items)
    | Object(members: Members)

  datatype Items = NoItem | Item(head: Json, rest: Items)

  datatype Members = NoMember | Pair(key: string, value: Json, more: Members)

  // ---------------------------------------------------------------------- printing

  function Spaces(n: nat): (s: string)
    ensures forall i :: 0 <= i < |s| ==> s[i] == ' '
  {
    if n == 0 then "" else " " + Spaces(n - 1)
  }

  function NewLine(level: nat): string {
    "\n" + Spaces(2 * level)
  }

  function PrintAt(v: Json, level: nat): string
    decreases v
  {
    match v
    case Null => "null"
    case Bool(b) => if b then "true" else "false"
    case Integer(n) => PrintNumber(n)
    case String(t) => PrintText(t)
    case List(items) =>
      if items.NoItem? then "[]" else "[" + (NewLine(level + 1) + PrintItems(items, level + 1))
    case Object(ms) =>
      if ms.NoMember? then "{}" else "{" + (NewLine(level + 1) + PrintMembers(ms, level + 1))
  }

  /** The items from one on, each on a line of its own, and the closing bracket. */
  function PrintItems(items: Items, level: nat): string
    requires items.Item? && level > 0
    decreases items
  {
    PrintAt(items.head, level)
    + (if items.rest.NoItem? then NewLine(level - 1) + "]" else "," + (NewLine(level) + PrintItems(items.rest, level)))
  }

  function PrintMembers(ms: Members, level: nat): string
    requires ms.Pair? && level > 0
    decreases ms
  {
    PrintText(ms.key) + (": " + (PrintAt(ms.value, level)
    + (if ms.more.NoMember? then NewLine(level - 1) + "}" else "," + (NewLine(level) + PrintMembers(ms.more, level)))))
  }

  /** `json.dumps(v, indent=2)`. */
  function Dumps(v: Json): string {
    PrintAt(v, 0)
  }

  // ----------------------------------------------------------------------- parsing

  predicate IsBlank(c: char) {
    c == ' ' || c == '\n' || c == '\r' || c == '\t'
  }

  function Skip(s: string): (r: string)
    ensures |r| <= |s|
    ensures r != "" ==> !IsBlank(r[0])
  {
    if s != "" && IsBlank(s[0]) then Skip(s[1..]) else s
  }

  function Word(s: string, word: string, v: Json): Parsed<Json> {
    if word <= s then Some((v, s[|word|..])) else None
  }

  /** One value at the front of `s`. */
  function ParseJson(s: string): (r: Parsed<Json>)
    ensures r.Some? ==> |r.value.1| < |s|
    decreases |s|, 0
  {
    if s == "" then None
    else if s[0] == '"' then
      var t := ParseText(s);
      if t.Some? then Some((String(t.value.0), t.value.1)) else None
    else if s[0] == 'n' then Word(s, "null", Null)
    else if s[0] == 't' then Word(s, "true", Bool(true))
    else if s[0] == 'f' then Word(s, "false", Bool(false))
    else if s[0] == '[' then
      var first := Skip(s[1..]);
      if first != "" && first[0] == ']' then Some((List(NoItem), first[1..]))
      else
        var items := ParseItems(first);
        if items.Some? then Some((List(items.value.0), items.value.1)) else None
    else if s[0] == '{' then
      var first := Skip(s[1..]);
      if first != "" && first[0] == '}' then Some((Object(NoMember), first[1..]))
      else
        var ms := ParseMembers(first);
        if ms.Some? then Some((Object(ms.value.0), ms.value.1)) else None
    else
      var n := ParseNumber(s);
      if n.Some? then Some((Integer(n.value.0), n.value.1)) else None
  }

  /** The items from one on, up to the closing bracket. */
  function ParseItems(s: string): (r: Parsed<Items>)
    ensures r.Some? ==> |r.value.1| < |s|
    decreases |s|, 1
  {
    var v := ParseJson(s);
    if v.None? then None
    else
      var after := Skip(v.value.1);
      if after == "" then None
      else if after[0] == ']' then Some((Item(v.value.0, NoItem), after[1..]))
      else if after[0] == ',' then
        var rest := ParseItems(Skip(after[1..]));
        if rest.Some? then Some((Item(v.value.0, rest.value.0), rest.value.1)) else None
      else None
  }

  function ParseMembers(s: string): (r: Parsed<Members>)
    ensures r.Some? ==> |r.value.1| < |s|
    decreases |s|, 1
  {
    var key := ParseText(s);
    if key.None? then None
    else
      var colon := Expect(Skip(key.value.1), ':');
      if colon.None? then None
      else
        var v := ParseJson(Skip(colon.value));
        if v.None? then None
        else
          var after := Skip(v.value.1);
          if after == "" then None
          else if after[0] == '}' then Some((Pair(key.value.0, v.value.0, NoMember), after[1..]))
          else if after[0] == ',' then
            var more := ParseMembers(Skip(after[1..]));
            if more.Some? then Some((Pair(key.value.0, v.value.0, more.value.0), more.value.1)) else None
          else None
  }

  // ------------------------------------------------------------------ dictionaries

  /** `d[key] = v`: a known key keeps its place. */
  function Put(d: Members, key: string, v: Json): Members {
    match d
    case NoMember => Pair(key, v, NoMember)
    case Pair(k, w, more) => if k == key then Pair(k, v, more) else Pair(k, w, Put(more, key, v))
  }

  /** The value with a dictionary for each object, filled pair by pair. */
  function Loaded(v: Json): Json
    decreases v
  {
    match v
    case List(items) => List(LoadedItems(items))
    case Object(ms) => Object(LoadedMembers(ms, NoMember))
    case _ => v
  }

  function LoadedItems(items: Items): Items
    decreases items
  {
    match items
    case NoItem => NoItem
    case Item(head, rest) => Item(Loaded(head), LoadedItems(rest))
  }

  function LoadedMembers(ms: Members, d: Members): Members
    decreases ms
  {
    match ms
    case NoMember => d
    case Pair(key, v, more) => LoadedMembers(more, Put(d, key, Loaded(v)))
  }

  /** `json.loads`; `None` is a decoding error. */
  function Loads(s: string): Option<Json> {
    var v := ParseJson(Skip(s));
    if v.Some? && Skip(v.value.1) == "" then Some(Loaded(v.value.0)) else None
  }

  // -------------------------------------------------------------------- round trip

  lemma {:induction false} SkipSpaces(n: nat, tail: string)
    requires tail != "" && !IsBlank(tail[0])
    ensures Skip(Spaces(n) + tail) == tail
  {
    if n == 0 {
      assert Spaces(0) + tail == tail;
    } else {
      assert (Spaces(n) + tail)[1..] == Spaces(n - 1) + tail;
      SkipSpaces(n - 1, tail);
    }
  }

  lemma SkipNewLine(level: nat, tail: string)
    requires tail != "" && !IsBlank(tail[0])
    ensures Skip(NewLine(level) + tail) == tail
  {
    assert (NewLine(level) + tail)[1..] == Spaces(2 * level) + tail;
    SkipSpaces(2 * level, tail);
  }

  /** What no printed value starts with. */
  predicate StartsValue(s: string) {
    s != "" && !IsBlank(s[0]) && s[0] != ']' && s[0] != '}' && s[0] != ','
  }

  lemma PrintStartsValue(v: Json, level: nat, tail: string)
    ensures StartsValue(PrintAt(v, level)) && StartsValue(PrintAt(v, level) + tail)
  {}

  /** What may follow a value. */
  predicate Follows(tail: string) {
    tail == "" || tail[0] == ',' || tail[0] == '\n'
  }

  lemma WordReads(word: string, v: Json, tail: string)
    ensures Word(word + tail, word, v) == Some((v, tail))
  {
    assert (word + tail)[..|word|] == word && (word + tail)[|word|..] == tail;
  }

  lemma LiteralReads(v: Json, level: nat, tail: string)
    requires v.Null? || v.Bool?
    ensures ParseJson(PrintAt(v, level) + tail) == Some((v, tail))
  {
    WordReads(PrintAt(v, level), v, tail);
    assert (PrintAt(v, level) + tail)[0] == PrintAt(v, level)[0];
  }

  lemma EmptyReads(tail: string)
    ensures ParseJson("[]" + tail) == Some((List(NoItem), tail))
    ensures ParseJson("{}" + tail) == Some((Object(NoMember), tail))
  {
    var list, obj := "[]" + tail, "{}" + tail;
    assert list[1..] == "]" + tail && ("]" + tail)[1..] == tail;
    assert obj[1..] == "}" + tail && ("}" + tail)[1..] == tail;
  }

  lemma StringReads(t: string, tail: string)
    ensures ParseJson(PrintText(t) + tail) == Some((String(t), tail))
  {
    TextReads(t, tail);
  }

  lemma {:induction false} ReadsBack(v: Json, level: nat, tail: string)
    requires Follows(tail)
    ensures ParseJson(PrintAt(v, level) + tail) == Some((v, tail))
    decreases v
  {
    hide ParseJson, ParseItems, ParseMembers, PrintItems, PrintMembers, PrintText, PrintNumber;
    match v
    case Null => LiteralReads(v, level, tail);
    case Bool(_) => LiteralReads(v, level, tail);
    case Integer(n) => IntegerReads(n, tail);
    case String(t) => StringReads(t, tail);
    case List(items) =>
      if items.NoItem? {
        EmptyReads(tail);
      } else {
        ItemsReadBack(items, level + 1, tail);
        ListReads(items, level, PrintItems(items, level + 1), tail);
      }
    case Object(ms) =>
      if ms.NoMember? {
        EmptyReads(tail);
      } else {
        MembersReadBack(ms, level + 1, tail);
        MembersStart(ms, level + 1, tail);
        ObjectReads(ms, level, PrintMembers(ms, level + 1), tail);
      }
  }

  lemma IntegerReads(n: int, tail: string)
    requires Follows(tail)
    ensures ParseJson(PrintNumber(n) + tail) == Some((Integer(n), tail))
  {
    NumberReads(n, tail);
    var s := PrintNumber(n) + tail;
    assert s[0] == PrintNumber(n)[0];
    assert s[0] == '-' || Decimal.IsDigit(s[0]);
  }

  lemma BracketReads(c: char, level: nat, inner: string, tail: string)
    requires StartsValue(inner + tail)
    ensures var s := [c] + (NewLine(level) + inner) + tail;
            s != "" && s[0] == c && Skip(s[1..]) == inner + tail
  {
    var s := [c] + (NewLine(level) + inner) + tail;
    assert s[1..] == NewLine(level) + (inner + tail);
    SkipNewLine(level, inner + tail);
  }

  lemma ListReads(items: Items, level: nat, inner: string, tail: string)
    requires StartsValue(inner + tail) && ParseItems(inner + tail) == Some((items, tail))
    ensures ParseJson("[" + (NewLine(level + 1) + inner) + tail) == Some((List(items), tail))
  {
    BracketReads('[', level + 1, inner, tail);
  }

  lemma ObjectReads(ms: Members, level: nat, inner: string, tail: string)
    requires StartsValue(inner + tail) && ParseMembers(inner + tail) == Some((ms, tail))
    ensures ParseJson("{" + (NewLine(level + 1) + inner) + tail) == Some((Object(ms), tail))
  {
    BracketReads('{', level + 1, inner, tail);
  }

  lemma LastItemReads(v: Json, printed: string, level: nat, tail: string)
    requires ParseJson(printed + (NewLine(level) + ("]" + tail))) == Some((v, NewLine(level) + ("]" + tail)))
    ensures ParseItems(printed + (NewLine(level) + ("]" + tail))) == Some((Item(v, NoItem), tail))
  {
    SkipNewLine(level, "]" + tail);
    assert ("]" + tail)[1..] == tail;
  }

  lemma OneMoreItemReads(v: Json, printed: string, level: nat, next: string, rest: Items, tail: string)
    requires StartsValue(next) && ParseItems(next) == Some((rest, tail))
    requires ParseJson(printed + ("," + (NewLine(level) + next))) == Some((v, "," + (NewLine(level) + next)))
    ensures ParseItems(printed + ("," + (NewLine(level) + next))) == Some((Item(v, rest), tail))
  {
    var after := "," + (NewLine(level) + next);
    assert after[1..] == NewLine(level) + next;
    SkipNewLine(level, next);
  }

  lemma {:induction false} ItemsReadBack(items: Items, level: nat, tail: string)
    requires items.Item? && level > 0
    ensures ParseItems(PrintItems(items, level) + tail) == Some((items, tail))
    ensures StartsValue(PrintItems(items, level) + tail)
    decreases items
  {
    hide ParseJson, ParseItems, PrintAt;
    var printed := PrintAt(items.head, level);
    if items.rest.NoItem? {
      var after := NewLine(level - 1) + ("]" + tail);
      assert PrintItems(items, level) + tail == printed + after;
      ReadsBack(items.head, level, after);
      LastItemReads(items.head, printed, level - 1, tail);
      PrintStartsValue(items.head, level, after);
    } else {
      var next := PrintItems(items.rest, level) + tail;
      var after := "," + (NewLine(level) + next);
      assert PrintItems(items, level) + tail == printed + after;
      ItemsReadBack(items.rest, level, tail);
      ReadsBack(items.head, level, after);
      OneMoreItemReads(items.head, printed, level, next, items.rest, tail);
      PrintStartsValue(items.head, level, after);
    }
  }

  /** The key and the colon in front of a value. */
  lemma KeyReads(key: string, value: string)
    requires StartsValue(value)
    ensures var s := PrintText(key) + (": " + value);
            var t := ParseText(s);
            && t == Some((key, ": " + value))
            && Expect(Skip(": " + value), ':') == Some(" " + value) && Skip(" " + value) == value
  {
    TextReads(key, ": " + value);
    assert (": " + value)[1..] == " " + value && (" " + value)[1..] == value;
  }

  lemma LastMemberReads(key: string, v: Json, printed: string, level: nat, tail: string)
    requires StartsValue(printed)
    requires ParseJson(printed + (NewLine(level) + ("}" + tail))) == Some((v, NewLine(level) + ("}" + tail)))
    ensures ParseMembers(PrintText(key) + (": " + (printed + (NewLine(level) + ("}" + tail))))) ==
            Some((Pair(key, v, NoMember), tail))
  {
    KeyReads(key, printed + (NewLine(level) + ("}" + tail)));
    SkipNewLine(level, "}" + tail);
    assert ("}" + tail)[1..] == tail;
  }

  lemma OneMoreMemberReads(key: string, v: Json, printed: string, level: nat, next: string, more: Members, tail: string)
    requires StartsValue(printed) && next != "" && !IsBlank(next[0]) && ParseMembers(next) == Some((more, tail))
    requires ParseJson(printed + ("," + (NewLine(level) + next))) == Some((v, "," + (NewLine(level) + next)))
    ensures ParseMembers(PrintText(key) + (": " + (printed + ("," + (NewLine(level) + next))))) ==
            Some((Pair(key, v, more), tail))
  {
    hide ParseJson, NewLine, PrintText;
    var after := "," + (NewLine(level) + next);
    KeyReads(key, printed + after);
    assert after[1..] == NewLine(level) + next;
    SkipNewLine(level, next);
  }

  lemma Regroup(a: string, b: string, c: string)
    ensures (a + b) + c == a + (b + c)
  {}

  lemma MemberShape(key: string, printed: string, after: string, tail: string)
    ensures (key + (": " + (printed + after))) + tail == key + (": " + (printed + (after + tail)))
  {
    Regroup(key, ": " + (printed + after), tail);
    Regroup(": ", printed + after, tail);
    Regroup(printed, after, tail);
  }

  lemma LastMemberShape(ms: Members, level: nat, tail: string)
    requires ms.Pair? && ms.more.NoMember? && level > 0
    ensures PrintMembers(ms, level) + tail ==
            PrintText(ms.key) + (": " + (PrintAt(ms.value, level) + (NewLine(level - 1) + ("}" + tail))))
  {
    MemberShape(PrintText(ms.key), PrintAt(ms.value, level), NewLine(level - 1) + "}", tail);
    Regroup(NewLine(level - 1), "}", tail);
  }

  lemma OneMoreMemberShape(ms: Members, level: nat, tail: string)
    requires ms.Pair? && ms.more.Pair? && level > 0
    ensures PrintMembers(ms, level) + tail ==
            PrintText(ms.key)
            + (": " + (PrintAt(ms.value, level) + ("," + (NewLine(level) + (PrintMembers(ms.more, level) + tail)))))
  {
    var next := PrintMembers(ms.more, level);
    MemberShape(PrintText(ms.key), PrintAt(ms.value, level), "," + (NewLine(level) + next), tail);
    Regroup(",", NewLine(level) + next, tail);
    Regroup(NewLine(level), next, tail);
  }

  lemma MembersStart(ms: Members, level: nat, tail: string)
    requires ms.Pair? && level > 0
    ensures StartsValue(PrintMembers(ms, level) + tail)
  {
    assert PrintText(ms.key)[0] == '"' && PrintMembers(ms, level)[0] == PrintText(ms.key)[0];
  }

  lemma LastOfMembers(ms: Members, level: nat, tail: string)
    requires ms.Pair? && ms.more.NoMember? && level > 0
    requires var after := NewLine(level - 1) + ("}" + tail);
             ParseJson(PrintAt(ms.value, level) + after) == Some((ms.value, after))
    ensures ParseMembers(PrintMembers(ms, level) + tail) == Some((ms, tail))
  {
    hide ParseJson, ParseMembers, NewLine;
    LastMemberShape(ms, level, tail);
    PrintStartsValue(ms.value, level, "");
    LastMemberReads(ms.key, ms.value, PrintAt(ms.value, level), level - 1, tail);
  }

  lemma MoreOfMembers(ms: Members, level: nat, next: string, tail: string)
    requires ms.Pair? && ms.more.Pair? && level > 0
    requires next == PrintMembers(ms.more, level) + tail && ParseMembers(next) == Some((ms.more, tail))
    requires var after := "," + (NewLine(level) + next);
             ParseJson(PrintAt(ms.value, level) + after) == Some((ms.value, after))
    ensures ParseMembers(PrintMembers(ms, level) + tail) == Some((ms, tail))
  {
    OneMoreMemberShape(ms, level, tail);
    PrintStartsValue(ms.value, level, "");
    MembersStart(ms.more, level, tail);
    OneMoreMemberReads(ms.key, ms.value, PrintAt(ms.value, level), level, next, ms.more, tail);
  }

  lemma {:induction false} MembersReadBack(ms: Members, level: nat, tail: string)
    requires ms.Pair? && level > 0
    ensures ParseMembers(PrintMembers(ms, level) + tail) == Some((ms, tail))
    decreases ms
  {
    if ms.more.NoMember? {
      ReadsBack(ms.value, level, NewLine(level - 1) + ("}" + tail));
      LastOfMembers(ms, level, tail);
    } else {
      var next := PrintMembers(ms.more, level) + tail;
      MembersReadBack(ms.more, level, tail);
      ReadsBack(ms.value, level, "," + (NewLine(level) + next));
      MoreOfMembers(ms, level, next, tail);
    }
  }

  /** Reading a printed value gives it back, with a dictionary for each object. */
  lemma LoadsDumps(v: Json)
    ensures Loads(Dumps(v)) == Some(Loaded(v))
  {
    ReadsBack(v, 0, "");
    PrintStartsValue(v, 0, "");
    assert PrintAt(v, 0) + "" == PrintAt(v, 0);
  }

  /** Different values print differently. */
  lemma DumpsInjective(v: Json, w: Json)
    requires Dumps(v) == Dumps(w)
    ensures v == w
  {
    ReadsBack(v, 0, "");
    ReadsBack(w, 0, "");
  }

  // ----------------------------------------------------------------- distinct keys

  predicate HasKey(ms: Members, key: string) {
    ms.Pair? && (ms.key == key || HasKey(ms.more, key))
  }

  /** No object in the value names a key twice. */
  predicate Distinct(v: Json)
    decreases v
  {
    match v
    case List(items) => DistinctItems(items)
    case Object(ms) => DistinctMembers(ms)
    case _ => true
  }

  predicate DistinctItems(items: Items)
    decreases items
  {
    items.Item? ==> Distinct(items.head) && DistinctItems(items.rest)
  }

  predicate DistinctMembers(ms: Members)
    decreases ms
  {
    ms.Pair? ==> Distinct(ms.value) && !HasKey(ms.more, ms.key) && DistinctMembers(ms.more)
  }

  lemma {:induction false} PutKeepsDistinct(d: Members, key: string, v: Json)
    requires DistinctMembers(d) && Distinct(v)
    ensures DistinctMembers(Put(d, key, v))
    ensures forall k :: HasKey(Put(d, key, v), k) <==> HasKey(d, k) || k == key
  {
    if d.Pair? && d.key != key { PutKeepsDistinct(d.more, key, v); }
  }

  /** What was read has dictionaries only. */
  lemma {:induction false} LoadedIsDistinct(v: Json)
    ensures Distinct(Loaded(v))
    decreases v
  {
    match v
    case List(items) => LoadedItemsAreDistinct(items);
    case Object(ms) => LoadedMembersAreDistinct(ms, NoMember);
    case _ =>
  }

  lemma {:induction false} LoadedItemsAreDistinct(items: Items)
    ensures DistinctItems(LoadedItems(items))
    decreases items
  {
    if items.Item? {
      LoadedIsDistinct(items.head);
      LoadedItemsAreDistinct(items.rest);
    }
  }

  lemma {:induction false} LoadedMembersAreDistinct(ms: Members, d: Members)
    requires DistinctMembers(d)
    ensures DistinctMembers(LoadedMembers(ms, d))
    decreases ms
  {
    if ms.Pair? {
      LoadedIsDistinct(ms.value);
      PutKeepsDistinct(d, ms.key, Loaded(ms.value));
      LoadedMembersAreDistinct(ms.more, Put(d, ms.key, Loaded(ms.value)));
    }
  }

  function Append(a: Members, b: Members): Members {
    match a
    case NoMember => b
    case Pair(k, v, more) => Pair(k, v, Append(more, b))
  }

  lemma {:induction false} PutAppends(d: Members, key: string, v: Json, more: Members)
    requires !HasKey(d, key)
    ensures Append(Put(d, key, v), more) == Append(d, Pair(key, v, more))
  {
    if d.Pair? { PutAppends(d.more, key, v, more); }
  }

  /** Reading changes a value exactly when one of its objects names a key twice. */
  lemma {:induction false} LoadedExactlyWhen(v: Json)
    ensures Loaded(v) == v <==> Distinct(v)
  {
    if Distinct(v) { DistinctIsLoaded(v); } else { LoadedIsDistinct(v); }
  }

  lemma {:induction false} DistinctIsLoaded(v: Json)
    requires Distinct(v)
    ensures Loaded(v) == v
    decreases v
  {
    match v
    case List(items) => DistinctItemsAreLoaded(items);
    case Object(ms) => DistinctMembersAreLoaded(ms, NoMember);
    case _ =>
  }

  lemma {:induction false} DistinctItemsAreLoaded(items: Items)
    requires DistinctItems(items)
    ensures LoadedItems(items) == items
    decreases items
  {
    if items.Item? {
      DistinctIsLoaded(items.head);
      DistinctItemsAreLoaded(items.rest);
    }
  }

  lemma {:induction false} DistinctMembersAreLoaded(ms: Members, d: Members)
    requires DistinctMembers(ms) && DistinctMembers(d) && forall k :: HasKey(d, k) ==> !HasKey(ms, k)
    ensures LoadedMembers(ms, d) == Append(d, ms)
    decreases ms
  {
    if ms.NoMember? {
      AppendNothing(d);
    } else {
      DistinctIsLoaded(ms.value);
      PutKeepsDistinct(d, ms.key, ms.value);
      assert HasKey(ms, ms.key);
      DistinctMembersAreLoaded(ms.more, Put(d, ms.key, ms.value));
      PutAppends(d, ms.key, ms.value, ms.more);
    }
  }

  lemma {:induction false} AppendNothing(d: Members)
    ensures Append(d, NoMember) == d
  {
    if d.Pair? { AppendNothing(d.more); }
  }
}
