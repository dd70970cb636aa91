/** What the cache may return, over every interleaving, and which calls share a key. */
module CacheTransparency {
  import opened Common
  import opened Joined
  import opened ReadThroughCache

  /** `w` is a write of what the function returned for arguments with this key. */
  ghost predicate WriteOk<A, V>(cfg: Config<A, V>, s: State<A, V>, w: nat)
    requires w < |s.writes|
  {
    var write := s.writes[w];
    && write.ranBy < |s.runs|
    && s.runs[write.ranBy].value == write.value
    && cfg.keyOf(s.runs[write.ranBy].args) == write.key
    && write.at <= s.clock
  }

  ghost predicate CellOk<A, V>(cfg: Config<A, V>, s: State<A, V>, key: string)
    requires key in s.store
  {
    var cell := s.store[key];
    && cell.writtenBy < |s.writes|
    && s.writes[cell.writtenBy].key == key
    && cfg.codec.ser(s.writes[cell.writtenBy].value) == Some(cell.data)
    && cell.expiry == s.writes[cell.writtenBy].at + cfg.ttl
  }

  /** A returned value comes from this call's own execution, or is the round trip of a
      value that an execution with the same key returned and that was written less than
      `ttl` before it was read. */
  ghost predicate CallOk<A, V>(cfg: Config<A, V>, s: State<A, V>, id: nat)
    requires id in s.calls
  {
    match s.calls[id]
    case Returned(args, value, Own(ran)) =>
      ran < |s.runs| && s.runs[ran] == Ran(id, args, value)
    case Returned(args, value, Cached(w, at)) =>
      && w < |s.writes|
      && s.writes[w].ranBy < |s.runs|
      && cfg.keyOf(s.runs[s.writes[w].ranBy].args) == cfg.keyOf(args)
      && s.runs[s.writes[w].ranBy].value == s.writes[w].value
      && s.writes[w].at <= at < s.writes[w].at + cfg.ttl
      && cfg.codec.ser(s.writes[w].value).Some?
      && cfg.codec.deser(cfg.codec.ser(s.writes[w].value).value) == Some(value)
    case Storing(args, value, ran) =>
      ran < |s.runs| && s.runs[ran] == Ran(id, args, value)
    case _ => true
  }

  ghost predicate Inv<A(!new), V(!new)>(cfg: Config<A, V>, s: State<A, V>) {
    && (forall w :: 0 <= w < |s.writes| ==> WriteOk(cfg, s, w))
    && (forall key :: key in s.store ==> CellOk(cfg, s, key))
    && (forall id :: id in s.calls ==> CallOk(cfg, s, id))
  }

  lemma GetKeeps<A(!new), V(!new)>(cfg: Config<A, V>, s: State<A, V>, id: nat, reply: Reply)
    requires Inv(cfg, s) && id in s.calls && s.calls[id].Getting?
    ensures Inv(cfg, GetStep(cfg, s, id, reply))
  {
    var s' := GetStep(cfg, s, id, reply);
    var key := cfg.keyOf(s.calls[id].args);
    forall w | 0 <= w < |s'.writes| ensures WriteOk(cfg, s', w) { assert WriteOk(cfg, s, w); }
    forall k | k in s'.store ensures CellOk(cfg, s', k) { assert CellOk(cfg, s, k); }
    forall other | other in s'.calls ensures CallOk(cfg, s', other) {
      if other != id {
        assert CallOk(cfg, s, other);
      } else if s'.calls[id].Returned? {
        assert CellOk(cfg, s, key);
        assert WriteOk(cfg, s, s.store[key].writtenBy);
      }
    }
  }

  lemma ExecuteKeeps<A(!new), V(!new)>(cfg: Config<A, V>, s: State<A, V>, id: nat, result: Option<V>)
    requires Inv(cfg, s) && id in s.calls && s.calls[id].Running?
    ensures Inv(cfg, ExecuteStep(s, id, result))
  {
    var s' := ExecuteStep(s, id, result);
    forall w | 0 <= w < |s'.writes| ensures WriteOk(cfg, s', w) { assert WriteOk(cfg, s, w); }
    forall k | k in s'.store ensures CellOk(cfg, s', k) { assert CellOk(cfg, s, k); }
    forall other | other in s'.calls ensures CallOk(cfg, s', other) {
      if other != id { assert CallOk(cfg, s, other); }
    }
  }

  lemma SetKeeps<A(!new), V(!new)>(cfg: Config<A, V>, s: State<A, V>, id: nat, reply: Reply)
    requires Inv(cfg, s) && id in s.calls && s.calls[id].Storing?
    ensures Inv(cfg, SetStep(cfg, s, id, reply))
  {
    var s' := SetStep(cfg, s, id, reply);
    assert CallOk(cfg, s, id);
    forall w | 0 <= w < |s'.writes| ensures WriteOk(cfg, s', w) {
      if w < |s.writes| { assert WriteOk(cfg, s, w); }
    }
    forall k | k in s'.store ensures CellOk(cfg, s', k) {
      if k in s.store { assert CellOk(cfg, s, k); }
    }
    forall other | other in s'.calls ensures CallOk(cfg, s', other) {
      if other != id { assert CallOk(cfg, s, other); }
    }
  }

  lemma StepKeeps<A(!new), V(!new)>(cfg: Config<A, V>, s: State<A, V>, a: Action<A, V>)
    requires Inv(cfg, s)
    ensures Inv(cfg, Step(cfg, s, a))
  {
    match a
    case Get(id, reply) => if id in s.calls && s.calls[id].Getting? { GetKeeps(cfg, s, id, reply); }
    case Execute(id, result) => if id in s.calls && s.calls[id].Running? { ExecuteKeeps(cfg, s, id, result); }
    case Set(id, reply) => if id in s.calls && s.calls[id].Storing? { SetKeeps(cfg, s, id, reply); }
    case _ =>
      var s' := Step(cfg, s, a);
      forall w | 0 <= w < |s'.writes| ensures WriteOk(cfg, s', w) { assert WriteOk(cfg, s, w); }
      forall k | k in s'.store ensures CellOk(cfg, s', k) { assert CellOk(cfg, s, k); }
      forall id | id in s'.calls ensures CallOk(cfg, s', id) {
        if id in s.calls { assert CallOk(cfg, s, id); }
      }
  }

  lemma {:induction false} RunKeeps<A(!new), V(!new)>(cfg: Config<A, V>, actions: seq<Action<A, V>>)
    ensures Inv(cfg, Run(cfg, actions))
  {
    if actions != [] {
      RunKeeps(cfg, actions[..|actions| - 1]);
      StepKeeps(cfg, Run(cfg, actions[..|actions| - 1]), actions[|actions| - 1]);
    }
  }

  /** Every returned value is accounted for, whatever interleaving, failures, invalidations
      and expiries happened. */
  lemma ReturnedValuesHaveASource<A(!new), V(!new)>(cfg: Config<A, V>, actions: seq<Action<A, V>>, id: nat)
    requires id in Run(cfg, actions).calls && Run(cfg, actions).calls[id].Returned?
    ensures CallOk(cfg, Run(cfg, actions), id)
  {
    RunKeeps(cfg, actions);
  }

  // ------------------------------------------------------------------ transparency

  /** Every execution in the schedule returns what `f` says for its arguments. */
  ghost predicate Computes<A(!new), V(!new)>(s: State<A, V>, f: A -> V) {
    forall i :: 0 <= i < |s.runs| ==> s.runs[i].value == f(s.runs[i].args)
  }

  /** Values of `f` that can be written survive the codec. */
  ghost predicate RoundTrips<A(!new), V(!new)>(cfg: Config<A, V>, f: A -> V) {
    forall a: A :: cfg.codec.ser(f(a)).Some? ==> cfg.codec.deser(cfg.codec.ser(f(a)).value) == Some(f(a))
  }

  /** The result depends on nothing but the cache key. */
  ghost predicate DependsOnKey<A(!new), V(!new)>(cfg: Config<A, V>, f: A -> V) {
    forall a: A, b: A :: cfg.keyOf(a) == cfg.keyOf(b) ==> f(a) == f(b)
  }

  /** If the function's result depends only on the key and its values round-trip, the cached
      function cannot be told from the function. */
  lemma CacheIsTransparent<A(!new), V(!new)>(cfg: Config<A, V>, actions: seq<Action<A, V>>, f: A -> V, id: nat)
    requires DependsOnKey(cfg, f) && RoundTrips(cfg, f)
    requires Computes(Run(cfg, actions), f)
    requires id in Run(cfg, actions).calls && Run(cfg, actions).calls[id].Returned?
    ensures Run(cfg, actions).calls[id].value == f(Run(cfg, actions).calls[id].args)
  {
    RunKeeps(cfg, actions);
    var s := Run(cfg, actions);
    assert CallOk(cfg, s, id);
    match s.calls[id].source
    case Own(ran) =>
    case Cached(w, _) =>
      var source := s.runs[s.writes[w].ranBy];
      assert source.value == f(source.args);
  }

  // -------------------------------------------------------------------------- keys

  /** `":".join(parts)`, with "default" for no parts. */
  function Join(parts: seq<string>): string {
    if parts == [] then "" else if |parts| == 1 then parts[0] else parts[0] + ":" + Join(parts[1..])
  }

  function DefaultKey(parts: seq<string>): string {
    if parts == [] then "default" else Join(parts)
  }

  predicate AllColonFree(parts: seq<string>) {
    forall i :: 0 <= i < |parts| ==> ColonFree(parts[i])
  }

  lemma JoinHasColon(parts: seq<string>)
    requires |parts| >= 2
    ensures ':' in Join(parts)
  {
    assert Join(parts)[|parts[0]|] == ':';
  }

  lemma {:induction false} JoinsAreDistinct(p: seq<string>, q: seq<string>)
    requires AllColonFree(p) && AllColonFree(q) && p != [] && q != [] && Join(p) == Join(q)
    ensures p == q
  {
    if |p| >= 2 { JoinHasColon(p); }
    if |q| >= 2 { JoinHasColon(q); }
    if |p| >= 2 && |q| >= 2 {
      SplitAtFirst(p[0], Join(p[1..]), q[0], Join(q[1..]));
      JoinsAreDistinct(p[1..], q[1..]);
      assert p == [p[0]] + p[1..] && q == [q[0]] + q[1..];
    }
  }

  /** Calls whose argument texts hold no colon share a key only if the texts agree, one by
      one, except that no argument at all looks like the single argument "default". */
  lemma KeysAreDistinct(p: seq<string>, q: seq<string>)
    requires AllColonFree(p) && AllColonFree(q)
    ensures DefaultKey(p) == DefaultKey(q) <==>
            p == q || (p == [] && q == ["default"]) || (q == [] && p == ["default"])
  {
    if DefaultKey(p) == DefaultKey(q) {
      if p != [] && q != [] {
        JoinsAreDistinct(p, q);
      } else if p != [] {
        JoinsAreDistinct(p, ["default"]);
      } else if q != [] {
        JoinsAreDistinct(["default"], q);
      }
    }
  }

  /** In general keys are not injective. */
  lemma KeysCollide()
    ensures DefaultKey(["a:b"]) == DefaultKey(["a", "b"]) && DefaultKey([]) == DefaultKey(["default"])
  {
    assert ["a", "b"][1..] == ["b"];
    assert "a" + ":" + "b" == "a:b";
  }
}
