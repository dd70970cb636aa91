/**
  When the cache saves a call: what was stored is found again until its time is over, unless
  its key is written or invalidated in between.
 */
module CacheHits {
  import opened Common
  import opened ReadThroughCache

  // ------------------------------------------------------------------------ one look-up

  /** The cell can answer: it is there, not expired, and readable. */
  predicate Answers<A, V>(cfg: Config<A, V>, s: State<A, V>, key: string) {
    key in s.store && s.clock < s.store[key].expiry && cfg.codec.deser(s.store[key].data).Some?
  }

  /** Redis answers and the cell can too: then, and only then, the caller has its value at
      once. Otherwise it goes on to run the function. Nothing else changes. */
  lemma HitExactlyWhen<A(!new), V(!new)>(cfg: Config<A, V>, s: State<A, V>, id: nat, reply: Reply)
    requires id in s.calls && s.calls[id].Getting?
    ensures var s' := Step(cfg, s, Get(id, reply));
            var key := cfg.keyOf(s.calls[id].args);
            && s'.runs == s.runs && s'.store == s.store && s'.writes == s.writes && s'.clock == s.clock
            && id in s'.calls && (s'.calls[id].Returned? <==> reply.Good? && Answers(cfg, s, key))
            && s'.calls[id].args == s.calls[id].args
            && (s'.calls[id].Returned? ==> Some(s'.calls[id].value) == cfg.codec.deser(s.store[key].data))
            && (!s'.calls[id].Returned? ==> s'.calls[id].Running?)
            && s'.calls == s.calls[id := s'.calls[id]]
  {}

  // --------------------------------------------------------------------- stored and found

  /** The action may change the cell of this key. */
  predicate Touches<A, V>(cfg: Config<A, V>, s: State<A, V>, a: Action<A, V>, key: string) {
    || (a.Set? && a.id in s.calls && s.calls[a.id].Storing? && cfg.keyOf(s.calls[a.id].args) == key)
    || (a.Invalidate? && key in a.keys)
  }

  lemma UntouchedStays<A(!new), V(!new)>(cfg: Config<A, V>, s: State<A, V>, a: Action<A, V>, key: string)
    requires !Touches(cfg, s, a, key)
    ensures var s' := Step(cfg, s, a);
            && (key in s'.store <==> key in s.store) && (key in s.store ==> s'.store[key] == s.store[key])
            && s.clock <= s'.clock
  {}

  /** From action `n` on nobody touches the key. */
  ghost predicate UntouchedFrom<A(!new), V(!new)>(cfg: Config<A, V>, actions: seq<Action<A, V>>, n: nat, key: string) {
    forall m :: n <= m < |actions| ==> !Touches(cfg, Run(cfg, actions[..m]), actions[m], key)
  }

  lemma {:induction false} CellStays<A(!new), V(!new)>(cfg: Config<A, V>, actions: seq<Action<A, V>>, n: nat,
                                                       key: string)
    requires n <= |actions| && UntouchedFrom(cfg, actions, n, key)
    ensures var (s, s') := (Run(cfg, actions[..n]), Run(cfg, actions));
            && (key in s'.store <==> key in s.store) && (key in s.store ==> s'.store[key] == s.store[key])
  {
    hide Step, Touches;
    if n == |actions| {
      assert actions[..n] == actions;
    } else {
      var init := actions[..|actions| - 1];
      forall m | n <= m < |init| ensures !Touches(cfg, Run(cfg, init[..m]), init[m], key) {
        assert init[..m] == actions[..m];
      }
      CellStays(cfg, init, n, key);
      assert init[..n] == actions[..n];
      UntouchedStays(cfg, Run(cfg, init), actions[|init|], key);
    }
  }

  /** The `n`-th action stores the value of a call under its key. */
  predicate Stores<A, V>(cfg: Config<A, V>, actions: seq<Action<A, V>>, n: nat, key: string, data: string) {
    && n < |actions| && actions[n].Set? && actions[n].reply.Good? && cfg.ttl > 0.0
    && var s := Run(cfg, actions[..n]);
       && actions[n].id in s.calls && s.calls[actions[n].id].Storing?
       && cfg.keyOf(s.calls[actions[n].id].args) == key
       && cfg.codec.ser(s.calls[actions[n].id].value) == Some(data)
  }

  lemma StoredCell<A(!new), V(!new)>(cfg: Config<A, V>, actions: seq<Action<A, V>>, n: nat, key: string, data: string)
    requires Stores(cfg, actions, n, key, data)
    ensures var (s, s') := (Run(cfg, actions[..n]), Run(cfg, actions[..n + 1]));
            key in s'.store && s'.store[key].data == data && s'.store[key].expiry == s.clock + cfg.ttl
  {
    assert actions[..n + 1][..n] == actions[..n];
  }

  /** A value that was stored is found: whoever asks for its key less than `ttl` later gets
      what the codec reads back, without running the function, whatever else happened in
      between that did not touch the key. */
  lemma StoredIsFound<A(!new), V(!new)>(cfg: Config<A, V>, actions: seq<Action<A, V>>, n: nat, key: string,
                                        data: string, id: nat)
    requires n < |actions| && Stores(cfg, actions, n, key, data) && UntouchedFrom(cfg, actions, n + 1, key)
    requires Run(cfg, actions).clock < Run(cfg, actions[..n]).clock + cfg.ttl
    requires id in Run(cfg, actions).calls && Run(cfg, actions).calls[id].Getting?
    requires cfg.keyOf(Run(cfg, actions).calls[id].args) == key && cfg.codec.deser(data).Some?
    ensures var s' := Step(cfg, Run(cfg, actions), Get(id, Good));
            && id in s'.calls && s'.calls[id].Returned? && Some(s'.calls[id].value) == cfg.codec.deser(data)
            && s'.runs == Run(cfg, actions).runs
  {
    hide Run, Step, Stores, UntouchedFrom;
    StoredCell(cfg, actions, n, key, data);
    CellStays(cfg, actions, n + 1, key);
    HitExactlyWhen(cfg, Run(cfg, actions), id, Good);
  }

  /** After an invalidation nobody is answered from the store until the key is written again. */
  lemma InvalidatedIsGone<A(!new), V(!new)>(cfg: Config<A, V>, actions: seq<Action<A, V>>, n: nat, key: string,
                                            id: nat, reply: Reply)
    requires n < |actions| && actions[n].Invalidate? && key in actions[n].keys
    requires UntouchedFrom(cfg, actions, n + 1, key)
    requires id in Run(cfg, actions).calls && Run(cfg, actions).calls[id].Getting?
    requires cfg.keyOf(Run(cfg, actions).calls[id].args) == key
    ensures var s' := Step(cfg, Run(cfg, actions), Get(id, reply)); id in s'.calls && s'.calls[id].Running?
  {
    hide Run, Step, UntouchedFrom;
    GoneAtOnce(cfg, actions, n, key);
    CellStays(cfg, actions, n + 1, key);
    HitExactlyWhen(cfg, Run(cfg, actions), id, reply);
  }

  lemma GoneAtOnce<A(!new), V(!new)>(cfg: Config<A, V>, actions: seq<Action<A, V>>, n: nat, key: string)
    requires n < |actions| && actions[n].Invalidate? && key in actions[n].keys
    ensures key !in Run(cfg, actions[..n + 1]).store
  {
    assert actions[..n + 1][..n] == actions[..n];
  }

  // ---------------------------------------------------------------------- every call

  /** The call was made with these arguments, and raised only what its function raised. */
  ghost predicate CalledWith<A(!new), V(!new)>(actions: seq<Action<A, V>>, id: nat, c: Call<A, V>) {
    && (exists n :: 0 <= n < |actions| && actions[n] == Invoke(id, c.args))
    && (c.Raised? ==> exists n :: 0 <= n < |actions| && actions[n] == Execute(id, None))
    && (c.Storing? ==> exists n :: 0 <= n < |actions| && actions[n] == Execute(id, Some(c.value)))
    && (c.Returned? && c.source.Own? ==> exists n :: 0 <= n < |actions| && actions[n] == Execute(id, Some(c.value)))
  }

  lemma StillCalledWith<A(!new), V(!new)>(init: seq<Action<A, V>>, a: Action<A, V>, id: nat, c: Call<A, V>)
    requires CalledWith(init, id, c)
    ensures CalledWith(init + [a], id, c)
  {
    var more := init + [a];
    assert forall n :: 0 <= n < |init| ==> more[n] == init[n];
    var n :| 0 <= n < |init| && init[n] == Invoke(id, c.args);
    assert more[n] == init[n];
    if c.Raised? {
      var m :| 0 <= m < |init| && init[m] == Execute(id, None);
      assert more[m] == init[m];
    }
    if c.Storing? || (c.Returned? && c.source.Own?) {
      var m :| 0 <= m < |init| && init[m] == Execute(id, Some(c.value));
      assert more[m] == init[m];
    }
  }

  /** How an action may change a call. */
  predicate Moves<A(==), V(==)>(a: Action<A, V>, id: nat, c: Call<A, V>, c': Call<A, V>) {
    c' == c || (c'.args == c.args &&
                (|| (a.Get? && a.id == id && c.Getting? && (c'.Running? || (c'.Returned? && c'.source.Cached?)))
                 || (a == Execute(id, None) && c.Running? && c'.Raised?)
                 || (c.Running? && c'.Storing? && a == Execute(id, Some(c'.value)))
                 || (a.Set? && a.id == id && c.Storing? && c'.Returned? && c'.source.Own? && c'.value == c.value)))
  }

  lemma CallMoves<A(!new), V(!new)>(cfg: Config<A, V>, s: State<A, V>, a: Action<A, V>, id: nat)
    requires id in Step(cfg, s, a).calls
    ensures var c' := Step(cfg, s, a).calls[id];
            if id in s.calls then Moves(a, id, s.calls[id], c') else a == Invoke(id, c'.args) && c'.Getting?
  {}

  /** For every run: a call answers for the arguments it was invoked with; if it raises, its own
      execution of the function raised; and if its answer is not from the store, its own
      execution returned it. Failures of Redis never surface. */
  lemma {:induction false} CallsAnswerForTheirArguments<A(!new), V(!new)>(cfg: Config<A, V>,
                                                                         actions: seq<Action<A, V>>, id: nat)
    requires id in Run(cfg, actions).calls
    ensures CalledWith(actions, id, Run(cfg, actions).calls[id])
  {
    hide Step, CalledWith;
    var init, a := actions[..|actions| - 1], actions[|actions| - 1];
    var s := Run(cfg, init);
    assert actions == init + [a];
    CallMoves(cfg, s, a, id);
    if id in s.calls {
      CallsAnswerForTheirArguments(cfg, init, id);
      MovedCalledWith(init, a, id, s.calls[id], Run(cfg, actions).calls[id]);
    } else {
      FirstCalledWith(init, a, id, Run(cfg, actions).calls[id]);
    }
  }

  lemma FirstCalledWith<A(!new), V(!new)>(init: seq<Action<A, V>>, a: Action<A, V>, id: nat, c: Call<A, V>)
    requires a == Invoke(id, c.args) && c.Getting?
    ensures CalledWith(init + [a], id, c)
  {
    assert (init + [a])[|init|] == a;
  }

  lemma MovedCalledWith<A(!new), V(!new)>(init: seq<Action<A, V>>, a: Action<A, V>, id: nat,
                                          c: Call<A, V>, c': Call<A, V>)
    requires CalledWith(init, id, c)
    requires Moves(a, id, c, c')
    ensures CalledWith(init + [a], id, c')
  {
    StillCalledWith(init, a, id, c);
    assert (init + [a])[|init|] == a;
  }
}
