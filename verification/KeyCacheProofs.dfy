/** Every step of a run keeps the invariant. */
module KeyCacheProofs {
  import opened Texts
  import opened KeyCache
  import opened KeyCacheRuns

  /** A verdict that the state of the cache at `now` bears out, for a call of this kind. */
  ghost predicate Justified(cfg: Config, c: Cache, kind: Kind, v: Verdict, now: real) {
    match v
    case Return(key) => kind.Resolve? && kind.kid in c.keys && c.keys[kind.kid] == key
    case Raise(_) => kind.Resolve? && kind.kid !in c.keys
    case Wait => kind.Resolve? && kind.kid !in c.keys && c.refreshing
    case Answer(ready) => kind.Probe? && (ready <==> Usable(cfg, c, now))
    case Claim => !c.refreshing && (c.lastFetch.At? ==> c.lastFetch.time + Spacing(cfg) <= now)
  }

  lemma EnterResolveJustified(cfg: Config, c: Cache, kid: Text, now: real, later: real)
    requires c.lastFetch.At? ==> c.lastFetch.time <= now <= later
    ensures Justified(cfg, c, Resolve(kid), EnterResolve(cfg, c, kid, now, later), later)
  {}

  lemma WakeResolveJustified(cfg: Config, c: Cache, kid: Text, now: real)
    requires c.lastFetch.At? ==> c.lastFetch.time <= now
    ensures Justified(cfg, c, Resolve(kid), WakeResolve(cfg, c, kid, now), now)
  {}

  lemma EnterReadyJustified(cfg: Config, c: Cache, now: real)
    ensures Justified(cfg, c, Probe, EnterReady(cfg, c, now), now)
  {}

  // ----- history only grows -----

  ghost predicate LogExtends(a: seq<Published>, b: seq<Published>) {
    |a| <= |b| && forall i | 0 <= i < |a| :: b[i] == a[i]
  }

  /** Same owners, and closed spans stay as they are. */
  ghost predicate SpansExtend(a: seq<Span>, b: seq<Span>) {
    |a| <= |b| &&
    forall i | 0 <= i < |a| :: b[i].owner == a[i].owner && (a[i].close.Some? ==> b[i] == a[i])
  }

  lemma SteadyExtends(a: seq<Published>, b: seq<Published>, kid: Text, from: nat, to: nat)
    requires LogExtends(a, b) && to <= |a|
    ensures Steady(a, kid, from, to) <==> Steady(b, kid, from, to)
  {
    assert forall n: nat | n <= |a| :: DocAt(a, n) == DocAt(b, n);
  }

  /** What holds of a call stays true as the history grows, as long as its own span is not
      the one that just closed. */
  lemma CallFrame(cfg: Config, log: seq<Published>, spans: seq<Span>, log': seq<Published>, spans': seq<Span>, i: nat, call: Call)
    requires CallOk(cfg, log, spans, i, call)
    requires LogExtends(log, log') && SpansExtend(spans, spans')
    requires call.pc.Fetching? ==> spans'[call.fetch.value].close.None?
    ensures CallOk(cfg, log', spans', i, call)
  {
    match call.pc
    case Waiting(_, _) =>
      SteadyExtends(log, log', call.kind.kid, call.begin, |log|);
      assert !Steady(log', call.kind.kid, call.begin, |log|);
    case Done(_, _, end) =>
      assert DocAt(log, end) == DocAt(log', end);
      if call.kind.Resolve? {
        SteadyExtends(log, log', call.kind.kid, call.begin, end);
      }
    case _ =>
  }

  // ----- landing -----

  /** `c` is about to leave a section that the rest of the world has not seen begin. */
  ghost predicate Landing(cfg: Config, w: World, c: nat) {
    c < |w.calls| && w.calls[c].fetch.None? && (w.calls[c].pc.Running? || w.calls[c].pc.Waiting?)
  }

  lemma LandCall(cfg: Config, w: World, c: nat, v: Verdict, now: real)
    requires Inv(cfg, w) && Landing(cfg, w, c) && w.clock <= now
    requires Justified(cfg, w.cache, w.calls[c].kind, v, now)
    requires v.Answer? ==> w.calls[c].begin == |w.log|
    ensures CallOk(cfg, Land(w, c, v, now).log, Land(w, c, v, now).spans, c, Land(w, c, v, now).calls[c])
  {
    var kind := w.calls[c].kind;
    assert w.cache.keys == DocAt(w.log, |w.log|);
    match v
    case Raise(_) => assert !Steady(w.log, kind.kid, w.calls[c].begin, |w.log|);
    case Wait => assert !Steady(w.log, kind.kid, w.calls[c].begin, |w.log|);
    case Answer(ready) =>
      if w.cache.keys != map[] {
        assert LastUsable(w.log) == At(w.log[|w.log| - 1].at);
      }
    case _ =>
  }

  lemma LandKeepsCalls(cfg: Config, w: World, c: nat, v: Verdict, now: real)
    requires Inv(cfg, w) && Landing(cfg, w, c) && w.clock <= now
    requires Justified(cfg, w.cache, w.calls[c].kind, v, now)
    requires v.Answer? ==> w.calls[c].begin == |w.log|
    ensures CallsOk(cfg, Land(w, c, v, now))
  {
    var w' := Land(w, c, v, now);
    LandCall(cfg, w, c, v, now);
    forall i | 0 <= i < |w'.calls| ensures CallOk(cfg, w'.log, w'.spans, i, w'.calls[i]) {
      if i != c {
        assert CallOk(cfg, w.log, w.spans, i, w.calls[i]);
        CallFrame(cfg, w.log, w.spans, w'.log, w'.spans, i, w.calls[i]);
      }
    }
  }

  lemma ClaimKeepsSpans(cfg: Config, w: World, c: nat, now: real)
    requires Inv(cfg, w) && Landing(cfg, w, c) && w.clock <= now
    requires Justified(cfg, w.cache, w.calls[c].kind, Claim, now)
    ensures SpansOk(cfg, Land(w, c, Claim, now))
  {
    var w' := Land(w, c, Claim, now);
    var n := |w.spans|;
    assert forall i | 0 <= i < n :: w'.spans[i] == w.spans[i];
    forall i | 0 <= i < n ensures Apart(cfg, w.spans[i], w'.spans[n]) {
      if i < n - 1 {
        assert Apart(cfg, w.spans[i], w.spans[n - 1]);
      }
    }
  }

  lemma ClaimKeepsRest(cfg: Config, w: World, c: nat, now: real)
    requires Inv(cfg, w) && Landing(cfg, w, c) && w.clock <= now
    requires Justified(cfg, w.cache, w.calls[c].kind, Claim, now)
    ensures CacheOk(Land(w, c, Claim, now)) && FlightOk(Land(w, c, Claim, now))
  {
    var w' := Land(w, c, Claim, now);
    forall i | 0 <= i < |w.spans| ensures w.spans[i].owner != c && w'.spans[i] == w.spans[i] {}
  }

  lemma LandKeepsRest(cfg: Config, w: World, c: nat, v: Verdict, now: real)
    requires Inv(cfg, w) && Landing(cfg, w, c) && w.clock <= now
    requires Justified(cfg, w.cache, w.calls[c].kind, v, now)
    ensures CacheOk(Land(w, c, v, now)) && FlightOk(Land(w, c, v, now)) && SpansOk(cfg, Land(w, c, v, now))
  {
    if v.Claim? {
      ClaimKeepsSpans(cfg, w, c, now);
      ClaimKeepsRest(cfg, w, c, now);
    } else {
      forall i | 0 <= i < |w.spans| ensures w.spans[i].owner != c {}
    }
  }

  lemma LandKeepsInv(cfg: Config, w: World, c: nat, v: Verdict, now: real)
    requires Inv(cfg, w) && Landing(cfg, w, c) && w.clock <= now
    requires Justified(cfg, w.cache, w.calls[c].kind, v, now)
    requires v.Answer? ==> w.calls[c].begin == |w.log|
    ensures Inv(cfg, Land(w, c, v, now))
  {
    LandKeepsCalls(cfg, w, c, v, now);
    LandKeepsRest(cfg, w, c, v, now);
  }

  lemma SpawnKeepsInv(cfg: Config, w: World, kind: Kind)
    requires Inv(cfg, w)
    ensures Inv(cfg, Spawn(w, kind)) && Landing(cfg, Spawn(w, kind), |w.calls|)
  {
    var w' := Spawn(w, kind);
    assert forall i | 0 <= i < |w.calls| :: w'.calls[i] == w.calls[i];
  }

  // ----- committing -----

  lemma ConcludeKeepsCache(cfg: Config, w: World, c: nat, o: Outcome, now: real)
    requires Inv(cfg, w) && c < |w.calls| && w.calls[c].pc.Fetching? && w.calls[c].fetch.Some? && w.clock <= now
    ensures w.calls[c].fetch == Some(|w.spans| - 1)
    ensures CacheOk(Conclude(w, c, o, now)) && SpansOk(cfg, Conclude(w, c, o, now))
  {
    var w' := Conclude(w, c, o, now);
    assert CallOk(cfg, w.log, w.spans, c, w.calls[c]);
    match o {
      case Failure =>
      case Document(keys) => assert w'.log[..|w'.log| - 1] == w.log;
    }
    forall i, k | 0 <= i < k < |w'.spans| ensures Apart(cfg, w'.spans[i], w'.spans[k]) {
      assert Apart(cfg, w.spans[i], w.spans[k]);
    }
  }

  lemma ConcludeKeepsFlight(cfg: Config, w: World, c: nat, o: Outcome, now: real)
    requires Inv(cfg, w) && c < |w.calls| && w.calls[c].pc.Fetching? && w.calls[c].fetch.Some?
    ensures FlightOk(Conclude(w, c, o, now))
  {
    var w' := Conclude(w, c, o, now);
    assert CallOk(cfg, w.log, w.spans, c, w.calls[c]);
    forall i | 0 <= i < |w.calls| && w.calls[i].pc.Fetching? ensures i == c {
      assert CallOk(cfg, w.log, w.spans, i, w.calls[i]);
    }
  }

  lemma ConcludedCallOk(cfg: Config, w: World, c: nat, o: Outcome, now: real)
    requires Inv(cfg, w) && c < |w.calls| && w.calls[c].pc.Fetching? && w.calls[c].fetch.Some?
    ensures var w' := Conclude(w, c, o, now); CallOk(cfg, w'.log, w'.spans, c, w'.calls[c])
  {
    var w' := Conclude(w, c, o, now);
    var call := w.calls[c];
    assert CallOk(cfg, w.log, w.spans, c, call);
    if call.kind.Resolve? && o == Document(map[]) {
      assert call.kind.kid !in DocAt(w'.log, |w'.log|);
      assert !Steady(w'.log, call.kind.kid, call.begin, |w'.log|);
    }
  }

  lemma ConcludeKeepsCalls(cfg: Config, w: World, c: nat, o: Outcome, now: real)
    requires Inv(cfg, w) && c < |w.calls| && w.calls[c].pc.Fetching? && w.calls[c].fetch.Some?
    ensures CallsOk(cfg, Conclude(w, c, o, now))
  {
    var w' := Conclude(w, c, o, now);
    assert CallOk(cfg, w.log, w.spans, c, w.calls[c]);
    var call := w.calls[c];
    forall i | 0 <= i < |w'.calls| ensures CallOk(cfg, w'.log, w'.spans, i, w'.calls[i]) {
      if i != c {
        assert CallOk(cfg, w.log, w.spans, i, w.calls[i]);
        CallFrame(cfg, w.log, w.spans, w'.log, w'.spans, i, w.calls[i]);
      } else {
        ConcludedCallOk(cfg, w, c, o, now);
      }
    }
  }

  lemma SettleKeepsRest(cfg: Config, w: World, c: nat, v: Verdict, now: real)
    requires Inv(cfg, w) && c < |w.calls| && w.clock <= now
    requires w.calls[c].pc.Waiting? || w.calls[c].pc.Looking?
    requires v.Return? || v.Raise?
    ensures CacheOk(Land(w, c, v, now)) && FlightOk(Land(w, c, v, now)) && SpansOk(cfg, Land(w, c, v, now))
  {}

  /** A call that settles without claiming leaves everything but itself and the clock. */
  lemma SettleKeepsInv(cfg: Config, w: World, c: nat, v: Verdict, now: real)
    requires Inv(cfg, w) && c < |w.calls| && w.clock <= now
    requires w.calls[c].pc.Waiting? || w.calls[c].pc.Looking?
    requires v.Return? || v.Raise?
    requires CallOk(cfg, w.log, w.spans, c, Land(w, c, v, now).calls[c])
    ensures Inv(cfg, Land(w, c, v, now))
  {
    SettleKeepsRest(cfg, w, c, v, now);
  }

  lemma GiveUpKeepsInv(cfg: Config, w: World, c: nat, now: real)
    requires Inv(cfg, w) && Enabled(cfg, w, GiveUp(c, now))
    ensures Inv(cfg, Land(w, c, Raise(TimedOut), now))
  {
    assert CallOk(cfg, w.log, w.spans, c, w.calls[c]);
    SettleKeepsInv(cfg, w, c, Raise(TimedOut), now);
  }

  lemma LookKeepsInv(cfg: Config, w: World, c: nat, now: real)
    requires Inv(cfg, w) && Enabled(cfg, w, Look(c, now))
    ensures Inv(cfg, Apply(cfg, w, Look(c, now)))
  {
    var call := w.calls[c];
    assert CallOk(cfg, w.log, w.spans, c, call);
    var kid := call.kind.kid;
    assert w.cache.keys == DocAt(w.log, |w.log|);
    if kid !in w.cache.keys {
      assert !Steady(w.log, kid, call.begin, |w.log|);
    }
    SettleKeepsInv(cfg, w, c, FinalLookup(w.cache, kid), now);
  }

  /** Every enabled step keeps the invariant. */
  lemma StepKeepsInv(cfg: Config, w: World, s: Step)
    requires Inv(cfg, w) && Enabled(cfg, w, s)
    ensures Inv(cfg, Apply(cfg, w, s))
  {
    match s
    case BeginResolve(kid, now, later) =>
      SpawnKeepsInv(cfg, w, Resolve(kid));
      EnterResolveJustified(cfg, w.cache, kid, now, later);
      LandKeepsInv(cfg, Spawn(w, Resolve(kid)), |w.calls|, EnterResolve(cfg, w.cache, kid, now, later), later);
    case BeginReady(now) =>
      SpawnKeepsInv(cfg, w, Probe);
      EnterReadyJustified(cfg, w.cache, now);
      LandKeepsInv(cfg, Spawn(w, Probe), |w.calls|, EnterReady(cfg, w.cache, now), now);
    case Wake(c, now) =>
      assert CallOk(cfg, w.log, w.spans, c, w.calls[c]);
      WakeResolveJustified(cfg, w.cache, w.calls[c].kind.kid, now);
      LandKeepsInv(cfg, w, c, WakeResolve(cfg, w.cache, w.calls[c].kind.kid, now), now);
    case GiveUp(c, now) => GiveUpKeepsInv(cfg, w, c, now);
    case Finish(c, fetched, now) =>
      ConcludeKeepsCache(cfg, w, c, ParseJwks(fetched), now);
      ConcludeKeepsFlight(cfg, w, c, ParseJwks(fetched), now);
      ConcludeKeepsCalls(cfg, w, c, ParseJwks(fetched), now);
    case Look(c, now) => LookKeepsInv(cfg, w, c, now);
  }

  /** Every run keeps the invariant. */
  lemma {:induction false} RunKeepsInv(cfg: Config, steps: seq<Step>)
    requires Run(cfg, steps)
    ensures Inv(cfg, Exec(cfg, steps))
    decreases |steps|
  {
    if steps != [] {
      var front := steps[..|steps| - 1];
      RunKeepsInv(cfg, front);
      StepKeepsInv(cfg, Exec(cfg, front), steps[|steps| - 1]);
    }
  }
}
