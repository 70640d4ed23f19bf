/** What holds in every run of the key cache. */
module KeyCacheTheorems {
  import opened Texts
  import opened KeyCache
  import opened KeyCacheRuns
  import opened KeyCacheProofs

  // ----- single flight -----

  /** The flag is up exactly while some call is between claiming and committing a fetch;
      there is never more than one such call, counting both entry points; and no call ever
      owns two fetches. */
  lemma SingleFlight(cfg: Config, steps: seq<Step>)
    requires Run(cfg, steps)
    ensures var w := Exec(cfg, steps);
            (w.cache.refreshing <==> exists c | 0 <= c < |w.calls| :: w.calls[c].pc.Fetching?) &&
            (forall c, d | 0 <= c < |w.calls| && 0 <= d < |w.calls| ::
               w.calls[c].pc.Fetching? && w.calls[d].pc.Fetching? ==> c == d) &&
            (forall i, k | 0 <= i < |w.spans| && 0 <= k < |w.spans| :: w.spans[i].owner == w.spans[k].owner ==> i == k)
  {
    var w := Exec(cfg, steps);
    RunKeepsInv(cfg, steps);
    if w.cache.refreshing {
      assert ClosedSpans(w) >= 0;
      assert w.calls[w.spans[|w.spans| - 1].owner].pc.Fetching?;
    }
    forall c | 0 <= c < |w.calls| && w.calls[c].pc.Fetching?
      ensures |w.spans| > 0 && c == w.spans[|w.spans| - 1].owner
    {
      assert CallOk(cfg, w.log, w.spans, c, w.calls[c]);
    }
  }

  /** Nobody waits in vain: a waiting call has been notified, or a fetch is in flight whose
      commit, whatever it brings and whenever it comes, is enabled, clears the flag and
      notifies the call. */
  lemma NoLostWakeup(cfg: Config, steps: seq<Step>, c: nat) returns (owner: nat)
    requires Run(cfg, steps) && c < |Exec(cfg, steps).calls| && Exec(cfg, steps).calls[c].pc.Waiting?
    ensures var w := Exec(cfg, steps);
            w.calls[c].pc.notified ||
            forall fetched, now | w.clock <= now ::
              Enabled(cfg, w, Finish(owner, fetched, now)) &&
              var w' := Apply(cfg, w, Finish(owner, fetched, now));
              !w'.cache.refreshing && w'.calls[c].pc.Waiting? && w'.calls[c].pc.notified
  {
    var w := Exec(cfg, steps);
    RunKeepsInv(cfg, steps);
    owner := 0;
    if !w.calls[c].pc.notified {
      var last := |w.spans| - 1;
      assert ClosedSpans(w) >= 0;
      owner := w.spans[last].owner;
      forall fetched, now | w.clock <= now
        ensures Enabled(cfg, w, Finish(owner, fetched, now))
        ensures var w' := Apply(cfg, w, Finish(owner, fetched, now));
                !w'.cache.refreshing && w'.calls[c].pc.Waiting? && w'.calls[c].pc.notified
      {
        assert w.calls[owner].fetch == Some(last);
      }
    }
  }

  // ----- what a fetch brings -----

  /** Some key of the list has an id to be found by. */
  ghost predicate HasId(keys: seq<Jwk>) {
    exists i | 0 <= i < |keys| :: keys[i].keyId.Some? && keys[i].keyId.value != []
  }

  /** `key` is the last one in the list with this id. */
  ghost predicate LastWithId(keys: seq<Jwk>, kid: Text, key: Jwk) {
    exists i | 0 <= i < |keys| ::
      keys[i] == key && keys[i].keyId == Some(kid) && forall k | i < k < |keys| :: keys[k].keyId != Some(kid)
  }

  /** The keys of the cache are those of the list, each under its id. */
  ghost predicate Holds(cached: Keys, keys: seq<Jwk>) {
    forall kid ::
      (kid in cached <==> kid != [] && exists i | 0 <= i < |keys| :: keys[i].keyId == Some(kid)) &&
      (kid in cached ==> LastWithId(keys, kid, cached[kid]))
  }

  lemma KeyMapHolds(keys: seq<Jwk>)
    ensures Holds(KeyMap(keys), keys)
    ensures KeyMap(keys) != map[] <==> HasId(keys)
  {
    forall kid
      ensures kid in KeyMap(keys) <==> kid != [] && exists i | 0 <= i < |keys| :: keys[i].keyId == Some(kid)
      ensures kid in KeyMap(keys) ==> LastWithId(keys, kid, KeyMap(keys)[kid])
    {
      KeyMapMeaning(keys, kid);
    }
    if i :| 0 <= i < |keys| && keys[i].keyId.Some? && keys[i].keyId.value != [] {
      assert keys[i].keyId.value in KeyMap(keys);
    }
    if KeyMap(keys) != map[] {
      var kid :| kid in KeyMap(keys);
      var i :| 0 <= i < |keys| && keys[i].keyId == Some(kid);
      assert keys[i].keyId.value != [];
    }
  }

  /** What the end of a fetch does to the cache. A document with an empty key list evicts
      everything, one with keys replaces everything, and anything else changes no key; the
      attempt is dated on every outcome, and the success only if there are keys to use. */
  lemma FetchCommits(cfg: Config, w: World, c: nat, fetched: Fetched, now: real)
    requires Enabled(cfg, w, Finish(c, fetched, now))
    ensures var before, after := w.cache, Apply(cfg, w, Finish(c, fetched, now)).cache;
            var usable := fetched.KeySet? && HasId(fetched.keys);
            (fetched.Raised? ==> after.keys == before.keys) &&
            (fetched.NoKeys? ==> after.keys == map[]) &&
            (fetched.KeySet? ==> Holds(after.keys, fetched.keys)) &&
            !after.refreshing && after.lastFetch == At(now) &&
            after.lastSuccess == (if usable then At(now) else before.lastSuccess)
    ensures var w' := Apply(cfg, w, Finish(c, fetched, now));
            w'.log == if fetched.Raised? then w.log else w.log + [Published(w'.cache.keys, now)]
  {
    if fetched.KeySet? {
      KeyMapHolds(fetched.keys);
    }
  }

  /** What it does to the call that fetched: a `ready` call is told whether there are keys
      to use; a `_resolve_key` call goes on to look, or fails by what went wrong. */
  lemma FetchConcludes(cfg: Config, w: World, c: nat, fetched: Fetched, now: real)
    requires Enabled(cfg, w, Finish(c, fetched, now))
    ensures var w' := Apply(cfg, w, Finish(c, fetched, now));
            var usable := fetched.KeySet? && HasId(fetched.keys);
            w'.calls[c].pc ==
            if w.calls[c].kind.Probe? then Done(Ready(usable), now, |w'.log|)
            else if fetched.Raised? then Done(Error(RetrievalFailed), now, |w'.log|)
            else if usable then Looking
            else Done(Error(NoUsableKeys), now, |w'.log|)
    ensures var w' := Apply(cfg, w, Finish(c, fetched, now));
            |w'.calls| == |w.calls| &&
            forall d | 0 <= d < |w.calls| && d != c ::
              w'.calls[d] == if w.calls[d].pc.Waiting? then w.calls[d].(pc := w.calls[d].pc.(notified := true)) else w.calls[d]
  {
    if fetched.KeySet? {
      KeyMapHolds(fetched.keys);
    }
  }

  // ----- the cache refines its specification -----

  /** Only the commit of a well-formed document changes the keys. */
  lemma KeysAfterStep(cfg: Config, w: World, s: Step)
    requires Enabled(cfg, w, s)
    ensures Apply(cfg, w, s).cache.keys ==
            if s.Finish? && ParseJwks(s.fetched).Document? then ParseJwks(s.fetched).keys else w.cache.keys
  {}

  lemma {:induction false} CacheIsLastDocument(cfg: Config, steps: seq<Step>)
    requires Run(cfg, steps)
    ensures Exec(cfg, steps).cache.keys == LastDocument(steps)
    decreases |steps|
  {
    if steps != [] {
      var front := steps[..|steps| - 1];
      CacheIsLastDocument(cfg, front);
      KeysAfterStep(cfg, Exec(cfg, front), steps[|steps| - 1]);
    }
  }

  /** A step that ends a call dates its end by the documents committed by then, and a call
      that the step also began by those committed before. */
  lemma EndOfCall(cfg: Config, w: World, s: Step, c: nat)
    requires Enabled(cfg, w, s) && c < |Apply(cfg, w, s).calls| && Apply(cfg, w, s).calls[c].pc.Done?
    requires c < |w.calls| ==> !w.calls[c].pc.Done?
    ensures Apply(cfg, w, s).calls[c].pc.end == |Apply(cfg, w, s).log|
    ensures c >= |w.calls| ==> Apply(cfg, w, s).calls[c].begin == |w.log|
  {
    match s
    case BeginResolve(kid, now, later) =>
    case BeginReady(now) =>
    case _ =>
  }

  lemma KeyIsCurrent(cfg: Config, w: World, c: nat)
    requires Inv(cfg, w) && c < |w.calls| && w.calls[c].kind.Resolve?
    requires w.calls[c].pc.Done? && w.calls[c].pc.reply.Key? && w.calls[c].pc.end == |w.log|
    ensures w.calls[c].kind.kid in w.cache.keys && w.calls[c].pc.reply.key == w.cache.keys[w.calls[c].kind.kid]
  {
    assert CallOk(cfg, w.log, w.spans, c, w.calls[c]);
  }

  /** The step at which a call hands out a key: the key is the lookup of the kid in the
      last well-formed document that had arrived at that very moment. */
  lemma ReturnsCurrentKey(cfg: Config, steps: seq<Step>, c: nat)
    requires Run(cfg, steps) && steps != []
    requires c < |Exec(cfg, steps).calls| && Exec(cfg, steps).calls[c].kind.Resolve?
    requires Exec(cfg, steps).calls[c].pc.Done? && Exec(cfg, steps).calls[c].pc.reply.Key?
    requires var before := Exec(cfg, steps[..|steps| - 1]);
             c < |before.calls| ==> !before.calls[c].pc.Done?
    ensures var call := Exec(cfg, steps).calls[c];
            call.kind.kid in LastDocument(steps) && call.pc.reply.key == LastDocument(steps)[call.kind.kid]
  {
    RunKeepsInv(cfg, steps);
    CacheIsLastDocument(cfg, steps);
    EndOfCall(cfg, Exec(cfg, steps[..|steps| - 1]), steps[|steps| - 1], c);
    KeyIsCurrent(cfg, Exec(cfg, steps), c);
  }

  lemma LogGrows(cfg: Config, w: World, s: Step)
    requires Enabled(cfg, w, s)
    ensures LogExtends(w.log, Apply(cfg, w, s).log)
  {}

  /** The history of committed documents is the run's own: after any prefix of the run the
      document in force was the last one that prefix brought in, and it stays on record. */
  lemma {:induction false} LogIsHistory(cfg: Config, steps: seq<Step>, n: nat)
    requires Run(cfg, steps) && n <= |steps|
    ensures Run(cfg, steps[..n]) && LogExtends(Exec(cfg, steps[..n]).log, Exec(cfg, steps).log)
    ensures DocAt(Exec(cfg, steps).log, |Exec(cfg, steps[..n]).log|) == LastDocument(steps[..n])
    decreases |steps|
  {
    if n == |steps| {
      assert steps[..n] == steps;
      RunKeepsInv(cfg, steps);
      CacheIsLastDocument(cfg, steps);
    } else {
      var front := steps[..|steps| - 1];
      assert front[..n] == steps[..n];
      LogIsHistory(cfg, front, n);
      LogGrows(cfg, Exec(cfg, front), steps[|steps| - 1]);
    }
  }

  /** Document `n` of the history maps the kid to this key. */
  predicate Maps(log: seq<Published>, n: nat, kid: Text, k: Jwk)
    requires n <= |log|
  {
    kid in DocAt(log, n) && DocAt(log, n)[kid] == k
  }

  /** A key once evicted or replaced is never handed out to a call that began after that:
      a key that no document in force during the call has under its kid is not what the
      call returns. */
  lemma NeverEvictedKey(cfg: Config, steps: seq<Step>, c: nat, k: Jwk)
    requires Run(cfg, steps) && c < |Exec(cfg, steps).calls|
    requires Exec(cfg, steps).calls[c].kind.Resolve? && Exec(cfg, steps).calls[c].pc.Done?
    requires var w := Exec(cfg, steps); var call := w.calls[c];
             forall n: nat | call.begin <= n <= call.pc.end && n <= |w.log| :: !Maps(w.log, n, call.kind.kid, k)
    ensures Exec(cfg, steps).calls[c].pc.reply != Key(k)
  {
    var w := Exec(cfg, steps);
    RunKeepsInv(cfg, steps);
    assert CallOk(cfg, w.log, w.spans, c, w.calls[c]);
    assert !Maps(w.log, w.calls[c].pc.end, w.calls[c].kind.kid, k);
  }

  /** A call whose kid has been missing from every document in force since it began
      returns no key at all. */
  lemma MissingKidGetsNoKey(cfg: Config, steps: seq<Step>, c: nat)
    requires Run(cfg, steps) && c < |Exec(cfg, steps).calls|
    requires var w := Exec(cfg, steps);
             w.calls[c].kind.Resolve? &&
             forall n: nat | w.calls[c].begin <= n <= |w.log| :: w.calls[c].kind.kid !in DocAt(w.log, n)
    ensures var pc := Exec(cfg, steps).calls[c].pc; pc.Done? ==> pc.reply.Error?
  {
    var w := Exec(cfg, steps);
    RunKeepsInv(cfg, steps);
    assert CallOk(cfg, w.log, w.spans, c, w.calls[c]);
  }

  /** A fetch is open, or the last one ended at most a TTL ago. */
  predicate RecentlyFetched(cfg: Config, w: World, now: real) {
    w.spans != [] &&
    var close := w.spans[|w.spans| - 1].close;
    close.None? || (cfg.ttl > 0.0 && now - close.value.at <= cfg.ttl)
  }

  lemma RecentByStamp(cfg: Config, w: World, now: real)
    requires Inv(cfg, w) && w.cache.keys != map[]
    ensures RecentlyFetched(cfg, w, now) <==> w.cache.refreshing || Fresh(cfg, w.cache, now)
  {}

  /** A call whose kid is in the document in force never waits and never fails at entry: it
      gets its key at once while a fetch is in flight or the last one, however it went,
      ended within the TTL, and claims the refresh otherwise. */
  lemma CachedCallSettles(cfg: Config, steps: seq<Step>, kid: Text, now: real, later: real)
    requires cfg.ttl >= 0.0 && Run(cfg, steps) && Enabled(cfg, Exec(cfg, steps), BeginResolve(kid, now, later))
    requires kid in LastDocument(steps)
    ensures var w := Exec(cfg, steps);
            var pc := Apply(cfg, w, BeginResolve(kid, now, later)).calls[|w.calls|].pc;
            pc == if RecentlyFetched(cfg, w, now) then Done(Key(LastDocument(steps)[kid]), later, |w.log|) else Fetching
  {
    var w := Exec(cfg, steps);
    CacheIsLastDocument(cfg, steps);
    RunKeepsInv(cfg, steps);
    CachedNeverWaits(cfg, w.cache, kid, now, later);
    RecentByStamp(cfg, w, now);
  }

  /** Time since the last fetch of this world ended allows another one. */
  predicate FetchDue(cfg: Config, w: World, now: real) {
    w.spans == [] ||
    (w.spans[|w.spans| - 1].close.Some? &&
     var idle := now - w.spans[|w.spans| - 1].close.value.at;
     idle >= cfg.interval || idle > cfg.ttl || cfg.ttl == 0.0)
  }

  lemma FetchDueByStamp(cfg: Config, w: World, now: real)
    requires Inv(cfg, w) && !w.cache.refreshing
    ensures FetchDue(cfg, w, now) <==> ClaimOrSettle(cfg, w.cache, None, now).Claim?
  {}

  /** Where a call for a missing kid goes from here. */
  function MissingTo(cfg: Config, w: World, now: real): Pc {
    if w.cache.refreshing then Waiting(now, false)
    else if FetchDue(cfg, w, now) then Fetching
    else Done(Error(NoMatch), now, |w.log|)
  }

  lemma MissingAtEntry(cfg: Config, w: World, kid: Text, now: real, later: real)
    requires Inv(cfg, w) && kid !in w.cache.keys && Enabled(cfg, w, BeginResolve(kid, now, later))
    ensures Apply(cfg, w, BeginResolve(kid, now, later)).calls[|w.calls|].pc == MissingTo(cfg, w, later)
  {
    if !w.cache.refreshing {
      FetchDueByStamp(cfg, w, later);
    }
  }

  lemma MissingAtWake(cfg: Config, w: World, c: nat, now: real)
    requires Inv(cfg, w) && Enabled(cfg, w, Wake(c, now)) && w.calls[c].kind.kid !in w.cache.keys
    ensures Apply(cfg, w, Wake(c, now)).calls[c].pc == MissingTo(cfg, w, now)
  {
    if !w.cache.refreshing {
      FetchDueByStamp(cfg, w, now);
    }
  }

  /** A call whose kid is missing from the document in force, at its entry or when a
      notified wait ends: it waits for the fetch in flight; with none in flight it fetches
      if a fetch is due, and otherwise fails at once without touching the network. */
  lemma MissingKidSettles(cfg: Config, steps: seq<Step>, s: Step)
    requires Run(cfg, steps) && Enabled(cfg, Exec(cfg, steps), s)
    ensures s.BeginResolve? && s.kid !in LastDocument(steps) ==>
              Apply(cfg, Exec(cfg, steps), s).calls[|Exec(cfg, steps).calls|].pc == MissingTo(cfg, Exec(cfg, steps), s.later)
    ensures s.Wake? && Exec(cfg, steps).calls[s.c].kind.kid !in LastDocument(steps) ==>
              Apply(cfg, Exec(cfg, steps), s).calls[s.c].pc == MissingTo(cfg, Exec(cfg, steps), s.now)
  {
    CacheIsLastDocument(cfg, steps);
    RunKeepsInv(cfg, steps);
    if s.BeginResolve? && s.kid !in LastDocument(steps) {
      MissingAtEntry(cfg, Exec(cfg, steps), s.kid, s.now, s.later);
    }
    if s.Wake? && Exec(cfg, steps).calls[s.c].kind.kid !in LastDocument(steps) {
      MissingAtWake(cfg, Exec(cfg, steps), s.c, s.now);
    }
  }

  /** A waiter or a fetcher that has the lock back finds its key if the document in force
      has it, and a fetcher fails only if it does not. */
  lemma ArrivedKeyIsFound(cfg: Config, steps: seq<Step>, s: Step)
    requires Run(cfg, steps) && Enabled(cfg, Exec(cfg, steps), s) && (s.Wake? || s.Look?)
    ensures var w := Exec(cfg, steps);
            var kid := w.calls[s.c].kind.kid;
            var pc := Apply(cfg, w, s).calls[s.c].pc;
            (kid in LastDocument(steps) ==> pc == Done(Key(LastDocument(steps)[kid]), s.now, |w.log|)) &&
            (kid !in LastDocument(steps) && s.Look? ==> pc == Done(Error(NoMatch), s.now, |w.log|))
  {
    CacheIsLastDocument(cfg, steps);
  }

  /** A wait that runs out of patience ends its call with an error, and nothing else. */
  lemma WaitTimesOut(cfg: Config, w: World, c: nat, now: real)
    requires Enabled(cfg, w, GiveUp(c, now))
    ensures now - w.calls[c].pc.since >= cfg.patience
    ensures Apply(cfg, w, GiveUp(c, now)) ==
            w.(clock := now, calls := w.calls[c := w.calls[c].(pc := Done(Error(TimedOut), now, |w.log|))])
  {}

  // ----- fetch rate -----

  /** Fetches never overlap, and each starts at least min(ttl, interval) after the one
      before it ended. */
  lemma FetchesAreApart(cfg: Config, steps: seq<Step>, i: nat, k: nat)
    requires Run(cfg, steps) && i < k < |Exec(cfg, steps).spans|
    ensures var spans := Exec(cfg, steps).spans;
            spans[i].close.Some? && spans[i].start <= spans[i].close.value.at <= spans[k].start &&
            spans[i].close.value.at + Spacing(cfg) <= spans[k].start
  {
    RunKeepsInv(cfg, steps);
    assert Apart(cfg, Exec(cfg, steps).spans[i], Exec(cfg, steps).spans[k]);
  }

  ghost predicate AllIn(s: set<nat>, times: map<nat, real>, from: real, to: real) {
    forall i | i in s :: i in times && from <= times[i] <= to
  }

  ghost predicate AtLeastApart(s: set<nat>, times: map<nat, real>, gap: real) {
    forall i, k | i in s && k in s && i < k :: i in times && k in times && times[i] + gap <= times[k]
  }

  lemma {:induction false} MaxExists(s: set<nat>) returns (m: nat)
    requires s != {}
    ensures m in s && forall i | i in s :: i <= m
    decreases |s|
  {
    var x :| x in s;
    if s == {x} {
      m := x;
    } else {
      var m' := MaxExists(s - {x});
      m := if m' > x then m' else x;
      forall i | i in s ensures i <= m {
        if i != x {
          assert i in s - {x};
        }
      }
    }
  }

  /** n gaps laid end to end. */
  function Gaps(n: nat, gap: real): real {
    if n == 0 then 0.0 else Gaps(n - 1, gap) + gap
  }

  lemma {:induction false} GapsMultiply(n: nat, gap: real)
    ensures Gaps(n, gap) == n as real * gap
  {
    if n > 0 {
      GapsMultiply(n - 1, gap);
    }
  }

  /** Moments that lie in a window and are pairwise a gap apart are few. */
  lemma {:induction false} FewInWindow(s: set<nat>, times: map<nat, real>, gap: real, from: real, m: nat)
    requires m in s && (forall i | i in s :: i <= m)
    requires (forall i | i in s :: i in times && from <= times[i]) && AtLeastApart(s, times, gap)
    ensures |s| >= 1 && Gaps(|s| - 1, gap) <= times[m] - from
    decreases |s|
  {
    var rest := s - {m};
    assert |s| == |rest| + 1;
    if rest != {} {
      var m' := MaxExists(rest);
      FewInWindow(rest, times, gap, from, m');
    }
  }

  /** Fetches started in a window of time. */
  ghost function StartsIn(w: World, from: real, to: real): set<nat> {
    set i | 0 <= i < |w.spans| && from <= w.spans[i].start <= to
  }

  lemma DivideBound(n: real, gap: real, width: real)
    requires gap > 0.0 && n * gap <= width
    ensures n <= width / gap
  {
    assert n == (n * gap) / gap;
  }

  lemma WindowBound(s: set<nat>, times: map<nat, real>, gap: real, from: real, width: real)
    requires gap > 0.0 && width >= 0.0
    requires AllIn(s, times, from, from + width) && AtLeastApart(s, times, gap)
    ensures |s| as real <= 1.0 + width / gap
  {
    if s == {} {
      DivideBound(0.0, gap, width);
    } else {
      var m := MaxExists(s);
      FewInWindow(s, times, gap, from, m);
      GapsMultiply(|s| - 1, gap);
      DivideBound((|s| - 1) as real, gap, width);
    }
  }

  /** However many calls arrive and whatever kids they name, a window of length W holds at
      most 1 + W / min(ttl, interval) fetch starts. */
  lemma FetchRateBound(cfg: Config, steps: seq<Step>, from: real, width: real)
    requires Run(cfg, steps) && width >= 0.0 && Spacing(cfg) > 0.0
    ensures |StartsIn(Exec(cfg, steps), from, from + width)| as real <= 1.0 + width / Spacing(cfg)
  {
    var w := Exec(cfg, steps);
    var s := StartsIn(w, from, from + width);
    var times := map i: nat | i < |w.spans| :: w.spans[i].start;
    forall i, k | i in s && k in s && i < k ensures times[i] + Spacing(cfg) <= times[k] {
      FetchesAreApart(cfg, steps, i, k);
    }
    WindowBound(s, times, Spacing(cfg), from, width);
  }

  lemma OneStepMore(cfg: Config, steps: seq<Step>, s: Step)
    requires Run(cfg, steps) && Enabled(cfg, Exec(cfg, steps), s)
    ensures Run(cfg, steps + [s]) && Exec(cfg, steps + [s]) == Apply(cfg, Exec(cfg, steps), s)
  {
    assert (steps + [s])[..|steps|] == steps;
  }

  /** In a world that has no keys and may fetch, a call for any kid and the failure of its
      fetch can follow, both at the same moment. */
  lemma FailedFetch(cfg: Config, steps: seq<Step>, kid: Text, t: real) returns (more: seq<Step>)
    requires Run(cfg, steps)
    requires var w := Exec(cfg, steps);
             w.clock <= t && !w.cache.refreshing && w.cache.keys == map[] && ClaimOrSettle(cfg, w.cache, None, t).Claim?
    ensures Run(cfg, more)
    ensures var w, w' := Exec(cfg, steps), Exec(cfg, more);
            w'.clock == t && !w'.cache.refreshing && w'.cache.keys == map[] && w'.cache.lastFetch == At(t) &&
            w'.spans == w.spans + [Span(|w.calls|, t, Some(Close(t, Failure)))] &&
            |w'.calls| == |w.calls| + 1 && w'.calls[..|w.calls|] == Notify(w.calls) &&
            w'.calls[|w.calls|].kind == Resolve(kid)
  {
    var w := Exec(cfg, steps);
    var ask, fail := BeginResolve(kid, t, t), Finish(|w.calls|, Raised, t);
    OneStepMore(cfg, steps, ask);
    OneStepMore(cfg, steps + [ask], fail);
    more := steps + [ask] + [fail];
  }

  /** With a TTL or a cooldown of zero nothing holds a flood back: for any kids there is a
      run in which each of them costs a fetch, all at one moment. */
  lemma {:induction false} Flood(cfg: Config, kids: seq<Text>, t: real) returns (steps: seq<Step>)
    requires Spacing(cfg) <= 0.0 && t >= 0.0
    ensures Run(cfg, steps) && |Exec(cfg, steps).spans| == |Exec(cfg, steps).calls| == |kids|
    ensures var w := Exec(cfg, steps);
            forall i | 0 <= i < |kids| :: w.spans[i].start == t && w.spans[i].owner == i && w.calls[i].kind == Resolve(kids[i])
    ensures var w := Exec(cfg, steps);
            w.clock <= t && !w.cache.refreshing && w.cache.keys == map[] &&
            (w.cache.lastFetch.At? ==> w.cache.lastFetch.time == t)
    decreases |kids|
  {
    steps := [];
    if kids != [] {
      var last := |kids| - 1;
      var front := Flood(cfg, kids[..last], t);
      steps := FailedFetch(cfg, front, kids[last], t);
      var w, w' := Exec(cfg, front), Exec(cfg, steps);
      forall i | 0 <= i < last ensures w'.calls[i].kind == Resolve(kids[i]) {
        assert w'.calls[i] == w'.calls[..last][i];
      }
    }
  }

  /** No run starts more than `bound` fetches in this window. */
  ghost predicate Bounds(cfg: Config, from: real, width: real, bound: nat) {
    forall steps | Run(cfg, steps) :: |StartsIn(Exec(cfg, steps), from, from + width)| <= bound
  }

  lemma {:induction false} BelowHas(n: nat, s: set<nat>)
    requires forall i: nat | i < n :: i in s
    ensures |s| >= n
  {
    if n > 0 {
      BelowHas(n - 1, s - {n - 1});
    }
  }

  /** Fetches per window are bounded over all runs exactly if both the TTL and the cooldown
      are positive. Either may be configured as zero, and then a flood of kids does cost one
      fetch each. */
  lemma FetchRateBoundedIff(cfg: Config, from: real, width: real)
    requires from >= 0.0 && width >= 0.0
    ensures (exists bound: nat :: Bounds(cfg, from, width, bound)) <==> cfg.ttl > 0.0 && cfg.interval > 0.0
  {
    if Spacing(cfg) > 0.0 {
      var bound := (1.0 + width / Spacing(cfg)).Floor;
      forall steps | Run(cfg, steps) ensures |StartsIn(Exec(cfg, steps), from, from + width)| <= bound {
        FetchRateBound(cfg, steps, from, width);
      }
      assert width / Spacing(cfg) >= 0.0 by { DivideBound(0.0, Spacing(cfg), width); }
      assert Bounds(cfg, from, width, bound);
    } else if bound: nat :| Bounds(cfg, from, width, bound) {
      var steps := Flood(cfg, seq(bound + 1, _ => []), from);
      BelowHas(bound + 1, StartsIn(Exec(cfg, steps), from, from + width));
      assert false;
    }
  }

  ghost predicate Cooled(cfg: Config, a: Span, b: Span) {
    a.close.Some? && a.close.value.at + cfg.interval <= b.start
  }

  /** The fetches of this run keep the cooldown between them. */
  ghost predicate KeepsCooldown(cfg: Config, steps: seq<Step>)
    requires Run(cfg, steps)
  {
    var spans := Exec(cfg, steps).spans;
    forall i, k | 0 <= i < k < |spans| :: Cooled(cfg, spans[i], spans[k])
  }

  lemma LongTtlKeepsCooldown(cfg: Config, steps: seq<Step>)
    requires Run(cfg, steps) && (cfg.interval <= cfg.ttl || cfg.interval <= 0.0)
    ensures KeepsCooldown(cfg, steps)
  {
    var spans := Exec(cfg, steps).spans;
    forall i, k | 0 <= i < k < |spans| ensures Cooled(cfg, spans[i], spans[k]) {
      FetchesAreApart(cfg, steps, i, k);
    }
  }

  /** Two fetches inside one cooldown window, for any configuration whose TTL is shorter. */
  lemma EarlyRefresh(cfg: Config, kid: Text) returns (steps: seq<Step>)
    requires 0.0 <= cfg.ttl < cfg.interval
    ensures Run(cfg, steps) && !KeepsCooldown(cfg, steps)
  {
    var soon := (cfg.ttl + cfg.interval) / 2.0;
    var once := FailedFetch(cfg, [], kid, 0.0);
    assert Exec(cfg, once).spans == [Span(0, 0.0, Some(Close(0.0, Failure)))];
    steps := FailedFetch(cfg, once, kid, soon);
    var spans := Exec(cfg, steps).spans;
    assert spans[0] == Span(0, 0.0, Some(Close(0.0, Failure))) && spans[1].start == soon;
    assert !Cooled(cfg, spans[0], spans[1]);
  }

  /** The documented promise, at most one fetch per cooldown window, holds in every run
      exactly if the cooldown is no longer than the TTL, which the configuration does not
      require: an expired TTL opens a refresh inside the cooldown. */
  lemma CooldownHoldsIff(cfg: Config)
    requires cfg.ttl >= 0.0
    ensures (forall steps | Run(cfg, steps) :: KeepsCooldown(cfg, steps)) <==> cfg.interval <= cfg.ttl || cfg.interval <= 0.0
  {
    if cfg.interval <= cfg.ttl || cfg.interval <= 0.0 {
      forall steps | Run(cfg, steps) ensures KeepsCooldown(cfg, steps) {
        LongTtlKeepsCooldown(cfg, steps);
      }
    } else {
      var steps := EarlyRefresh(cfg, []);
    }
  }

  // ----- outages -----

  /** A call turned away although its kid was in the document in force throughout. */
  ghost predicate TurnedAway(w: World, c: nat) {
    c < |w.calls| &&
    var call := w.calls[c];
    call.kind.Resolve? && call.pc.Done? && call.pc.reply.Error? && call.pc.end <= |w.log| &&
    Steady(w.log, call.kind.kid, call.begin, call.pc.end)
  }

  /** Such a call ran a fetch itself, that fetch failed, and it was turned away at the
      moment the failure was committed. */
  lemma OutageNeedsOwnFailure(cfg: Config, steps: seq<Step>, c: nat)
    requires Run(cfg, steps) && TurnedAway(Exec(cfg, steps), c)
    ensures var w := Exec(cfg, steps); var call := w.calls[c];
            call.fetch.Some? && call.fetch.value < |w.spans| && w.spans[call.fetch.value].owner == c &&
            w.spans[call.fetch.value].close == Some(Close(call.pc.at, Failure))
  {
    RunKeepsInv(cfg, steps);
    var w := Exec(cfg, steps);
    assert CallOk(cfg, w.log, w.spans, c, w.calls[c]);
  }

  ghost function Rejections(w: World, from: real, to: real): set<nat> {
    set c: nat | c < |w.calls| && TurnedAway(w, c) && from <= w.calls[c].pc.at <= to
  }

  ghost function FailedFetches(w: World, from: real, to: real): set<nat> {
    set i: nat | i < |w.spans| && w.spans[i].close.Some? && w.spans[i].close.value.outcome.Failure? &&
      from <= w.spans[i].close.value.at <= to
  }

  lemma {:induction false} InjectionBound(a: set<nat>, f: map<nat, nat>, b: set<nat>)
    requires forall x | x in a :: x in f && f[x] in b
    requires forall x, y | x in a && y in a && f[x] == f[y] :: x == y
    ensures |a| <= |b|
    decreases |a|
  {
    if a != {} {
      var x :| x in a;
      InjectionBound(a - {x}, f, b - {f[x]});
    }
  }

  /** In any stretch of any run, calls turned away for steadily published kids are no more
      than the fetches that failed in it, and so obey the same window bound. */
  lemma OutageBound(cfg: Config, steps: seq<Step>, from: real, width: real)
    requires Run(cfg, steps)
    ensures var w := Exec(cfg, steps);
            |Rejections(w, from, from + width)| <= |FailedFetches(w, from, from + width)|
    ensures width >= 0.0 && Spacing(cfg) > 0.0 ==>
              |Rejections(Exec(cfg, steps), from, from + width)| as real <= 1.0 + width / Spacing(cfg)
  {
    var w := Exec(cfg, steps);
    var rejected, failed := Rejections(w, from, from + width), FailedFetches(w, from, from + width);
    forall c | c in rejected
      ensures w.calls[c].fetch.Some? && w.calls[c].fetch.value in failed && w.spans[w.calls[c].fetch.value].owner == c
    {
      OutageNeedsOwnFailure(cfg, steps, c);
    }
    var f := map c: nat | c in rejected :: w.calls[c].fetch.value;
    InjectionBound(rejected, f, failed);
    if width >= 0.0 && Spacing(cfg) > 0.0 {
      var times := map i: nat | i in failed :: w.spans[i].close.value.at;
      forall i, k | i in failed && k in failed && i < k ensures times[i] + Spacing(cfg) <= times[k] {
        RunKeepsInv(cfg, steps);
        FetchesAreApart(cfg, steps, i, k);
      }
      WindowBound(failed, times, Spacing(cfg), from, width);
    }
  }

  // ----- readiness -----

  ghost predicate Honest(w: World) {
    (w.cache.lastSuccess.At? ==> w.cache.lastFetch.At? && w.cache.lastSuccess.time <= w.cache.lastFetch.time) &&
    (w.cache.keys != map[] ==>
       w.log != [] && w.log[|w.log| - 1].keys == w.cache.keys && w.cache.lastSuccess == At(w.log[|w.log| - 1].at))
  }

  lemma CacheOkIsHonest(w: World)
    requires CacheOk(w)
    ensures Honest(w)
  {}

  /** The stamps never run ahead of each other, and a non-empty cache is dated by the commit
      of the document it came from. */
  lemma StampsAreHonest(cfg: Config, steps: seq<Step>)
    requires Run(cfg, steps)
    ensures Honest(Exec(cfg, steps))
  {
    RunKeepsInv(cfg, steps);
    CacheOkIsHonest(Exec(cfg, steps));
  }

  /** The document in force has keys, and was committed within the TTL. */
  predicate InDate(cfg: Config, w: World, now: real) {
    w.log != [] &&
    var doc := w.log[|w.log| - 1];
    doc.keys != map[] && cfg.ttl > 0.0 && now - doc.at <= cfg.ttl
  }

  /** A fetch is open, or the last one ended less than a cooldown ago. */
  predicate CoolingDown(cfg: Config, w: World, now: real) {
    w.spans != [] &&
    var close := w.spans[|w.spans| - 1].close;
    close.None? || now - close.value.at < cfg.interval
  }

  lemma ProbeByStamps(cfg: Config, w: World, now: real)
    requires Inv(cfg, w)
    ensures InDate(cfg, w, now) <==> Usable(cfg, w.cache, now)
    ensures CoolingDown(cfg, w, now) <==> w.cache.refreshing || !CooldownElapsed(cfg, w.cache, now)
  {}

  /** Where a `ready` call goes from its entry, in every run: it is told yes while the
      document in force is in date, no while another fetch is out or the cooldown lasts,
      and in every other case, so also when nothing was ever fetched, it fetches. */
  lemma ProbeSettles(cfg: Config, steps: seq<Step>, now: real)
    requires Run(cfg, steps) && Enabled(cfg, Exec(cfg, steps), BeginReady(now))
    ensures var w := Exec(cfg, steps);
            Apply(cfg, w, BeginReady(now)).calls[|w.calls|].pc ==
            if InDate(cfg, w, now) then Done(Ready(true), now, |w.log|)
            else if CoolingDown(cfg, w, now) then Done(Ready(false), now, |w.log|)
            else Fetching
  {
    RunKeepsInv(cfg, steps);
    ProbeByStamps(cfg, Exec(cfg, steps), now);
  }

  ghost predicate ReadyMeaning(cfg: Config, w: World, call: Call)
    requires call.pc.Done?
  {
    var end := call.pc.end;
    end <= |w.log| && call.pc.reply.Ready? &&
    match call.fetch
    case None =>
      call.pc.reply.ready <==>
      DocAt(w.log, end) != map[] && cfg.ttl > 0.0 && call.pc.at - w.log[end - 1].at <= cfg.ttl
    case Some(f) =>
      f < |w.spans| && w.spans[f].close.Some? &&
      var o := w.spans[f].close.value.outcome;
      (call.pc.reply.ready <==> o.Document? && o.keys != map[]) &&
      (call.pc.reply.ready ==> end > 0 && w.log[end - 1] == Published(o.keys, call.pc.at))
  }

  lemma ReadyReply(cfg: Config, w: World, c: nat)
    requires Inv(cfg, w) && c < |w.calls| && w.calls[c].kind.Probe? && w.calls[c].pc.Done?
    ensures ReadyMeaning(cfg, w, w.calls[c])
  {
    assert CallOk(cfg, w.log, w.spans, c, w.calls[c]);
  }

  /** `ready` without a fetch of its own is true exactly while the document in force has
      keys and was committed within the TTL; with a fetch of its own, exactly if that fetch
      brought keys, which are then the document in force. */
  lemma ReadyIsSound(cfg: Config, steps: seq<Step>, c: nat)
    requires Run(cfg, steps) && c < |Exec(cfg, steps).calls|
    requires Exec(cfg, steps).calls[c].kind.Probe? && Exec(cfg, steps).calls[c].pc.Done?
    ensures ReadyMeaning(cfg, Exec(cfg, steps), Exec(cfg, steps).calls[c])
  {
    RunKeepsInv(cfg, steps);
    ReadyReply(cfg, Exec(cfg, steps), c);
  }

  lemma RevokedReply(cfg: Config, w: World, c: nat)
    requires Inv(cfg, w) && c < |w.calls| && w.calls[c].kind.Probe? && w.calls[c].pc.Done?
    requires w.calls[c].pc.end <= |w.log| &&
             forall n: nat | w.calls[c].begin <= n <= w.calls[c].pc.end :: DocAt(w.log, n) == map[]
    ensures w.calls[c].pc.reply == Ready(false)
  {
    ReadyReply(cfg, w, c);
    assert CallOk(cfg, w.log, w.spans, c, w.calls[c]);
    assert DocAt(w.log, w.calls[c].pc.end) == map[];
  }

  /** Once an empty key set is in force, every `ready` call that starts then answers false
      until some document with keys is committed. */
  lemma NotReadyWhileRevoked(cfg: Config, steps: seq<Step>, c: nat)
    requires Run(cfg, steps) && c < |Exec(cfg, steps).calls|
    requires Exec(cfg, steps).calls[c].kind.Probe? && Exec(cfg, steps).calls[c].pc.Done?
    requires var w := Exec(cfg, steps); var call := w.calls[c];
             call.pc.end <= |w.log| &&
             forall n: nat | call.begin <= n <= call.pc.end :: DocAt(w.log, n) == map[]
    ensures Exec(cfg, steps).calls[c].pc.reply == Ready(false)
  {
    RunKeepsInv(cfg, steps);
    RevokedReply(cfg, Exec(cfg, steps), c);
  }
}
