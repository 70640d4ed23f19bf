/** The JWKS key cache of `JwksVerifier`: its fields, and the critical sections that
    `_resolve_key` and `ready` run under the lock. Between two sections of one call any
    other call may run its own. */
module KeyCache {
  import opened Texts

  datatype Jwk = Jwk(keyId: Option<Text>, material: nat)

  type Keys = map<Text, Jwk>

  // ----- fetch outcomes -----

  /** What `_fetch_jwks` and the key-set parser give back: an exception (no response, no
      JSON, or a key set the parser refuses), a document whose key list is literally empty,
      or a list of usable keys. */
  datatype Fetched = Raised | NoKeys | KeySet(keys: seq<Jwk>)

  datatype Outcome = Failure | Document(keys: Keys)

  /** The keys by their ids: keys without an id are left out, later keys win. */
  function KeyMap(keys: seq<Jwk>): Keys {
    if keys == [] then map[]
    else
      var last := keys[|keys| - 1];
      var front := KeyMap(keys[..|keys| - 1]);
      if last.keyId.Some? && last.keyId.value != [] then front[last.keyId.value := last] else front
  }

  /** `_parse_jwks` */
  function ParseJwks(f: Fetched): Outcome {
    match f
    case Raised => Failure
    case NoKeys => Document(map[])
    case KeySet(keys) => Document(KeyMap(keys))
  }

  /** The map holds the last key of every non-empty id, and nothing else. */
  lemma {:induction false} KeyMapMeaning(keys: seq<Jwk>, kid: Text)
    ensures kid in KeyMap(keys) <==> kid != [] && exists i | 0 <= i < |keys| :: keys[i].keyId == Some(kid)
    ensures kid in KeyMap(keys) ==>
              exists i | 0 <= i < |keys| ::
                keys[i].keyId == Some(kid) && KeyMap(keys)[kid] == keys[i] &&
                forall k | i < k < |keys| :: keys[k].keyId != Some(kid)
  {
    if keys != [] {
      var last := |keys| - 1;
      KeyMapMeaning(keys[..last], kid);
      if kid != [] && keys[last].keyId == Some(kid) {
        assert KeyMap(keys)[kid] == keys[last];
      } else if kid in KeyMap(keys) {
        assert KeyMap(keys)[kid] == KeyMap(keys[..last])[kid];
        var i :| 0 <= i < last && keys[..last][i].keyId == Some(kid) && KeyMap(keys)[kid] == keys[..last][i] &&
          forall k | i < k < last :: keys[..last][k].keyId != Some(kid);
        assert keys[i].keyId == Some(kid);
        forall k | i < k < |keys| ensures keys[k].keyId != Some(kid) {
          if k < last {
            assert keys[..last][k].keyId != Some(kid);
          }
        }
      } else if kid != [] {
        assert forall i | 0 <= i < last :: keys[..last][i] == keys[i];
      }
    }
  }

  // ----- cache and clock -----

  /** A reading of the monotonic clock, or the minus infinity the stamps start with. */
  datatype Stamp = Never | At(time: real)

  /** Cache TTL, refresh cooldown, and how long a caller waits for someone else's fetch. */
  datatype Config = Config(ttl: real, interval: real, patience: real)

  datatype Cache = Cache(keys: Keys, refreshing: bool, lastFetch: Stamp, lastSuccess: Stamp)

  const COLD := Cache(map[], false, Never, Never)

  predicate Fresh(cfg: Config, c: Cache, now: real) {
    cfg.ttl > 0.0 && c.lastFetch.At? && now - c.lastFetch.time <= cfg.ttl
  }

  predicate TtlExpired(cfg: Config, c: Cache, now: real) {
    c.lastFetch.At? && (cfg.ttl == 0.0 || now - c.lastFetch.time > cfg.ttl)
  }

  predicate CooldownElapsed(cfg: Config, c: Cache, now: real) {
    c.lastFetch.Never? || now - c.lastFetch.time >= cfg.interval
  }

  predicate Usable(cfg: Config, c: Cache, now: real) {
    c.keys != map[] && cfg.ttl > 0.0 && c.lastSuccess.At? && now - c.lastSuccess.time <= cfg.ttl
  }

  // ----- the critical sections, as functions of the cache -----

  datatype Error = TimedOut | NoMatch | RetrievalFailed | NoUsableKeys

  /** How a section ends: the call returns, raises, waits on the condition, or has set
      `_refreshing` and goes on to fetch. */
  datatype Verdict = Return(key: Jwk) | Answer(ready: bool) | Raise(error: Error) | Wait | Claim

  function Lookup(c: Cache, kid: Text): Option<Jwk> {
    if kid in c.keys then Some(c.keys[kid]) else None
  }

  /** From "may this thread start one?" to the end of the section. */
  function ClaimOrSettle(cfg: Config, c: Cache, key: Option<Jwk>, now: real): Verdict {
    if c.lastFetch.Never? || TtlExpired(cfg, c, now) || CooldownElapsed(cfg, c, now) then Claim
    else match key case Some(k) => Return(k) case None => Raise(NoMatch)
  }

  /** `_resolve_key` from its entry; the clock is read twice. */
  function EnterResolve(cfg: Config, c: Cache, kid: Text, now: real, later: real): Verdict {
    match Lookup(c, kid)
    case Some(k) => if Fresh(cfg, c, now) || c.refreshing then Return(k) else ClaimOrSettle(cfg, c, Some(k), later)
    case None => if c.refreshing then Wait else ClaimOrSettle(cfg, c, None, later)
  }

  /** `_resolve_key` from a notified wait on. */
  function WakeResolve(cfg: Config, c: Cache, kid: Text, now: real): Verdict {
    match Lookup(c, kid)
    case Some(k) => Return(k)
    case None => if c.refreshing then Wait else ClaimOrSettle(cfg, c, None, now)
  }

  function EnterReady(cfg: Config, c: Cache, now: real): Verdict {
    if Usable(cfg, c, now) then Answer(true)
    else if c.refreshing || !CooldownElapsed(cfg, c, now) then Answer(false)
    else Claim
  }

  function After(c: Cache, v: Verdict): Cache {
    if v.Claim? then c.(refreshing := true) else c
  }

  /** The `finally` block of either entry point. */
  function Commit(c: Cache, o: Outcome, now: real): Cache {
    match o
    case Failure => c.(refreshing := false, lastFetch := At(now))
    case Document(keys) =>
      Cache(keys, false, At(now), if keys != map[] then At(now) else c.lastSuccess)
  }

  function FinalLookup(c: Cache, kid: Text): Verdict {
    match Lookup(c, kid) case Some(k) => Return(k) case None => Raise(NoMatch)
  }

  // ----- single sections -----

  /** A call whose kid is cached at entry never waits; and while the clock does not go
      back, it never reaches the return of a stale key inside the cooldown: with no refresh
      in flight, a cached key that is not fresh always claims one. */
  lemma CachedNeverWaits(cfg: Config, c: Cache, kid: Text, now: real, later: real)
    requires cfg.ttl >= 0.0 && kid in c.keys
    ensures !EnterResolve(cfg, c, kid, now, later).Wait?
    ensures !EnterResolve(cfg, c, kid, now, later).Raise?
    ensures now <= later && !Fresh(cfg, c, now) && !c.refreshing ==> EnterResolve(cfg, c, kid, now, later) == Claim
  {}

  /** The call reaches the branch that returns a stale key inside the cooldown. */
  predicate StaleHit(cfg: Config, c: Cache, kid: Text, now: real, later: real) {
    kid in c.keys && !Fresh(cfg, c, now) && !c.refreshing && !ClaimOrSettle(cfg, c, None, later).Claim?
  }

  /** That branch is reachable exactly if the clock steps back over the moment the TTL ends,
      to a moment inside the cooldown. */
  lemma StaleHitNeedsClockStep(cfg: Config, c: Cache, kid: Text, now: real, later: real)
    requires cfg.ttl >= 0.0 && kid in c.keys && !c.refreshing
    ensures StaleHit(cfg, c, kid, now, later) <==>
            c.lastFetch.At? && cfg.ttl != 0.0 && now - c.lastFetch.time > cfg.ttl >= later - c.lastFetch.time &&
            later - c.lastFetch.time < cfg.interval
    ensures StaleHit(cfg, c, kid, now, later) ==> later < now
  {}
}
