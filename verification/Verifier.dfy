/** `JwksVerifier` as the object it is: four fields, each critical section a method that
    updates them in place. Every method is tied to its section function in KeyCache. */
module Verifier {
  import opened Texts
  import opened KeyCache

  class JwksVerifier {
    const config: Config
    var keys: Keys
    var refreshing: bool
    var lastFetch: Stamp
    var lastSuccess: Stamp

    ghost function Contents(): Cache
      reads this
    {
      Cache(keys, refreshing, lastFetch, lastSuccess)
    }

    constructor (config: Config)
      ensures this.config == config && Contents() == COLD
    {
      this.config := config;
      keys, refreshing, lastFetch, lastSuccess := map[], false, Never, Never;
    }

    method EnterResolve(kid: Text, now: real, later: real) returns (v: Verdict)
      modifies this`refreshing
      ensures v == KeyCache.EnterResolve(config, old(Contents()), kid, now, later)
      ensures Contents() == After(old(Contents()), v)
    {
      var cold := lastFetch == Never;
      var isFresh := config.ttl > 0.0 && !cold && now - lastFetch.time <= config.ttl;
      if kid in keys && isFresh {
        return Return(keys[kid]);
      }
      if refreshing {
        if kid in keys {
          return Return(keys[kid]);
        }
        return Wait;
      }
      v := StartRefresh(kid, later);
    }

    method WakeResolve(kid: Text, now: real) returns (v: Verdict)
      modifies this`refreshing
      ensures v == KeyCache.WakeResolve(config, old(Contents()), kid, now)
      ensures Contents() == After(old(Contents()), v)
    {
      if kid in keys {
        return Return(keys[kid]);
      }
      if refreshing {
        return Wait;
      }
      v := StartRefresh(kid, now);
    }

    method StartRefresh(kid: Text, now: real) returns (v: Verdict)
      requires !refreshing
      modifies this`refreshing
      ensures v == ClaimOrSettle(config, old(Contents()), Lookup(old(Contents()), kid), now)
      ensures Contents() == After(old(Contents()), v)
    {
      var cold := lastFetch == Never;
      var ttlExpired := !cold && (config.ttl == 0.0 || now - lastFetch.time > config.ttl);
      var cooldownElapsed := cold || now - lastFetch.time >= config.interval;
      if !(cold || ttlExpired || cooldownElapsed) {
        if kid in keys {
          return Return(keys[kid]);
        }
        return Raise(NoMatch);
      }
      refreshing := true;
      return Claim;
    }

    method CommitResolve(o: Outcome, now: real) returns (error: Option<Error>)
      modifies this
      ensures Contents() == Commit(old(Contents()), o, now)
      ensures error == match o
                       case Failure => Some(RetrievalFailed)
                       case Document(ks) => if ks == map[] then Some(NoUsableKeys) else None
    {
      error := if o.Failure? then Some(RetrievalFailed) else if o.keys == map[] then Some(NoUsableKeys) else None;
      refreshing := false;
      lastFetch := At(now);
      if o.Document? {
        keys := o.keys;
        if o.keys != map[] {
          lastSuccess := lastFetch;
        }
      }
    }

    method LookUp(kid: Text) returns (v: Verdict)
      ensures v == FinalLookup(Contents(), kid)
    {
      return if kid in keys then Return(keys[kid]) else Raise(NoMatch);
    }

    method EnterReady(now: real) returns (v: Verdict)
      modifies this`refreshing
      ensures v == KeyCache.EnterReady(config, old(Contents()), now)
      ensures Contents() == After(old(Contents()), v)
    {
      if keys != map[] && config.ttl > 0.0 && lastSuccess.At? && now - lastSuccess.time <= config.ttl {
        return Answer(true);
      }
      if refreshing {
        return Answer(false);
      }
      if lastFetch.At? && now - lastFetch.time < config.interval {
        return Answer(false);
      }
      refreshing := true;
      return Claim;
    }

    method CommitReady(o: Outcome, now: real) returns (v: Verdict)
      modifies this
      ensures Contents() == Commit(old(Contents()), o, now)
      ensures v == Answer(o.Document? && o.keys != map[])
    {
      refreshing := false;
      lastFetch := At(now);
      if o.Document? {
        keys := o.keys;
        if o.keys != map[] {
          lastSuccess := At(now);
        }
      }
      return Answer(o.Document? && o.keys != map[]);
    }
  }
}
