/** Runs of the key cache: any number of `_resolve_key` and `ready` calls, interleaved at
    their critical sections, with clock readings and fetch outcomes picked by the
    environment. The world also keeps the history the theorems speak of. */
module KeyCacheRuns {
  import opened Texts
  import opened KeyCache

  datatype Kind = Resolve(kid: Text) | Probe

  datatype Reply = Key(key: Jwk) | Error(error: KeyCache.Error) | Ready(ready: bool)

  /** Where a call stands between critical sections. */
  datatype Pc =
    | Running                                 // inside its current section
    | Waiting(since: real, notified: bool)    // in `_refresh_done.wait`
    | Fetching                                // claimed the refresh, outside the lock
    | Looking                                 // committed keys, about to take the lock again
    | Done(reply: Reply, at: real, end: nat)

  /** `begin` and `end` count the documents committed when the call entered and left;
      `fetch` is the span of the fetch it ran, if it ran one. */
  datatype Call = Call(kind: Kind, begin: nat, pc: Pc, fetch: Option<nat>)

  datatype Close = Close(at: real, outcome: Outcome)

  /** A fetch, from the section that claimed it to the section that committed it. */
  datatype Span = Span(owner: nat, start: real, close: Option<Close>)

  datatype Published = Published(keys: Keys, at: real)

  datatype World = World(cache: Cache, clock: real, calls: seq<Call>, log: seq<Published>, spans: seq<Span>)

  const START := World(COLD, 0.0, [], [], [])

  datatype Step =
    | BeginResolve(kid: Text, now: real, later: real)
    | BeginReady(now: real)
    | Wake(c: nat, now: real)      // a notified waiter has the lock back
    | GiveUp(c: nat, now: real)    // `wait` timed out
    | Finish(c: nat, fetched: Fetched, now: real)
    | Look(c: nat, now: real)

  predicate Enabled(cfg: Config, w: World, s: Step) {
    match s
    case BeginResolve(_, now, later) => w.clock <= now <= later
    case BeginReady(now) => w.clock <= now
    case Wake(c, now) =>
      w.clock <= now && c < |w.calls| && w.calls[c].kind.Resolve? && w.calls[c].pc.Waiting? && w.calls[c].pc.notified
    case GiveUp(c, now) =>
      w.clock <= now && c < |w.calls| && w.calls[c].pc.Waiting? && now - w.calls[c].pc.since >= cfg.patience
    case Finish(c, _, now) => w.clock <= now && c < |w.calls| && w.calls[c].pc.Fetching? && w.calls[c].fetch.Some?
    case Look(c, now) => w.clock <= now && c < |w.calls| && w.calls[c].kind.Resolve? && w.calls[c].pc.Looking?
  }

  function Spawn(w: World, kind: Kind): World {
    w.(calls := w.calls + [Call(kind, |w.log|, Running, None)])
  }

  function SetPc(w: World, c: nat, pc: Pc): World
    requires c < |w.calls|
  {
    w.(calls := w.calls[c := w.calls[c].(pc := pc)])
  }

  /** Call `c` leaves its section at `now` with verdict `v`. */
  function Land(w: World, c: nat, v: Verdict, now: real): World
    requires c < |w.calls|
  {
    var w := w.(clock := now, cache := After(w.cache, v));
    match v
    case Return(key) => SetPc(w, c, Done(Key(key), now, |w.log|))
    case Answer(ready) => SetPc(w, c, Done(Ready(ready), now, |w.log|))
    case Raise(error) => SetPc(w, c, Done(Error(error), now, |w.log|))
    case Wait => SetPc(w, c, Waiting(now, false))
    case Claim =>
      w.(calls := w.calls[c := w.calls[c].(pc := Fetching, fetch := Some(|w.spans|))],
         spans := w.spans + [Span(c, now, None)])
  }

  /** `notify_all` */
  function Notify(calls: seq<Call>): (r: seq<Call>)
    ensures |r| == |calls|
  {
    seq(|calls|, i requires 0 <= i < |calls| =>
      if calls[i].pc.Waiting? then calls[i].(pc := calls[i].pc.(notified := true)) else calls[i])
  }

  function Logged(log: seq<Published>, o: Outcome, now: real): seq<Published> {
    match o case Failure => log case Document(keys) => log + [Published(keys, now)]
  }

  function AfterCommit(kind: Kind, o: Outcome, now: real, end: nat): Pc {
    match (kind, o)
    case (Probe, _) => Done(Ready(o.Document? && o.keys != map[]), now, end)
    case (_, Failure) => Done(Error(RetrievalFailed), now, end)
    case (_, Document(keys)) => if keys == map[] then Done(Error(NoUsableKeys), now, end) else Looking
  }

  function Conclude(w: World, c: nat, o: Outcome, now: real): World
    requires c < |w.calls| && w.calls[c].fetch.Some?
  {
    var log := Logged(w.log, o, now);
    var f := w.calls[c].fetch.value;
    World(Commit(w.cache, o, now), now,
          Notify(w.calls)[c := w.calls[c].(pc := AfterCommit(w.calls[c].kind, o, now, |log|))],
          log,
          if f < |w.spans| then w.spans[f := w.spans[f].(close := Some(Close(now, o)))] else w.spans)
  }

  function Apply(cfg: Config, w: World, s: Step): World
    requires Enabled(cfg, w, s)
  {
    match s
    case BeginResolve(kid, now, later) =>
      Land(Spawn(w, Resolve(kid)), |w.calls|, EnterResolve(cfg, w.cache, kid, now, later), later)
    case BeginReady(now) => Land(Spawn(w, Probe), |w.calls|, EnterReady(cfg, w.cache, now), now)
    case Wake(c, now) => Land(w, c, WakeResolve(cfg, w.cache, w.calls[c].kind.kid, now), now)
    case GiveUp(c, now) => Land(w, c, Raise(TimedOut), now)
    case Finish(c, fetched, now) => Conclude(w, c, ParseJwks(fetched), now)
    case Look(c, now) => Land(w, c, FinalLookup(w.cache, w.calls[c].kind.kid), now)
  }

  // ----- runs -----

  ghost predicate Run(cfg: Config, steps: seq<Step>)
    decreases |steps|, 0
  {
    steps == [] ||
    (var front := steps[..|steps| - 1];
     Run(cfg, front) && Enabled(cfg, Exec(cfg, front), steps[|steps| - 1]))
  }

  ghost function Exec(cfg: Config, steps: seq<Step>): World
    requires Run(cfg, steps)
    decreases |steps|, 1
  {
    if steps == [] then START
    else Apply(cfg, Exec(cfg, steps[..|steps| - 1]), steps[|steps| - 1])
  }

  /** The specification the cache refines: the key map of the last well-formed document
      that a step of the run brought in. */
  function LastDocument(steps: seq<Step>): Keys {
    if steps == [] then map[]
    else
      match steps[|steps| - 1]
      case Finish(_, fetched, _) =>
        (match ParseJwks(fetched)
         case Document(keys) => keys
         case Failure => LastDocument(steps[..|steps| - 1]))
      case _ => LastDocument(steps[..|steps| - 1])
  }

  // ----- history -----

  function DocAt(log: seq<Published>, n: nat): Keys
    requires n <= |log|
  {
    if n == 0 then map[] else log[n - 1].keys
  }

  /** `kid` is in the document in force at every moment from `a` to `b`. */
  ghost predicate Steady(log: seq<Published>, kid: Text, a: nat, b: nat)
    requires b <= |log|
  {
    forall n: nat | a <= n <= b :: kid in DocAt(log, n)
  }

  function LastUsable(log: seq<Published>): Stamp {
    if log == [] then Never
    else if log[|log| - 1].keys != map[] then At(log[|log| - 1].at)
    else LastUsable(log[..|log| - 1])
  }

  /** The least time from the end of one fetch to the start of the next. */
  function Spacing(cfg: Config): real {
    if cfg.ttl <= cfg.interval then cfg.ttl else cfg.interval
  }

  // ----- the invariant -----

  /** What a finished call may have answered. */
  ghost predicate ReplyOk(cfg: Config, log: seq<Published>, spans: seq<Span>, call: Call)
    requires call.pc.Done? && call.begin <= call.pc.end <= |log|
    requires call.fetch.Some? ==> call.fetch.value < |spans|
  {
    var Done(reply, at, end) := call.pc;
    var doc := DocAt(log, end);
    match (call.kind, reply)
    case (Resolve(kid), Key(key)) => kid in doc && key == doc[kid]
    case (Resolve(kid), Error(_)) =>
      !Steady(log, kid, call.begin, end) ||
      (call.fetch.Some? && spans[call.fetch.value].close == Some(Close(at, Failure)))
    case (Probe, Ready(ready)) =>
      if call.fetch.None? then
        end == call.begin &&
        (ready <==> doc != map[] && cfg.ttl > 0.0 && at - log[end - 1].at <= cfg.ttl)
      else
        var close := spans[call.fetch.value].close;
        close.Some? && close.value.at == at &&
        (ready <==> close.value.outcome.Document? && close.value.outcome.keys != map[]) &&
        (ready ==> end > 0 && log[end - 1] == Published(close.value.outcome.keys, at))
    case _ => false
  }

  ghost predicate CallOk(cfg: Config, log: seq<Published>, spans: seq<Span>, i: nat, call: Call) {
    call.begin <= |log| &&
    (call.fetch.Some? ==> call.fetch.value < |spans| && spans[call.fetch.value].owner == i) &&
    match call.pc
    case Running => call.fetch.None?
    case Waiting(_, _) => call.kind.Resolve? && call.fetch.None? && !Steady(log, call.kind.kid, call.begin, |log|)
    case Fetching => call.fetch.Some? && spans[call.fetch.value].close.None?
    case Looking =>
      call.kind.Resolve? && call.fetch.Some? &&
      spans[call.fetch.value].close.Some? && spans[call.fetch.value].close.value.outcome.Document?
    case Done(_, _, end) => call.begin <= end <= |log| && ReplyOk(cfg, log, spans, call)
  }

  ghost predicate CallsOk(cfg: Config, w: World) {
    forall i | 0 <= i < |w.calls| :: CallOk(cfg, w.log, w.spans, i, w.calls[i])
  }

  /** Spans that are closed: all of them, but for the last while a refresh is in flight. */
  function ClosedSpans(w: World): int {
    |w.spans| - (if w.cache.refreshing then 1 else 0)
  }

  ghost predicate CacheOk(w: World) {
    var c := w.cache;
    c.keys == DocAt(w.log, |w.log|) && c.lastSuccess == LastUsable(w.log) &&
    0 <= ClosedSpans(w) &&
    (c.lastFetch.Never? <==> ClosedSpans(w) == 0) &&
    (c.lastFetch.At? ==>
       c.lastFetch.time <= w.clock &&
       w.spans[ClosedSpans(w) - 1].close.Some? && w.spans[ClosedSpans(w) - 1].close.value.at == c.lastFetch.time) &&
    (c.lastSuccess.At? ==> c.lastFetch.At? && c.lastSuccess.time <= c.lastFetch.time)
  }

  ghost predicate FlightOk(w: World) {
    (forall i | 0 <= i < |w.spans| ::
       w.spans[i].owner < |w.calls| && w.calls[w.spans[i].owner].fetch == Some(i) &&
       (w.spans[i].close.None? <==> w.cache.refreshing && i == |w.spans| - 1) &&
       (w.spans[i].close.None? ==> w.calls[w.spans[i].owner].pc.Fetching?)) &&
    (forall i | 0 <= i < |w.calls| :: w.calls[i].pc.Fetching? ==> w.cache.refreshing) &&
    (forall i | 0 <= i < |w.calls| :: w.calls[i].pc.Waiting? && !w.calls[i].pc.notified ==> w.cache.refreshing)
  }

  /** Fetch `a` had ended when `b` started, by at least the spacing. */
  ghost predicate Apart(cfg: Config, a: Span, b: Span) {
    a.close.Some? && a.close.value.at <= b.start && a.close.value.at + Spacing(cfg) <= b.start
  }

  ghost predicate SpansOk(cfg: Config, w: World) {
    (forall i | 0 <= i < |w.spans| ::
       w.spans[i].start <= w.clock &&
       (w.spans[i].close.Some? ==> w.spans[i].start <= w.spans[i].close.value.at <= w.clock)) &&
    (forall i, k | 0 <= i < k < |w.spans| :: Apart(cfg, w.spans[i], w.spans[k]))
  }

  ghost predicate Inv(cfg: Config, w: World) {
    CacheOk(w) && FlightOk(w) && SpansOk(cfg, w) && CallsOk(cfg, w)
  }
}
