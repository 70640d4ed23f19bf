/** The verifier object driven through a run: its methods, called in the order of the run's
    steps, keep the object in the state the run prescribes. */
module VerifierRuns {
  import opened Texts
  import opened KeyCache
  import opened KeyCacheRuns
  import opened KeyCacheProofs
  import opened KeyCacheTheorems
  import opened Verifier

  lemma {:induction false} PrefixRuns(cfg: Config, steps: seq<Step>, i: nat)
    requires Run(cfg, steps) && i < |steps|
    ensures Run(cfg, steps[..i]) && Enabled(cfg, Exec(cfg, steps[..i]), steps[i])
    ensures Run(cfg, steps[..i + 1]) && Exec(cfg, steps[..i + 1]) == Apply(cfg, Exec(cfg, steps[..i]), steps[i])
    decreases |steps|
  {
    var front := steps[..|steps| - 1];
    if i == |steps| - 1 {
      assert steps[..i + 1] == steps && steps[..i] == front;
    } else {
      assert front[..i] == steps[..i] && front[..i + 1] == steps[..i + 1];
      PrefixRuns(cfg, front, i);
    }
  }

  /** One step: the object decides, the caller's place in the world follows its verdict. */
  method Execute(v: JwksVerifier, w: World, s: Step) returns (w': World)
    requires Enabled(v.config, w, s) && v.Contents() == w.cache
    modifies v
    ensures w' == Apply(v.config, w, s) && v.Contents() == w'.cache
  {
    match s {
      case BeginResolve(kid, now, later) =>
        var verdict := v.EnterResolve(kid, now, later);
        w' := Land(Spawn(w, Resolve(kid)), |w.calls|, verdict, later);
      case BeginReady(now) =>
        var verdict := v.EnterReady(now);
        w' := Land(Spawn(w, Probe), |w.calls|, verdict, now);
      case Wake(c, now) =>
        var verdict := v.WakeResolve(w.calls[c].kind.kid, now);
        w' := Land(w, c, verdict, now);
      case GiveUp(c, now) =>
        w' := Land(w, c, Raise(TimedOut), now);
      case Look(c, now) =>
        var verdict := v.LookUp(w.calls[c].kind.kid);
        w' := Land(w, c, verdict, now);
      case Finish(c, fetched, now) =>
        var o := ParseJwks(fetched);
        w' := Conclude(w, c, o, now);
        if w.calls[c].kind.Probe? {
          var verdict := v.CommitReady(o, now);
          assert w'.calls[c].pc == Done(Ready(verdict.ready), now, |w'.log|);
        } else {
          var error := v.CommitResolve(o, now);
          assert w'.calls[c].pc ==
                 match error case Some(e) => Done(KeyCacheRuns.Reply.Error(e), now, |w'.log|) case None => Looking;
        }
    }
  }

  /** A whole run: starting cold, the object ends with the keys of the last well-formed
      document that arrived, and in the state in which the run's theorems hold. */
  method Replay(v: JwksVerifier, steps: seq<Step>) returns (w: World)
    requires Run(v.config, steps) && v.Contents() == COLD
    modifies v
    ensures w == Exec(v.config, steps) && v.Contents() == w.cache
    ensures v.keys == LastDocument(steps)
    ensures Inv(v.config, w)
  {
    w := START;
    for i := 0 to |steps|
      invariant Run(v.config, steps[..i]) && w == Exec(v.config, steps[..i]) && v.Contents() == w.cache
    {
      PrefixRuns(v.config, steps, i);
      w := Execute(v, w, steps[i]);
    }
    assert steps[..|steps|] == steps;
    CacheIsLastDocument(v.config, steps);
    RunKeepsInv(v.config, steps);
  }
}
