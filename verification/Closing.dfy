// Who can still get a container once the pool is closed.
module Closing {
  import opened PoolSpec
  import opened Protocol
  import opened Invariant
  import opened Safety

  // The thread has no container, and no Acquire past its entry check.
  predicate Outside(pc: Pc) {
    !Holding(pc) && !pc.Removing? && (pc.Acquiring? ==> pc.acq == Entry)
  }

  lemma RefusedAcquire(cfg: Config, p: Pool, pc: Pc, a: AcquireAction)
    requires CanAcquire(p, pc, a) && p.closed && Outside(pc)
    ensures Outside(AcquireStep(cfg, p, pc, a).1)
  {
  }

  lemma RefusedStep(cfg: Setup, sh: Shared, pc: Pc, a: Action)
    requires Enabled(cfg, sh, pc, a) && sh.pool.closed && Outside(pc)
    ensures Outside(Effect(cfg, sh, pc, a).1)
  {
    hide AcquireStep, CanAcquire;
    match a
    case A(a) => RefusedAcquire(cfg.pool, sh.pool, pc, a);
    case _ =>
  }

  // An Acquire whose entry check comes after the lock section of Close never
  // gets a container, in any run.
  lemma {:induction false} RefusedAfterClose(cfg: Setup, s: State, run: seq<Event>, t: Tid)
    requires Inv(cfg, s) && IsRun(cfg, s, run) && s.sh.pool.closed && Outside(PcOf(s, t))
    ensures Outside(PcOf(After(cfg, s, run), t))
    decreases |run|
  {
    hide PoolOk, PoolView, Effect, Enabled, AccountsOk, CreatingThreads, Outside;
    if run != [] {
      OwnOk(cfg, s, run[0].t);
      DriftStep(cfg, s, run[0]);
      InvStep(cfg, s, run[0]);
      if run[0].t == t {
        RefusedStep(cfg, s.sh, PcOf(s, t), run[0].a);
      }
      RefusedAfterClose(cfg, Step(cfg, s, run[0]), run[1..], t);
    }
  }

  // ---- exactly who ----

  // Something is parked or about to be.
  predicate Stocked(s: State) {
    s.sh.pool.idle != [] || exists u :: u in s.threads && s.threads[u].Parking?
  }

  // The thread has a container, is past the capacity check and has not failed
  // to make one, or is past the entry check with containers to be found.
  predicate NotRefused(pc: Pc, stocked: bool) {
    || pc.Serving?
    || pc == Acquiring(Creating) || (pc.Making? && pc.make != StartFailed)
    || ((pc == Acquiring(FastPath) || pc == Acquiring(Waiting)) && stocked)
  }

  // Some run puts the thread in charge of a job.
  ghost predicate CanBeServed(cfg: Setup, s: State, t: Tid) {
    exists run :: IsRun(cfg, s, run) && PcOf(After(cfg, s, run), t).Serving?
  }

  lemma ClosedAcquire(cfg: Config, p: Pool, pc: Pc, a: AcquireAction, stocked: bool)
    requires CanAcquire(p, pc, a) && p.closed && (p.idle != [] ==> stocked)
    ensures var (p', pc') := AcquireStep(cfg, p, pc, a);
      && (NotRefused(pc', stocked) ==> NotRefused(pc, stocked))
      && (p'.idle != [] ==> p.idle != []) && !pc'.Parking? && p'.closed
  {
  }

  lemma ClosedRelease(cfg: Config, p: Pool, pc: Pc, a: ReleaseAction)
    requires CanRelease(cfg, p, pc, a) && p.closed
    ensures var (p', pc') := ReleaseStep(cfg, p, pc, a);
      && !pc'.Serving? && !pc'.Making? && !pc'.Acquiring?
      && (p'.idle != [] ==> p.idle != [] || pc.Parking?) && !pc'.Parking? && p'.closed
  {
  }

  // A closed pool never gets better stocked, and no thread's prospects improve.
  lemma ClosedLocal(cfg: Setup, sh: Shared, pc: Pc, a: Action, stocked: bool)
    requires Enabled(cfg, sh, pc, a) && sh.pool.closed && (sh.pool.idle != [] || pc.Parking? ==> stocked)
    ensures var (sh', pc') := Effect(cfg, sh, pc, a);
      && (NotRefused(pc', stocked) ==> NotRefused(pc, stocked))
      && (sh'.pool.idle != [] || pc'.Parking? ==> stocked) && sh'.pool.closed
  {
    hide AcquireStep, ReleaseStep, CanAcquire, CanRelease;
    match a
    case A(a) => ClosedAcquire(cfg.pool, sh.pool, pc, a, stocked);
    case R(a) => ClosedRelease(cfg.pool, sh.pool, pc, a);
    case _ =>
  }

  lemma RefusedStays(cfg: Setup, s: State, e: Event, t: Tid)
    requires CanStep(cfg, s, e) && s.sh.pool.closed && !NotRefused(PcOf(s, t), Stocked(s))
    ensures var s' := Step(cfg, s, e); s'.sh.pool.closed && !NotRefused(PcOf(s', t), Stocked(s'))
  {
    hide Effect, Enabled;
    var s' := Step(cfg, s, e);
    ClosedLocal(cfg, s.sh, PcOf(s, e.t), e.a, Stocked(s));
    if Stocked(s') && s'.sh.pool.idle == [] {
      var u :| u in s'.threads && s'.threads[u].Parking?;
      assert u != e.t ==> s.threads[u] == s'.threads[u];
    }
  }

  lemma {:induction false} RefusedForGood(cfg: Setup, s: State, run: seq<Event>, t: Tid)
    requires IsRun(cfg, s, run) && s.sh.pool.closed && !NotRefused(PcOf(s, t), Stocked(s))
    ensures !PcOf(After(cfg, s, run), t).Serving?
    decreases |run|
  {
    hide Step, CanStep, Stocked;
    if run != [] {
      RefusedStays(cfg, s, run[0], t);
      RefusedForGood(cfg, Step(cfg, s, run[0]), run[1..], t);
    }
  }

  lemma ServedLater(cfg: Setup, s: State, e: Event, t: Tid)
    requires CanStep(cfg, s, e) && CanBeServed(cfg, Step(cfg, s, e), t)
    ensures CanBeServed(cfg, s, t)
  {
    hide Step, CanStep;
    var rest :| IsRun(cfg, Step(cfg, s, e), rest) && PcOf(After(cfg, Step(cfg, s, e), rest), t).Serving?;
    var run := [e] + rest;
    assert run[1..] == rest && IsRun(cfg, s, run);
    assert PcOf(After(cfg, s, run), t).Serving?;
  }

  lemma ServedNow(cfg: Setup, s: State, t: Tid)
    requires PcOf(s, t).Serving?
    ensures CanBeServed(cfg, s, t)
  {
    assert IsRun(cfg, s, []) && After(cfg, s, []) == s;
  }

  lemma MakerServed(cfg: Setup, s: State, t: Tid)
    requires var pc := PcOf(s, t); pc == Acquiring(Creating) || (pc.Making? && pc.make != StartFailed)
    ensures CanBeServed(cfg, s, t)
    decreases match PcOf(s, t) case Making(_, Registering) => 0 case Making(_, _) => 1 case _ => 2
  {
    hide CanBeServed;
    var unused := UnusedId(s.sh.pool.created);
    var pc := PcOf(s, t);
    var a := if pc.Acquiring? then AcquireAction.Create(unused)
             else if pc.make == Starting then Start else Register(pc.c);
    var s' := Step(cfg, s, Event(t, A(a)));
    if pc.Making? && pc.make == Registering {
      ServedNow(cfg, s', t);
    } else {
      MakerServed(cfg, s', t);
    }
    ServedLater(cfg, s, Event(t, A(a)), t);
  }

  lemma TakerServed(cfg: Setup, s: State, t: Tid)
    requires PcOf(s, t) == Acquiring(FastPath) || PcOf(s, t) == Acquiring(Waiting)
    requires s.sh.pool.idle != []
    ensures CanBeServed(cfg, s, t)
  {
    hide CanBeServed;
    var e := Event(t, A(AcquireAction.TakeIdle(s.sh.pool.idle[0])));
    ServedNow(cfg, Step(cfg, s, e), t);
    ServedLater(cfg, s, e, t);
  }

  lemma FinderServed(cfg: Setup, s: State, t: Tid)
    requires PcOf(s, t) == Acquiring(FastPath) || PcOf(s, t) == Acquiring(Waiting)
    requires Stocked(s) && cfg.pool.maxSize >= 1
    ensures CanBeServed(cfg, s, t)
  {
    hide CanBeServed;
    if s.sh.pool.idle != [] {
      TakerServed(cfg, s, t);
    } else {
      var u :| u in s.threads && s.threads[u].Parking?;
      var e := Event(u, R(ReleaseAction.Park(s.threads[u].c)));
      TakerServed(cfg, Step(cfg, s, e), t);
      ServedLater(cfg, s, e, t);
    }
  }

  // Once the pool is closed, a thread can still come to hold a job's container
  // if and only if it has one, is making one without a failure so far, or is
  // past the entry check while something is parked or about to be.
  lemma ServedAfterCloseIff(cfg: Setup, s: State, t: Tid)
    requires Reachable(cfg, s) && s.sh.pool.closed
    ensures CanBeServed(cfg, s, t) <==> NotRefused(PcOf(s, t), Stocked(s))
  {
    ReachableConfig(cfg, s);
    hide Reachable, Stocked;
    if !NotRefused(PcOf(s, t), Stocked(s)) {
      forall run | IsRun(cfg, s, run) ensures !PcOf(After(cfg, s, run), t).Serving? {
        RefusedForGood(cfg, s, run, t);
      }
    } else if PcOf(s, t).Serving? {
      ServedNow(cfg, s, t);
    } else if PcOf(s, t) == Acquiring(FastPath) || PcOf(s, t) == Acquiring(Waiting) {
      FinderServed(cfg, s, t);
    } else {
      MakerServed(cfg, s, t);
    }
  }

  // ---- waiting across Close ----

  // The call whose lock section has taken effect has still to signal.
  ghost predicate Signalling(s: State) {
    exists t :: t in s.threads && s.threads[t].TearingDown? && !s.threads[t].signalled
  }

  lemma SignalLocal(cfg: Setup, sh: Shared, pc: Pc, a: Action)
    requires Enabled(cfg, sh, pc, a)
    ensures var (sh', pc') := Effect(cfg, sh, pc, a);
      && (sh.pool.done ==> sh'.pool.done)
      && (sh'.pool.closed && !sh.pool.closed ==> pc'.TearingDown? && !pc'.signalled)
      && (pc.TearingDown? && !pc.signalled ==> (pc'.TearingDown? && !pc'.signalled) || sh'.pool.done)
  {
    hide AcquireStep, ReleaseStep;
    match a
    case A(a) => SignalAcquire(cfg.pool, sh.pool, pc, a);
    case R(a) => SignalRelease(cfg.pool, sh.pool, pc, a);
    case _ =>
  }

  lemma SignalAcquire(cfg: Config, p: Pool, pc: Pc, a: AcquireAction)
    requires CanAcquire(p, pc, a)
    ensures var (p', pc') := AcquireStep(cfg, p, pc, a);
      p'.done == p.done && p'.closed == p.closed && !pc.TearingDown? && !pc'.TearingDown?
  {
  }

  lemma SignalRelease(cfg: Config, p: Pool, pc: Pc, a: ReleaseAction)
    requires CanRelease(cfg, p, pc, a)
    ensures var (p', pc') := ReleaseStep(cfg, p, pc, a);
      p'.done == p.done && p'.closed == p.closed && !pc.TearingDown? && !pc'.TearingDown?
  {
  }

  lemma {:induction false} SignalRun(cfg: Setup, s: State, run: seq<Event>)
    requires IsRun(cfg, s, run) && (s.sh.pool.closed ==> s.sh.pool.done || Signalling(s))
    ensures var end := After(cfg, s, run); end.sh.pool.closed ==> end.sh.pool.done || Signalling(end)
    decreases |run|
  {
    hide Effect, Enabled;
    if run != [] {
      var e, s' := run[0], Step(cfg, s, run[0]);
      SignalLocal(cfg, s.sh, PcOf(s, e.t), e.a);
      if s'.sh.pool.closed && !s'.sh.pool.done {
        assert s'.threads[e.t] == Effect(cfg, s.sh, PcOf(s, e.t), e.a).1;
        if s.sh.pool.closed {
          var t :| t in s.threads && s.threads[t].TearingDown? && !s.threads[t].signalled;
          assert t in s'.threads && s'.threads[t].TearingDown? && !s'.threads[t].signalled;
        }
      }
      SignalRun(cfg, s', run[1..]);
    }
  }

  // A worker that waits can return ErrClosed, at once or right after the signal
  // of the Close that took effect, if and only if the pool is closed.
  ghost predicate CanReturnClosed(cfg: Setup, s: State, waiter: Tid) {
    || CanStep(cfg, s, Event(waiter, A(WakeClosed)))
    || exists t :: CanStep(cfg, s, Event(t, C(CloseDone)))
         && CanStep(cfg, Step(cfg, s, Event(t, C(CloseDone))), Event(waiter, A(WakeClosed)))
  }

  lemma CloseReleasesWaiterIff(cfg: Setup, s: State, waiter: Tid)
    requires Reachable(cfg, s) && PcOf(s, waiter) == Acquiring(Waiting)
    ensures CanReturnClosed(cfg, s, waiter) <==> s.sh.pool.closed
  {
    ReachableInv(cfg, s);
    ReachableSignal(cfg, s);
    hide Reachable, Inv, Step, CanStep;
    WakeClosedIff(cfg, s, waiter);
    if s.sh.pool.closed && !s.sh.pool.done {
      var t :| t in s.threads && s.threads[t].TearingDown? && !s.threads[t].signalled;
      SignalWakes(cfg, s, t, waiter);
    }
    if CanReturnClosed(cfg, s, waiter) && !CanStep(cfg, s, Event(waiter, A(WakeClosed))) {
      var t :| CanStep(cfg, s, Event(t, C(CloseDone)));
      OnlyClosedSignals(cfg, s, t);
    }
  }

  lemma ReachableSignal(cfg: Setup, s: State)
    requires Reachable(cfg, s)
    ensures s.sh.pool.closed ==> s.sh.pool.done || Signalling(s)
  {
    var s0, run :| Init(cfg, s0) && IsRun(cfg, s0, run) && After(cfg, s0, run) == s;
    hide Step, CanStep, Signalling;
    SignalRun(cfg, s0, run);
  }

  lemma WakeClosedIff(cfg: Setup, s: State, waiter: Tid)
    requires Inv(cfg, s) && PcOf(s, waiter) == Acquiring(Waiting)
    ensures CanStep(cfg, s, Event(waiter, A(WakeClosed))) <==> s.sh.pool.done
    ensures s.sh.pool.done ==> s.sh.pool.closed
  {
  }

  lemma SignalWakes(cfg: Setup, s: State, t: Tid, waiter: Tid)
    requires t in s.threads && s.threads[t].TearingDown? && !s.threads[t].signalled
    requires PcOf(s, waiter) == Acquiring(Waiting)
    ensures CanStep(cfg, s, Event(t, C(CloseDone)))
    ensures CanStep(cfg, Step(cfg, s, Event(t, C(CloseDone))), Event(waiter, A(WakeClosed)))
  {
  }

  lemma OnlyClosedSignals(cfg: Setup, s: State, t: Tid)
    requires Inv(cfg, s) && CanStep(cfg, s, Event(t, C(CloseDone)))
    ensures s.sh.pool.closed
  {
    hide PoolOk, AccountsOk, CapacityOk;
    assert PcOk(cfg, s.sh, PcOf(s, t));
  }

  // ---- the order of a shutdown ----

  // Whoever tears the pool down and has signalled has closed the done channel.
  ghost predicate SignalsHeard(s: State) {
    forall t :: t in s.threads && s.threads[t].TearingDown? && s.threads[t].signalled ==> s.sh.pool.done
  }

  lemma ShutdownLocal(cfg: Setup, sh: Shared, pc: Pc, a: Action)
    requires Enabled(cfg, sh, pc, a) && (pc.TearingDown? && pc.signalled ==> sh.pool.done)
    ensures var (sh', pc') := Effect(cfg, sh, pc, a);
      && (sh.pool.done ==> sh'.pool.done) && (pc'.TearingDown? && pc'.signalled ==> sh'.pool.done)
      && (sh'.cancelled <==> sh.cancelled || a == C(CallEnvClose))
      && (sh'.reaperDone ==> sh.reaperDone || sh.cancelled)
  {
    hide AcquireStep, ReleaseStep, CanAcquire, CanRelease;
    match a
    case A(a) => SignalAcquire(cfg.pool, sh.pool, pc, a);
    case R(a) => SignalRelease(cfg.pool, sh.pool, pc, a);
    case _ =>
  }

  lemma {:induction false} ShutdownRun(cfg: Setup, s: State, run: seq<Event>)
    requires IsRun(cfg, s, run) && SignalsHeard(s) && (s.sh.reaperDone ==> s.sh.cancelled)
    ensures var end := After(cfg, s, run);
      && SignalsHeard(end) && (end.sh.reaperDone ==> end.sh.cancelled)
      && (end.sh.cancelled <==> s.sh.cancelled || exists i :: 0 <= i < |run| && run[i].a == C(CallEnvClose))
    decreases |run|
  {
    hide Effect, Enabled;
    if run != [] {
      var rest := run[1..];
      ShutdownLocal(cfg, s.sh, PcOf(s, run[0].t), run[0].a);
      ShutdownRun(cfg, Step(cfg, s, run[0]), rest);
      assert forall i :: 0 < i < |run| ==> run[i] == rest[i - 1];
    }
  }

  // No container is removed by Close before every waiting Acquire can see that
  // the pool is closed, and the reaper stops for nothing but an environment's
  // Close, which is what cancels it.
  lemma ShutdownOrder(cfg: Setup, s: State, run: seq<Event>, t: Tid, c: Id)
    requires Init(cfg, s) && IsRun(cfg, s, run)
    ensures var end := After(cfg, s, run);
      && (CanStep(cfg, end, Event(t, C(CloseRemove(c)))) ==> end.sh.pool.done)
      && (end.sh.reaperDone || CanStep(cfg, end, Event(t, S(Exit))) ==>
            exists i :: 0 <= i < |run| && run[i].a == C(CallEnvClose))
  {
    ShutdownRun(cfg, s, run);
  }
}
