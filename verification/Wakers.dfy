// Who can wake a worker that waits at capacity. Only a container put into the
// channel does, so a worker waits in vain once nobody is left to put one there.
module Wakers {
  import opened PoolSpec
  import opened Protocol
  import opened Invariant
  import opened Safety
  import opened Wakeup

  // The thread is on its way to a container of its own and has not failed.
  predicate MayGrow(pc: Pc) {
    || Unreserved(pc) || pc == Acquiring(Creating)
    || (pc.Making? && pc.make != StartFailed)
  }

  // The thread may yet put a container into the channel: it is doing so, serves
  // a registered one that will be reused, or will make one that will be.
  predicate Helper(cfg: Config, p: Pool, pc: Pc) {
    || pc.Parking?
    || (pc.Serving? && pc.c in p.all && Reusable(cfg, p, pc.c))
    || (cfg.maxJobs != 1 && MayGrow(pc))
  }

  predicate HasHelper(cfg: Config, s: State) {
    exists t :: t in s.threads && Helper(cfg, s.sh.pool, s.threads[t])
  }

  // The run starts no new call.
  ghost predicate NoNewCall(run: seq<Event>) {
    forall i :: 0 <= i < |run| ==> !Enters(run[i].a)
  }

  // The waiter's receive from the channel is enabled.
  ghost predicate TakeEnabled(cfg: Setup, s: State, waiter: Tid) {
    PcOf(s, waiter) == Acquiring(Waiting) && exists c :: CanStep(cfg, s, Event(waiter, A(TakeIdle(c))))
  }

  lemma TakeEnabledIff(cfg: Setup, s: State, waiter: Tid)
    ensures TakeEnabled(cfg, s, waiter) <==> PcOf(s, waiter) == Acquiring(Waiting) && s.sh.pool.idle != []
  {
    if PcOf(s, waiter) == Acquiring(Waiting) && s.sh.pool.idle != [] {
      CanTake(cfg, s, waiter);
    }
  }

  // Some run of the calls already under way lets the waiter take a container.
  ghost predicate Wakeable(cfg: Setup, s: State, waiter: Tid) {
    exists run :: IsRun(cfg, s, run) && NoNewCall(run) && TakeEnabled(cfg, After(cfg, s, run), waiter)
  }

  // Some run at all does.
  ghost predicate EverWoken(cfg: Setup, s: State, waiter: Tid) {
    exists run :: IsRun(cfg, s, run) && TakeEnabled(cfg, After(cfg, s, run), waiter)
  }

  // ---- without a helper nobody comes ----

  // Nothing is in the channel and nothing will be put there.
  predicate Forsaken(cfg: Config, p: Pool, pc: Pc) {
    p.idle == [] && (if p.closed then !pc.Parking? else !Helper(cfg, p, pc))
  }

  ghost predicate AllForsaken(cfg: Config, s: State) {
    && s.sh.pool.idle == []
    && forall t :: t in s.threads ==> Forsaken(cfg, s.sh.pool, s.threads[t])
  }

  lemma ForsakenAcquire(cfg: Setup, sh: Shared, pc: Pc, a: AcquireAction)
    requires LocalOk(cfg, sh, pc) && CanAcquire(sh.pool, pc, a) && a != Begin
    requires Forsaken(cfg.pool, sh.pool, pc)
    ensures var (p, pc') := AcquireStep(cfg.pool, sh.pool, pc, a); Forsaken(cfg.pool, p, pc')
  {
  }

  lemma ForsakenRelease(cfg: Setup, sh: Shared, pc: Pc, a: ReleaseAction)
    requires LocalOk(cfg, sh, pc) && CanRelease(cfg.pool, sh.pool, pc, a) && Forsaken(cfg.pool, sh.pool, pc)
    ensures var (p, pc') := ReleaseStep(cfg.pool, sh.pool, pc, a); Forsaken(cfg.pool, p, pc')
  {
  }

  lemma ForsakenClose(cfg: Setup, sh: Shared, pc: Pc, a: CloseAction)
    requires CanClose(cfg, sh, pc, a) && Forsaken(cfg.pool, sh.pool, pc)
    ensures var (sh', pc') := CloseStep(cfg, sh, pc, a); Forsaken(cfg.pool, sh'.pool, pc')
  {
  }

  lemma ForsakenSweep(cfg: Setup, sh: Shared, pc: Pc, a: SweepAction)
    requires CanSweep(sh, pc, a) && Forsaken(cfg.pool, sh.pool, pc)
    ensures var (sh', pc') := SweepStep(sh, pc, a); Forsaken(cfg.pool, sh'.pool, pc')
  {
  }

  lemma ForsakenOwn(cfg: Setup, sh: Shared, pc: Pc, a: Action)
    requires LocalOk(cfg, sh, pc) && Enabled(cfg, sh, pc, a) && !Enters(a) && Forsaken(cfg.pool, sh.pool, pc)
    ensures var (sh', pc') := Effect(cfg, sh, pc, a); Forsaken(cfg.pool, sh'.pool, pc')
  {
    hide AcquireStep, ReleaseStep, CloseStep, SweepStep, CanAcquire, CanRelease, CanClose, CanSweep;
    match a
    case A(a) => ForsakenAcquire(cfg, sh, pc, a);
    case R(a) => ForsakenRelease(cfg, sh, pc, a);
    case C(a) => ForsakenClose(cfg, sh, pc, a);
    case S(a) => ForsakenSweep(cfg, sh, pc, a);
    case _ =>
  }

  // No action of one thread turns another into a helper.
  lemma ForsakenOther(cfg: Setup, sh: Shared, pc: Pc, a: Action, other: Pc)
    requires LocalOk(cfg, sh, pc) && Enabled(cfg, sh, pc, a)
    requires PcOk(cfg, sh, other) && Compatible(pc, other) && Forsaken(cfg.pool, sh.pool, other)
    requires Effect(cfg, sh, pc, a).0.pool.idle == []
    ensures Forsaken(cfg.pool, Effect(cfg, sh, pc, a).0.pool, other)
  {
    hide Effect, Enabled, PoolOk;
    var c := if Holding(other) then other.c else if Holding(pc) then pc.c + 1 else 0;
    Guarantee(cfg, sh, pc, a, c);
  }

  lemma ForsakenStep(cfg: Setup, s: State, e: Event)
    requires Inv(cfg, s) && AllForsaken(cfg.pool, s) && CanStep(cfg, s, e) && !Enters(e.a)
    ensures AllForsaken(cfg.pool, Step(cfg, s, e))
  {
    hide PoolOk, PoolView, Effect, Enabled, AccountsOk, CapacityOk;
    var s', pc := Step(cfg, s, e), PcOf(s, e.t);
    OwnOk(cfg, s, e.t);
    ForsakenOwn(cfg, s.sh, pc, e.a);
    forall t | t in s'.threads ensures Forsaken(cfg.pool, s'.sh.pool, s'.threads[t]) {
      if t != e.t {
        assert Compatible(pc, s.threads[t]);
        ForsakenOther(cfg, s.sh, pc, e.a, s.threads[t]);
      }
    }
  }

  lemma {:induction false} ForsakenRun(cfg: Setup, s: State, run: seq<Event>)
    requires Inv(cfg, s) && AllForsaken(cfg.pool, s) && IsRun(cfg, s, run) && NoNewCall(run)
    ensures After(cfg, s, run).sh.pool.idle == []
    decreases |run|
  {
    if run != [] {
      assert !Enters(run[0].a);
      ForsakenStep(cfg, s, run[0]);
      hide Inv, Effect, Enabled, Forsaken;
      InvStep(cfg, s, run[0]);
      ForsakenRun(cfg, Step(cfg, s, run[0]), run[1..]);
    }
  }

  // ---- an occupant that cannot park gives its slot back ----

  function StepsToFree(pc: Pc): nat {
    match pc
    case Acquiring(Unreserving) => 1
    case Making(_, StartFailed) => 2
    case Serving(_, Acquired) => 4
    case Serving(_, Releasing) => 2
    case Serving(_, _) => 3
    case Discarding(_) => 1
    case _ => 0
  }

  predicate WillFree(cfg: Config, p: Pool, pc: Pc) {
    && StepsToFree(pc) > 0
    && (Live(pc) ==> pc.c in p.all && pc.c in p.jobs)
    && (pc.Serving? ==> !Reusable(cfg, p, pc.c))
  }

  lemma FreeProgress(cfg: Setup, sh: Shared, pc: Pc)
    requires !sh.pool.closed && sh.pool.idle == [] && WillFree(cfg.pool, sh.pool, pc)
    ensures var a := NextAction(cfg.pool, sh.pool, pc, 0);
      && Enabled(cfg, sh, pc, a) && Benign(a) && !a.Tick? && !Enters(a)
      && var (sh', pc') := Effect(cfg, sh, pc, a);
         && !sh'.pool.closed && sh'.pool.idle == []
         && (if StepsToFree(pc) == 1 then sh'.pool.count == sh.pool.count - 1
             else sh'.pool.count == sh.pool.count && WillFree(cfg.pool, sh'.pool, pc')
                  && StepsToFree(pc') < StepsToFree(pc))
  {
  }

  lemma {:induction false} FreesAlone(cfg: Setup, s: State, t: Tid) returns (run: seq<Event>)
    requires !s.sh.pool.closed && s.sh.pool.idle == [] && WillFree(cfg.pool, s.sh.pool, PcOf(s, t))
    ensures IsRun(cfg, s, run) && BenignSteps(run, t)
    ensures var end := After(cfg, s, run);
      && !end.sh.pool.closed && end.sh.pool.idle == [] && end.sh.pool.count == s.sh.pool.count - 1
      && forall u :: u != t ==> PcOf(end, u) == PcOf(s, u)
    decreases StepsToFree(PcOf(s, t))
  {
    var pc := PcOf(s, t);
    var e := Event(t, NextAction(cfg.pool, s.sh.pool, pc, 0));
    FreeProgress(cfg, s.sh, pc);
    hide Effect, Enabled, NextAction, WillFree;
    var s', rest := Step(cfg, s, e), [];
    if StepsToFree(pc) != 1 {
      rest := FreesAlone(cfg, s', t);
    }
    run := [e] + rest;
    assert run[1..] == rest;
  }

  // ---- with a helper someone can come ----

  lemma {:induction false} RunConcat(cfg: Setup, s: State, a: seq<Event>, b: seq<Event>)
    requires IsRun(cfg, s, a) && IsRun(cfg, After(cfg, s, a), b)
    ensures IsRun(cfg, s, a + b) && After(cfg, s, a + b) == After(cfg, After(cfg, s, a), b)
    decreases |a|
  {
    hide Step, CanStep;
    if a == [] {
      assert a + b == b;
    } else {
      assert (a + b)[1..] == a[1..] + b;
      RunConcat(cfg, Step(cfg, s, a[0]), a[1..], b);
    }
  }

  lemma WakeableAfter(cfg: Setup, s: State, run: seq<Event>, waiter: Tid)
    requires IsRun(cfg, s, run) && NoNewCall(run) && Wakeable(cfg, After(cfg, s, run), waiter)
    ensures Wakeable(cfg, s, waiter)
  {
    var mid := After(cfg, s, run);
    var rest :| IsRun(cfg, mid, rest) && NoNewCall(rest) && TakeEnabled(cfg, After(cfg, mid, rest), waiter);
    RunConcat(cfg, s, run, rest);
    assert NoNewCall(run + rest);
  }

  // A thread that can park ends the wait.
  lemma ParkerWakes(cfg: Setup, s: State, t: Tid, waiter: Tid)
    requires cfg.pool.maxSize >= 1 && !s.sh.pool.closed && s.sh.pool.idle == []
    requires CanPark(cfg.pool, s.sh.pool, PcOf(s, t)) && PcOf(s, waiter) == Acquiring(Waiting)
    ensures Wakeable(cfg, s, waiter)
  {
    assert t != waiter;
    hide CanPark, IsRun, After;
    var run := ParksAlone(cfg, s, t);
    assert NoNewCall(run);
    TakeEnabledIff(cfg, After(cfg, s, run), waiter);
  }

  // With nothing parked, a thread that occupies a slot can park or frees it.
  lemma OccupantEither(cfg: Setup, sh: Shared, pc: Pc)
    requires PcOk(cfg, sh, pc) && cfg.pool.maxJobs != 1
    requires Creates(pc) || (Live(pc) && pc.c in sh.pool.all)
    ensures CanPark(cfg.pool, sh.pool, pc) || WillFree(cfg.pool, sh.pool, pc)
  {
  }

  lemma SomeOccupant(cfg: Setup, s: State) returns (t: Tid)
    requires Inv(cfg, s) && !s.sh.pool.closed && s.sh.pool.idle == [] && s.sh.pool.count >= 1
    ensures t in s.threads && PcOk(cfg, s.sh, s.threads[t])
    ensures Creates(s.threads[t]) || (Live(s.threads[t]) && s.threads[t].c in s.sh.pool.all)
  {
    hide PoolOk, PoolView, AccountsOk, CapacityOk;
    SlotsOccupied(cfg, s);
    t :| t in Occupants(s);
  }

  // Once an occupant has given its slot back, a thread before its Reserve takes it.
  lemma FreedWakes(cfg: Setup, s: State, u: Tid, t: Tid, waiter: Tid)
    requires cfg.pool.maxSize >= 1 && cfg.pool.maxJobs != 1 && s.sh.pool.count <= cfg.pool.maxSize
    requires !s.sh.pool.closed && s.sh.pool.idle == [] && WillFree(cfg.pool, s.sh.pool, PcOf(s, u))
    requires Unreserved(PcOf(s, t)) && PcOf(s, waiter) == Acquiring(Waiting)
    ensures Wakeable(cfg, s, waiter)
  {
    assert u != t && u != waiter;
    hide IsRun, After, WillFree, Wakeable;
    var run := FreesAlone(cfg, s, u);
    assert NoNewCall(run);
    ParkerWakes(cfg, After(cfg, s, run), t, waiter);
    WakeableAfter(cfg, s, run, waiter);
  }

  // A thread before its Reserve grows a container, if need be after an occupant
  // has given its slot back.
  lemma GrowerWakes(cfg: Setup, s: State, t: Tid, waiter: Tid)
    requires Inv(cfg, s) && cfg.pool.maxSize >= 1 && cfg.pool.maxJobs != 1
    requires !s.sh.pool.closed && s.sh.pool.idle == []
    requires Unreserved(PcOf(s, t)) && PcOf(s, waiter) == Acquiring(Waiting)
    ensures Wakeable(cfg, s, waiter)
  {
    if s.sh.pool.count < cfg.pool.maxSize {
      ParkerWakes(cfg, s, t, waiter);
    } else {
      CountCapped(cfg, s);
      hide Inv, PcOk, CanPark, WillFree, Wakeable, Unreserved;
      var u := SomeOccupant(cfg, s);
      OccupantEither(cfg, s.sh, s.threads[u]);
      if CanPark(cfg.pool, s.sh.pool, s.threads[u]) {
        ParkerWakes(cfg, s, u, waiter);
      } else {
        FreedWakes(cfg, s, u, t, waiter);
      }
    }
  }

  lemma HelperWakes(cfg: Setup, s: State, t: Tid, waiter: Tid)
    requires Inv(cfg, s) && cfg.pool.maxSize >= 1 && !s.sh.pool.closed && s.sh.pool.idle == []
    requires t in s.threads && Helper(cfg.pool, s.sh.pool, s.threads[t]) && PcOf(s, waiter) == Acquiring(Waiting)
    ensures Wakeable(cfg, s, waiter)
  {
    if Unreserved(s.threads[t]) {
      GrowerWakes(cfg, s, t, waiter);
    } else {
      assert CanPark(cfg.pool, s.sh.pool, s.threads[t]);
      ParkerWakes(cfg, s, t, waiter);
    }
  }

  // A worker waiting on an open pool can be given a container by the calls under
  // way if and only if one is parked or some thread may yet park one.
  lemma WakeableIff(cfg: Setup, s: State, waiter: Tid)
    requires Reachable(cfg, s) && !s.sh.pool.closed && PcOf(s, waiter) == Acquiring(Waiting)
    ensures Wakeable(cfg, s, waiter) <==> s.sh.pool.idle != [] || HasHelper(cfg.pool, s)
  {
    ReachableInv(cfg, s);
    ReachableConfig(cfg, s);
    hide Reachable, Inv, Helper;
    TakeEnabledIff(cfg, s, waiter);
    if s.sh.pool.idle != [] {
      assert IsRun(cfg, s, []) && NoNewCall([]) && After(cfg, s, []) == s;
    } else if HasHelper(cfg.pool, s) {
      var t :| t in s.threads && Helper(cfg.pool, s.sh.pool, s.threads[t]);
      HelperWakes(cfg, s, t, waiter);
    } else {
      forall run | IsRun(cfg, s, run) && NoNewCall(run) ensures !TakeEnabled(cfg, After(cfg, s, run), waiter) {
        ForsakenRun(cfg, s, run);
        TakeEnabledIff(cfg, After(cfg, s, run), waiter);
      }
    }
  }

  // ---- containers for a single job ----

  // Nobody parks, and nobody has found the channel empty while it is not.
  predicate SingleUse(p: Pool, pc: Pc) {
    && !pc.Parking?
    && (pc == Acquiring(Growing) || pc == Acquiring(Waiting) ==> p.idle == [])
  }

  ghost predicate AllSingleUse(s: State) {
    forall t :: t in s.threads ==> SingleUse(s.sh.pool, s.threads[t])
  }

  lemma SingleUseAcquire(cfg: Config, p: Pool, pc: Pc, a: AcquireAction)
    requires CanAcquire(p, pc, a) && SingleUse(p, pc)
    ensures var (p', pc') := AcquireStep(cfg, p, pc, a); SingleUse(p', pc') && (p.idle == [] ==> p'.idle == [])
  {
  }

  lemma SingleUseRelease(cfg: Config, p: Pool, pc: Pc, a: ReleaseAction)
    requires CanRelease(cfg, p, pc, a) && SingleUse(p, pc) && cfg.maxJobs == 1
    ensures var (p', pc') := ReleaseStep(cfg, p, pc, a); SingleUse(p', pc') && p'.idle == p.idle
  {
  }

  lemma SingleUseLocal(cfg: Setup, sh: Shared, pc: Pc, a: Action)
    requires Enabled(cfg, sh, pc, a) && SingleUse(sh.pool, pc) && cfg.pool.maxJobs == 1
    ensures var (sh', pc') := Effect(cfg, sh, pc, a);
      SingleUse(sh'.pool, pc') && (sh.pool.idle == [] ==> sh'.pool.idle == [])
  {
    hide AcquireStep, ReleaseStep, CanAcquire, CanRelease;
    match a
    case A(a) => SingleUseAcquire(cfg.pool, sh.pool, pc, a);
    case R(a) => SingleUseRelease(cfg.pool, sh.pool, pc, a);
    case _ =>
  }

  lemma {:induction false} SingleUseRun(cfg: Setup, s: State, run: seq<Event>)
    requires AllSingleUse(s) && IsRun(cfg, s, run) && cfg.pool.maxJobs == 1
    ensures AllSingleUse(After(cfg, s, run))
    decreases |run|
  {
    hide Effect, Enabled, SingleUse;
    if run != [] {
      var s', e := Step(cfg, s, run[0]), run[0];
      assert SingleUse(s.sh.pool, PcOf(s, e.t)) by {
        NotStartedSingleUse(s.sh.pool);
      }
      SingleUseLocal(cfg, s.sh, PcOf(s, e.t), e.a);
      forall t | t in s'.threads ensures SingleUse(s'.sh.pool, s'.threads[t]) {
        if t != e.t {
          SingleUseKept(s.sh.pool, s'.sh.pool, s.threads[t]);
        }
      }
      SingleUseRun(cfg, s', run[1..]);
    }
  }

  lemma NotStartedSingleUse(p: Pool)
    ensures SingleUse(p, NotStarted)
  {
  }

  lemma SingleUseKept(p: Pool, p': Pool, pc: Pc)
    requires SingleUse(p, pc) && (p.idle == [] ==> p'.idle == [])
    ensures SingleUse(p', pc)
  {
  }

  // With a limit of one job, a worker that has come to wait never sees a
  // container: the channel is empty in every state in which anyone waits.
  lemma SingleUseWait(cfg: Setup, s: State, waiter: Tid)
    requires Reachable(cfg, s) && cfg.pool.maxJobs == 1 && PcOf(s, waiter) == Acquiring(Waiting)
    ensures s.sh.pool.idle == []
  {
    var s0, run :| Init(cfg, s0) && IsRun(cfg, s0, run) && After(cfg, s0, run) == s;
    assert AllSingleUse(s0);
    SingleUseRun(cfg, s0, run);
    assert SingleUse(s.sh.pool, s.threads[waiter]);
  }

  lemma ReachableAfter(cfg: Setup, s: State, run: seq<Event>)
    requires Reachable(cfg, s) && IsRun(cfg, s, run)
    ensures Reachable(cfg, After(cfg, s, run))
  {
    hide Init, Step, CanStep;
    var s0, before :| Init(cfg, s0) && IsRun(cfg, s0, before) && After(cfg, s0, before) == s;
    RunConcat(cfg, s0, before, run);
    assert After(cfg, s0, before + run) == After(cfg, s, run);
  }

  lemma Arrives(cfg: Setup, s: State, t: Tid)
    requires t !in s.threads
    ensures CanStep(cfg, s, Event(t, A(Begin)))
    ensures Step(cfg, s, Event(t, A(Begin))) == State(s.sh, s.threads[t := Acquiring(Entry)])
  {
  }

  // A newcomer to an open pool is a helper.
  lemma NewcomerWakes(cfg: Setup, s: State, waiter: Tid)
    requires Inv(cfg, s) && cfg.pool.maxSize >= 1 && cfg.pool.maxJobs != 1 && !s.sh.pool.closed && s.sh.pool.idle == []
    requires PcOf(s, waiter) == Acquiring(Waiting)
    ensures EverWoken(cfg, s, waiter)
  {
    var t := UnusedId(s.threads.Keys);
    var e := Event(t, A(Begin));
    var s' := Step(cfg, s, e);
    hide Inv, Step, CanStep, TakeEnabled;
    Arrives(cfg, s, t);
    InvStep(cfg, s, e);
    GrowerWakes(cfg, s', t, waiter);
    var run :| IsRun(cfg, s', run) && NoNewCall(run) && TakeEnabled(cfg, After(cfg, s', run), waiter);
    assert ([e] + run)[1..] == run && IsRun(cfg, s, [e] + run);
  }

  // A worker waiting on an open pool can ever be given a container, by anyone,
  // if and only if containers are good for more than one job.
  lemma EverWokenIff(cfg: Setup, s: State, waiter: Tid)
    requires Reachable(cfg, s) && !s.sh.pool.closed && PcOf(s, waiter) == Acquiring(Waiting)
    ensures EverWoken(cfg, s, waiter) <==> cfg.pool.maxJobs != 1
  {
    if cfg.pool.maxJobs == 1 {
      hide Reachable;
      forall run | IsRun(cfg, s, run) ensures !TakeEnabled(cfg, After(cfg, s, run), waiter) {
        ReachableAfter(cfg, s, run);
        TakeEnabledIff(cfg, After(cfg, s, run), waiter);
        if PcOf(After(cfg, s, run), waiter) == Acquiring(Waiting) {
          SingleUseWait(cfg, After(cfg, s, run), waiter);
        }
      }
    } else {
      ReachableInv(cfg, s);
      ReachableConfig(cfg, s);
      hide Reachable, Inv;
      TakeEnabledIff(cfg, s, waiter);
      if s.sh.pool.idle != [] {
        assert IsRun(cfg, s, []) && After(cfg, s, []) == s;
      } else {
        NewcomerWakes(cfg, s, waiter);
      }
    }
  }
}
