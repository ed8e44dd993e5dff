// Counting along a run: how often a container is handed out, released, parked
// and freed. Every action conserves these counts, so they hold for every run
// with any number of threads.
module Handouts {
  import opened PoolSpec
  import opened Protocol
  import opened Invariant
  import opened Safety

  datatype Kind = HandedOut | Released | Parked

  predicate Is(a: Action, k: Kind, c: Id) {
    match k
    case HandedOut => a == A(TakeIdle(c)) || a == A(Register(c))
    case Released => a == R(Release(c))
    case Parked => a == R(Park(c))
  }

  // How many events of the run are of kind k for container c.
  function Count(run: seq<Event>, k: Kind, c: Id): nat {
    if run == [] then 0 else (if Is(run[0].a, k, c) then 1 else 0) + Count(run[1..], k, c)
  }

  function Served(p: Pool, c: Id): nat { if c in p.jobs then p.jobs[c] else 0 }

  predicate ServedIn(threads: map<Tid, Pc>, c: Id) {
    exists t :: t in threads && threads[t].Serving? && threads[t].c == c
  }

  predicate ParkingIn(threads: map<Tid, Pc>, c: Id) {
    exists t :: t in threads && threads[t] == Parking(c)
  }

  // ---- one action ----

  lemma BalanceAcquire(cfg: Config, p: Pool, pc: Pc, a: AcquireAction, c: Id)
    requires PoolView(cfg, p, pc) && CanAcquire(p, pc, a)
    ensures var (p', pc') := AcquireStep(cfg, p, pc, a);
      && Served(p', c) == Served(p, c) && !pc.Serving?
      && One(pc'.Serving? && pc'.c == c) == One(Is(A(a), HandedOut, c))
  {
  }

  lemma BalanceRelease(cfg: Config, p: Pool, pc: Pc, a: ReleaseAction, c: Id)
    requires CanRelease(cfg, p, pc, a)
    ensures var (p', pc') := ReleaseStep(cfg, p, pc, a);
      && Served(p', c) == Served(p, c) + One(Is(R(a), Released, c))
      && One(pc.Serving? && pc.c == c) == One(Is(R(a), Released, c)) && !pc'.Serving?
  {
  }

  lemma BalanceSweep(sh: Shared, pc: Pc, a: SweepAction)
    requires CanSweep(sh, pc, a)
    ensures SweepStep(sh, pc, a).0.pool.jobs == sh.pool.jobs
    ensures !pc.Serving? && !SweepStep(sh, pc, a).1.Serving?
  {
  }

  // A hand-out is the only way into a job's hands, a release the only way out.
  lemma BalanceStep(cfg: Setup, sh: Shared, pc: Pc, a: Action, c: Id)
    requires LocalOk(cfg, sh, pc) && Enabled(cfg, sh, pc, a)
    ensures var (sh', pc') := Effect(cfg, sh, pc, a);
      && Served(sh'.pool, c) == Served(sh.pool, c) + One(Is(a, Released, c))
      && Served(sh'.pool, c) + One(pc'.Serving? && pc'.c == c)
         == Served(sh.pool, c) + One(pc.Serving? && pc.c == c) + One(Is(a, HandedOut, c))
  {
    hide AcquireStep, ReleaseStep, SweepStep, CanAcquire, CanRelease, CanSweep, PoolOk, PoolView;
    match a
    case A(a) => BalanceAcquire(cfg.pool, sh.pool, pc, a, c);
    case R(a) => BalanceRelease(cfg.pool, sh.pool, pc, a, c);
    case S(a) => BalanceSweep(sh, pc, a);
    case _ =>
  }

  lemma LeaveAcquire(cfg: Config, p: Pool, pc: Pc, a: AcquireAction, c: Id)
    requires CanAcquire(p, pc, a)
    ensures var p' := AcquireStep(cfg, p, pc, a).0;
      (c in p'.jobs <==> c in p.jobs || a == Register(c)) && (c in p'.all <==> c in p.all || a == Register(c))
  {
  }

  lemma LeaveRelease(cfg: Config, p: Pool, pc: Pc, a: ReleaseAction, c: Id)
    requires CanRelease(cfg, p, pc, a)
    ensures var (p', pc') := ReleaseStep(cfg, p, pc, a);
      && (c in p'.jobs <==> c in p.jobs) && (c in p'.all ==> c in p.all)
      && (c in p.all && c !in p'.all ==> p'.idle == p.idle && pc == Discarding(c) && !pc'.Parking?)
  {
  }

  lemma LeaveSweep(sh: Shared, pc: Pc, a: SweepAction, c: Id)
    requires CanSweep(sh, pc, a)
    ensures var (sh', pc') := SweepStep(sh, pc, a); var p, p' := sh.pool, sh'.pool;
      && p'.jobs == p.jobs && p'.idle == p.idle && p'.closed == p.closed && !pc.Parking? && !pc'.Parking?
      && (c in p.all ==> (c !in p'.all <==> a == Drop(c)))
  {
  }

  // Who can take a container out of the registry.
  lemma LeaveStep(cfg: Setup, sh: Shared, pc: Pc, a: Action, c: Id)
    requires Enabled(cfg, sh, pc, a)
    ensures var (sh', pc') := Effect(cfg, sh, pc, a); var p, p' := sh.pool, sh'.pool;
      && (c in p.jobs ==> c in p'.jobs) && (c in p'.jobs && c !in p.jobs ==> c in p'.all)
      && (c in p.all && c !in p'.all ==>
            p'.idle == p.idle && !pc.Parking? && !pc'.Parking?
            && (a == C(CloseLock) || pc == Discarding(c) || a == S(Drop(c))))
      && (a == S(Drop(c)) && c in p.all ==> c !in p'.all && !p'.closed == !p.closed)
  {
    hide AcquireStep, ReleaseStep, SweepStep, CanAcquire, CanRelease, CanSweep;
    match a
    case A(a) => LeaveAcquire(cfg.pool, sh.pool, pc, a, c);
    case R(a) => LeaveRelease(cfg.pool, sh.pool, pc, a, c);
    case S(a) => LeaveSweep(sh, pc, a, c);
    case _ =>
  }

  lemma LateAcquire(cfg: Config, p: Pool, pc: Pc, a: AcquireAction, c: Id)
    requires PoolOk(cfg, p) && PoolView(cfg, p, pc) && CanAcquire(p, pc, a)
    requires c in p.jobs && c !in p.all
    ensures var (p', pc') := AcquireStep(cfg, p, pc, a);
      && c in p'.jobs && c !in p'.all && pc' != Parking(c)
      && One(c in p'.idle) + One(Is(A(a), HandedOut, c)) == One(c in p.idle)
  {
    if a.TakeIdle? {
      IdleTail(p.idle);
      assert p.idle == [p.idle[0]] + p.idle[1..];
    }
  }

  lemma LateRelease(cfg: Config, p: Pool, pc: Pc, a: ReleaseAction, c: Id)
    requires PoolView(cfg, p, pc) && CanRelease(cfg, p, pc, a)
    requires c in p.jobs && c !in p.all
    ensures var (p', pc') := ReleaseStep(cfg, p, pc, a);
      && c in p'.jobs && c !in p'.all
      && One(pc' == Parking(c)) + One(Is(R(a), Parked, c)) <= One(pc == Parking(c))
      && One(c in p'.idle) == One(c in p.idle) + One(Is(R(a), Parked, c))
  {
  }

  lemma LateSweep(sh: Shared, pc: Pc, a: SweepAction, c: Id)
    requires CanSweep(sh, pc, a) && c in sh.pool.jobs && c !in sh.pool.all
    ensures var (sh', pc') := SweepStep(sh, pc, a); var p, p' := sh.pool, sh'.pool;
      && c in p'.jobs && c !in p'.all && p'.idle == p.idle && pc' != Parking(c)
  {
  }

  // Once a registered container has left the registry it stays out, and the
  // only way back into a job's hands is from `idle` or a Park already decided.
  lemma LateStep(cfg: Setup, sh: Shared, pc: Pc, a: Action, c: Id)
    requires LocalOk(cfg, sh, pc) && Enabled(cfg, sh, pc, a)
    requires c in sh.pool.jobs && c !in sh.pool.all
    ensures var (sh', pc') := Effect(cfg, sh, pc, a);
      && c in sh'.pool.jobs && c !in sh'.pool.all
      && One(pc' == Parking(c)) + One(Is(a, Parked, c)) <= One(pc == Parking(c))
      && One(c in sh'.pool.idle) + One(Is(a, HandedOut, c)) == One(c in sh.pool.idle) + One(Is(a, Parked, c))
  {
    hide AcquireStep, ReleaseStep, SweepStep, CanAcquire, CanRelease, CanSweep, PoolOk, PoolView;
    match a
    case A(a) => LateAcquire(cfg.pool, sh.pool, pc, a, c);
    case R(a) => LateRelease(cfg.pool, sh.pool, pc, a, c);
    case S(a) => LateSweep(sh, pc, a, c);
    case _ =>
  }

  // ---- one action in the whole system ----

  ghost predicate Exclusive(threads: map<Tid, Pc>) {
    forall t, u :: t in threads && u in threads && t != u ==> Compatible(threads[t], threads[u])
  }

  lemma HolderUpdate(threads: map<Tid, Pc>, t: Tid, pc: Pc, pc': Pc, c: Id)
    requires Exclusive(threads) && Exclusive(threads[t := pc'])
    requires pc == if t in threads then threads[t] else NotStarted
    ensures One(ServedIn(threads[t := pc'], c)) - One(pc'.Serving? && pc'.c == c)
         == One(ServedIn(threads, c)) - One(pc.Serving? && pc.c == c)
    ensures One(ParkingIn(threads[t := pc'], c)) - One(pc' == Parking(c))
         == One(ParkingIn(threads, c)) - One(pc == Parking(c))
  {
    var threads' := threads[t := pc'];
    assert threads' - {t} == threads - {t};
    Without(threads', t, c);
    Without(threads, t, c);
  }

  lemma Without(threads: map<Tid, Pc>, t: Tid, c: Id)
    ensures ServedIn(threads, c)
         == (ServedIn(threads - {t}, c) || (t in threads && threads[t].Serving? && threads[t].c == c))
    ensures ParkingIn(threads, c) == (ParkingIn(threads - {t}, c) || (t in threads && threads[t] == Parking(c)))
  {
    var others := threads - {t};
    if ServedIn(threads, c) {
      var u :| u in threads && threads[u].Serving? && threads[u].c == c;
      assert u == t || u in others;
    }
    if ParkingIn(threads, c) {
      var u :| u in threads && threads[u] == Parking(c);
      assert u == t || u in others;
    }
  }

  lemma Stepped(cfg: Setup, s: State, e: Event, c: Id)
    requires Inv(cfg, s) && CanStep(cfg, s, e)
    ensures var s' := Step(cfg, s, e);
      && Inv(cfg, s') && LocalOk(cfg, s.sh, PcOf(s, e.t))
      && s'.threads == s.threads[e.t := Effect(cfg, s.sh, PcOf(s, e.t), e.a).1]
      && s'.sh == Effect(cfg, s.sh, PcOf(s, e.t), e.a).0
    ensures var pc, pc' := PcOf(s, e.t), Step(cfg, s, e).threads[e.t]; var threads' := Step(cfg, s, e).threads;
      && One(ServedIn(threads', c)) - One(pc'.Serving? && pc'.c == c)
         == One(ServedIn(s.threads, c)) - One(pc.Serving? && pc.c == c)
      && One(ParkingIn(threads', c)) - One(pc' == Parking(c))
         == One(ParkingIn(s.threads, c)) - One(pc == Parking(c))
  {
    hide PoolOk, PcOk, Effect, Enabled, AccountsOk, Drift;
    InvStep(cfg, s, e);
    OwnOk(cfg, s, e.t);
    HolderUpdate(s.threads, e.t, PcOf(s, e.t), Step(cfg, s, e).threads[e.t], c);
  }

  // ---- runs ----

  // The job counter counts releases, and every hand-out is released or still
  // in a job's hands.
  lemma {:induction false} Balance(cfg: Setup, s: State, run: seq<Event>, c: Id)
    requires Inv(cfg, s) && IsRun(cfg, s, run)
    ensures var end := After(cfg, s, run);
      && Served(end.sh.pool, c) == Served(s.sh.pool, c) + Count(run, Released, c)
      && Served(end.sh.pool, c) + One(ServedIn(end.threads, c))
         == Served(s.sh.pool, c) + One(ServedIn(s.threads, c)) + Count(run, HandedOut, c)
    decreases |run|
  {
    hide Inv, Effect, Enabled, LocalOk, Is, ServedIn, ParkingIn;
    if run != [] {
      Stepped(cfg, s, run[0], c);
      BalanceStep(cfg, s.sh, PcOf(s, run[0].t), run[0].a, c);
      Balance(cfg, Step(cfg, s, run[0]), run[1..], c);
    }
  }

  // From a fresh environment, a container's job counter is the number of
  // releases it has undergone, and no container serves more jobs than allowed.
  lemma JobLimit(cfg: Setup, s: State, run: seq<Event>, c: Id)
    requires Init(cfg, s) && IsRun(cfg, s, run)
    ensures var p, served := After(cfg, s, run).sh.pool, Count(run, Released, c);
      && (c in p.jobs ==> p.jobs[c] == served)
      && served <= Count(run, HandedOut, c) <= served + 1
      && (cfg.pool.maxJobs > 0 ==> Count(run, HandedOut, c) <= cfg.pool.maxJobs)
      && (cfg.pool.maxJobs > 0 && c in p.idle ==> served < cfg.pool.maxJobs)
  {
    InvInit(cfg, s);
    Balance(cfg, s, run, c);
    InvRun(cfg, s, run);
    var end := After(cfg, s, run);
    assert s.threads[SWEEPER] == Sweeper(Idle);
    assert !ServedIn(s.threads, c);
    if ServedIn(end.threads, c) {
      var t :| t in end.threads && end.threads[t].Serving? && end.threads[t].c == c;
      assert PcOk(cfg, end.sh, end.threads[t]);
    }
  }

  // A container that has left the registry, reaped or torn down, is handed out
  // at most once more, and parked only by a Release that had already read it
  // as live.
  lemma {:induction false} LateHandouts(cfg: Setup, s: State, run: seq<Event>, c: Id)
    requires Inv(cfg, s) && IsRun(cfg, s, run)
    requires c in s.sh.pool.jobs && c !in s.sh.pool.all
    ensures var end := After(cfg, s, run);
      && c in end.sh.pool.jobs && c !in end.sh.pool.all
      && Count(run, Parked, c) + One(ParkingIn(end.threads, c)) <= One(ParkingIn(s.threads, c))
      && Count(run, HandedOut, c) + One(c in end.sh.pool.idle) == One(c in s.sh.pool.idle) + Count(run, Parked, c)
    decreases |run|
  {
    hide Inv, Effect, Enabled, LocalOk, Is, ServedIn, ParkingIn;
    if run != [] {
      Stepped(cfg, s, run[0], c);
      LateStep(cfg, s.sh, PcOf(s, run[0].t), run[0].a, c);
      LateHandouts(cfg, Step(cfg, s, run[0]), run[1..], c);
    }
  }

  lemma AtMostOneLateHandout(cfg: Setup, s: State, run: seq<Event>, c: Id)
    requires Reachable(cfg, s) && IsRun(cfg, s, run)
    requires c in s.sh.pool.jobs && c !in s.sh.pool.all
    ensures Count(run, HandedOut, c) <= 1
    ensures !ParkingIn(s.threads, c) ==> Count(run, Parked, c) == 0
  {
    hide Init;
    ReachableInv(cfg, s);
    LateHandouts(cfg, s, run, c);
    if ParkingIn(s.threads, c) {
      var t :| t in s.threads && s.threads[t] == Parking(c);
      assert PcOk(cfg, s.sh, s.threads[t]);
    }
  }

  // ---- slots freed ----

  // The event takes c out of the registry and its slot off the count.
  predicate Frees(cfg: Setup, s: State, e: Event, c: Id)
    requires CanStep(cfg, s, e)
  {
    var p, p' := s.sh.pool, Step(cfg, s, e).sh.pool;
    c in p.all && c !in p'.all && p'.count == p.count - 1 && !p'.closed
  }

  function FreedCount(cfg: Setup, s: State, run: seq<Event>, c: Id): nat
    requires IsRun(cfg, s, run)
    decreases |run|
  {
    if run == [] then 0
    else (if Frees(cfg, s, run[0], c) then 1 else 0) + FreedCount(cfg, Step(cfg, s, run[0]), run[1..], c)
  }

  // A container's slot is freed at most once.
  lemma {:induction false} FreedOnce(cfg: Setup, s: State, run: seq<Event>, c: Id)
    requires Inv(cfg, s) && IsRun(cfg, s, run)
    ensures FreedCount(cfg, s, run, c) <= if c in s.sh.pool.jobs && c !in s.sh.pool.all then 0 else 1
    decreases |run|
  {
    hide PoolView, Effect, Enabled, AccountsOk, Drift;
    if run != [] {
      InvStep(cfg, s, run[0]);
      OwnOk(cfg, s, run[0].t);
      LeaveStep(cfg, s.sh, PcOf(s, run[0].t), run[0].a, c);
      if c in s.sh.pool.jobs && c !in s.sh.pool.all {
        LateStep(cfg, s.sh, PcOf(s, run[0].t), run[0].a, c);
      }
      FreedOnce(cfg, Step(cfg, s, run[0]), run[1..], c);
    }
  }

  // ---- recycling ----

  lemma {:induction false} CountLast(run: seq<Event>, e: Event, k: Kind, c: Id)
    ensures Count(run + [e], k, c) == Count(run, k, c) + if Is(e.a, k, c) then 1 else 0
  {
    hide Is;
    if run == [] {
      assert run + [e] == [e];
    } else {
      assert (run + [e])[1..] == run[1..] + [e];
      CountLast(run[1..], e, k, c);
    }
  }

  // What a Release goes on to do: nothing if the container is not registered any
  // more; discard it if the pool is closed or, counting the container's releases
  // along the run, this is the last job the limit allows; park it otherwise.
  lemma RecycledIff(cfg: Setup, s: State, run: seq<Event>, t: Tid, c: Id)
    requires Init(cfg, s) && IsRun(cfg, s, run) && CanStep(cfg, After(cfg, s, run), Event(t, R(Release(c))))
    ensures var p, e := After(cfg, s, run).sh.pool, Event(t, R(Release(c)));
      var pc', served := PcOf(Step(cfg, After(cfg, s, run), e), t), Count(run + [e], Released, c);
      pc' == if c !in p.all then Finished
             else if p.closed || (cfg.pool.maxJobs > 0 && served == cfg.pool.maxJobs) then Discarding(c)
             else Parking(c)
  {
    var e := Event(t, R(Release(c)));
    var end := After(cfg, s, run);
    JobLimit(cfg, s, run, c);
    CountLast(run, e, Released, c);
    InvInit(cfg, s);
    RunSnoc(cfg, s, run, e);
    JobLimit(cfg, s, run + [e], c);
    ReleaseDecision(cfg.pool, end.sh.pool, PcOf(end, t), c);
  }

  lemma ReleaseDecision(cfg: Config, p: Pool, pc: Pc, c: Id)
    requires CanRelease(cfg, p, pc, Release(c))
    ensures ReleaseStep(cfg, p, pc, Release(c)).1
         == if c !in p.all then Finished
            else if p.closed || (cfg.maxJobs > 0 && p.jobs[c] + 1 >= cfg.maxJobs) then Discarding(c)
            else Parking(c)
  {
  }

  // ---- the channel is a queue ----

  // The containers parked along the run, in order, and those taken.
  function ParkedAlong(run: seq<Event>): seq<Id> {
    if run == [] then []
    else (match run[0].a case R(Park(c)) => [c] case _ => []) + ParkedAlong(run[1..])
  }

  function TakenAlong(run: seq<Event>): seq<Id> {
    if run == [] then []
    else (match run[0].a case A(TakeIdle(c)) => [c] case _ => []) + TakenAlong(run[1..])
  }

  lemma QueueAcquire(cfg: Config, p: Pool, pc: Pc, a: AcquireAction)
    requires CanAcquire(p, pc, a)
    ensures p.idle == TakenAlong([Event(0, A(a))]) + AcquireStep(cfg, p, pc, a).0.idle
    ensures ParkedAlong([Event(0, A(a))]) == []
  {
  }

  lemma QueueRelease(cfg: Config, p: Pool, pc: Pc, a: ReleaseAction)
    requires CanRelease(cfg, p, pc, a)
    ensures p.idle + ParkedAlong([Event(0, R(a))]) == ReleaseStep(cfg, p, pc, a).0.idle
    ensures TakenAlong([Event(0, R(a))]) == []
  {
  }

  lemma QueueStep(cfg: Setup, s: State, e: Event)
    requires CanStep(cfg, s, e)
    ensures s.sh.pool.idle + ParkedAlong([e]) == TakenAlong([e]) + Step(cfg, s, e).sh.pool.idle
  {
    hide AcquireStep, ReleaseStep, CanAcquire, CanRelease;
    var p, pc := s.sh.pool, PcOf(s, e.t);
    match e.a
    case A(a) => QueueAcquire(cfg.pool, p, pc, a);
    case R(a) => QueueRelease(cfg.pool, p, pc, a);
    case _ =>
  }

  lemma Shuffle<T>(a: seq<T>, b: seq<T>, c: seq<T>, d: seq<T>, rest: seq<T>, end: seq<T>, more: seq<T>)
    requires a + b == c + d && d + more == rest + end
    ensures a + (b + more) == (c + rest) + end
  {
    assert a + (b + more) == (a + b) + more;
    assert (c + d) + more == c + (d + more);
    assert c + (rest + end) == (c + rest) + end;
  }

  // First in, first out: over any run, what was in the channel and then was
  // parked is, in the same order, what was taken and then is in the channel.
  lemma {:induction false} QueueLaw(cfg: Setup, s: State, run: seq<Event>)
    requires IsRun(cfg, s, run)
    ensures s.sh.pool.idle + ParkedAlong(run) == TakenAlong(run) + After(cfg, s, run).sh.pool.idle
    decreases |run|
  {
    hide Step, CanStep;
    if run != [] {
      var e, rest := run[0], run[1..];
      var s' := Step(cfg, s, e);
      QueueStep(cfg, s, e);
      QueueLaw(cfg, s', rest);
      assert [e][1..] == [] && [e][0] == e;
      Shuffle(s.sh.pool.idle, ParkedAlong([e]), TakenAlong([e]), s'.sh.pool.idle,
              TakenAlong(rest), After(cfg, s, run).sh.pool.idle, ParkedAlong(rest));
    }
  }
}
