// When can a removed container sit in the idle channel? sweepOnce kills after
// unlocking, so a job may untrack and park its container between the two. The
// lemmas here say exactly when that happens, how far it can go, and that it
// never happens when a sweep and its kills are not interleaved with others.
module Sweeps {
  import opened Prelude
  import opened PoolSpec
  import opened Protocol
  import opened Invariant
  import opened Safety
  import opened Handouts

  // c is in the channel, or a Release has decided to put it there.
  predicate Shelved(s: State, c: Id) {
    c in s.sh.pool.idle || ParkingIn(s.threads, c)
  }

  // Shelved containers that are no longer registered.
  function Dead(s: State): set<Id> {
    set c | c in s.sh.pool.jobs && c !in s.sh.pool.all && Shelved(s, c)
  }

  // The reaper takes shelved container c out of an open pool's registry.
  predicate TakesShelved(s: State, e: Event, c: Id) {
    !s.sh.pool.closed && e.a == S(Drop(c)) && c in s.sh.pool.all && Shelved(s, c)
  }

  predicate LateKill(s: State, e: Event) {
    e.a.S? && e.a.swp.Drop? && TakesShelved(s, e, e.a.swp.c)
  }

  function LateKills(cfg: Setup, s: State, run: seq<Event>): nat
    requires IsRun(cfg, s, run)
    decreases |run|
  {
    if run == [] then 0
    else (if LateKill(s, run[0]) then 1 else 0) + LateKills(cfg, Step(cfg, s, run[0]), run[1..])
  }

  // In every open state of the run, everything shelved is registered.
  predicate AlwaysLive(cfg: Setup, s: State, run: seq<Event>)
    requires IsRun(cfg, s, run)
    decreases |run|
  {
    && (s.sh.pool.closed || Dead(s) == {})
    && (run == [] || AlwaysLive(cfg, Step(cfg, s, run[0]), run[1..]))
  }

  // ---- one action ----

  lemma DeadStep(cfg: Setup, s: State, e: Event, c: Id)
    requires Inv(cfg, s) && CanStep(cfg, s, e)
    requires !s.sh.pool.closed && !Step(cfg, s, e).sh.pool.closed
    ensures c in Dead(Step(cfg, s, e)) ==> c in Dead(s) || TakesShelved(s, e, c)
    ensures TakesShelved(s, e, c) ==> c in Dead(Step(cfg, s, e))
  {
    assert c in s.sh.pool.all ==> c in s.sh.pool.jobs;
    hide PoolOk, Effect, Enabled, AccountsOk, Drift;
    var s', pc := Step(cfg, s, e), PcOf(s, e.t);
    Stepped(cfg, s, e, c);
    LeaveStep(cfg, s.sh, pc, e.a, c);
    if c in s.sh.pool.jobs && c !in s.sh.pool.all {
      LateStep(cfg, s.sh, pc, e.a, c);
    }
    if c in s.sh.pool.all && e.a == C(CloseLock) {
      DriftStep(cfg, s, e);
    }
  }

  // A kill is late exactly when the job has read its container's liveness in
  // Release, or the container was parked since: at the drop, no job or discard
  // holds it any more.
  lemma LateKillIff(cfg: Setup, s: State, e: Event)
    requires Reachable(cfg, s) && CanStep(cfg, s, e) && e.a.S? && e.a.swp.Drop?
    ensures var c := e.a.swp.c;
      LateKill(s, e) <==>
        && !s.sh.pool.closed && c in s.sh.pool.all
        && forall t :: t in s.threads && (s.threads[t].Serving? || s.threads[t].Discarding?) ==> s.threads[t].c != c
  {
    ReachableInv(cfg, s);
    hide PoolOk, CapacityOk, Reachable, CanStep;
    var c := e.a.swp.c;
    if c in s.sh.pool.all {
      if Shelved(s, c) {
        forall t | t in s.threads && (s.threads[t].Serving? || s.threads[t].Discarding?) ensures s.threads[t].c != c {
          NotParked(cfg, s, t, c);
        }
      } else {
        var t :| t in s.threads && Live(s.threads[t]) && s.threads[t].c == c;
        assert s.threads[t] != Parking(c);
      }
    }
  }

  lemma NotParked(cfg: Setup, s: State, t: Tid, c: Id)
    requires ThreadsOk(cfg, s) && t in s.threads && Live(s.threads[t]) && !s.threads[t].Parking?
    ensures s.threads[t].c == c ==> !Shelved(s, c)
  {
    assert PcOk(cfg, s.sh, s.threads[t]);
    forall u | u in s.threads && s.threads[t].c == c ensures s.threads[u] != Parking(c) {
      assert u != t ==> Compatible(s.threads[t], s.threads[u]);
    }
  }

  // ---- runs ----

  lemma {:induction false} ClosedRun(cfg: Setup, s: State, run: seq<Event>)
    requires Inv(cfg, s) && IsRun(cfg, s, run) && s.sh.pool.closed
    ensures AlwaysLive(cfg, s, run) && LateKills(cfg, s, run) == 0
    decreases |run|
  {
    hide PoolOk, PcOk, Effect, Enabled, AccountsOk, Drift, Dead;
    if run != [] {
      InvStep(cfg, s, run[0]);
      OwnOk(cfg, s, run[0].t);
      DriftStep(cfg, s, run[0]);
      ClosedRun(cfg, Step(cfg, s, run[0]), run[1..]);
    }
  }

  lemma Advance(cfg: Setup, s: State, e: Event)
    requires Inv(cfg, s) && CanStep(cfg, s, e)
    ensures Inv(cfg, Step(cfg, s, e))
    ensures Step(cfg, s, e).sh.pool.closed == (s.sh.pool.closed || Closes(s, e))
    ensures Closes(s, e) ==> !LateKill(s, e)
  {
    hide PoolOk, PcOk, Effect, Enabled, AccountsOk, Drift;
    InvStep(cfg, s, e);
    OwnOk(cfg, s, e.t);
    DriftStep(cfg, s, e);
  }

  // The comment in Release says a dead container is never parked. In the code's
  // own interleavings that holds of a run if and only if the reaper never
  // takes out a shelved container.
  lemma {:induction false} LiveUnlessLateKill(cfg: Setup, s: State, run: seq<Event>)
    requires Inv(cfg, s) && IsRun(cfg, s, run) && (s.sh.pool.closed || Dead(s) == {})
    ensures AlwaysLive(cfg, s, run) <==> LateKills(cfg, s, run) == 0
    decreases |run|
  {
    hide Inv, Effect, Enabled, Dead, Shelved;
    if s.sh.pool.closed {
      ClosedRun(cfg, s, run);
    } else if run != [] {
      var e, s' := run[0], Step(cfg, s, run[0]);
      Advance(cfg, s, e);
      if s'.sh.pool.closed {
        ClosedRun(cfg, s', run[1..]);
      } else {
        forall c ensures c in Dead(s') <==> TakesShelved(s, e, c) {
          DeadStep(cfg, s, e, c);
        }
        if Dead(s') == {} {
          LiveUnlessLateKill(cfg, s', run[1..]);
        }
      }
    }
  }

  // At any open point, dead containers on the shelf are no more than the late
  // kills so far.
  lemma {:induction false} DeadBound(cfg: Setup, s: State, run: seq<Event>)
    requires Inv(cfg, s) && IsRun(cfg, s, run) && !After(cfg, s, run).sh.pool.closed
    ensures |Dead(After(cfg, s, run))| <= |Dead(s)| + LateKills(cfg, s, run)
    decreases |run|
  {
    hide Inv, Effect, Enabled, Dead, Shelved;
    if run != [] {
      var e, s' := run[0], Step(cfg, s, run[0]);
      Advance(cfg, s, e);
      if s'.sh.pool.closed {
        ClosedDrift(cfg, s', run[1..]);
      }
      var more := if LateKill(s, e) then {e.a.swp.c} else {};
      forall c | c in Dead(s') ensures c in Dead(s) + more {
        DeadStep(cfg, s, e, c);
      }
      SubsetSize(Dead(s'), Dead(s) + more);
      DeadBound(cfg, s', run[1..]);
    }
  }

  // ---- room in the channel ----

  function ParkingThreads(threads: map<Tid, Pc>): set<Tid> {
    set t | t in threads && threads[t].Parking?
  }

  // Parked containers and those about to be parked.
  function Shelf(s: State): nat { |s.sh.pool.idle| + |ParkingThreads(s.threads)| }

  // Registered containers in the channel or about to be put there.
  function LiveShelved(s: State): set<Id> {
    set c | c in s.sh.pool.all && Shelved(s, c)
  }

  // The shelf holds exactly the shelved registered containers and the dead ones.
  lemma ShelfExact(cfg: Setup, s: State)
    requires Inv(cfg, s)
    ensures Shelf(s) == |LiveShelved(s)| + |Dead(s)|
  {
    hide AccountsOk, CapacityOk, PoolView, Dead, LiveShelved, Elements;
    var parked, parking := Elements(s.sh.pool.idle), ParkingThreads(s.threads);
    var ids := LiveShelved(s) + Dead(s) - parked;
    forall t | t in parking ensures s.threads[t].c in ids {
      ParkingOnShelf(cfg, s, t);
    }
    FewerHolders(s.threads, parking, ids);
    forall c | c in ids
      ensures exists t :: t in parking && t in s.threads && Holding(s.threads[t]) && s.threads[t].c == c
    {
      OnShelf(cfg, s, c);
      var t :| t in s.threads && s.threads[t] == Parking(c);
      assert t in parking;
    }
    FewerTokens(s.threads, parking, ids);
    DistinctCount(s.sh.pool.idle);
    ParkedOnShelf(cfg, s);
    assert LiveShelved(s) + Dead(s) == ids + parked;
    assert LiveShelved(s) !! Dead(s) by {
      OnShelfOnce(s);
    }
  }

  lemma OnShelf(cfg: Setup, s: State, c: Id)
    ensures c in LiveShelved(s) + Dead(s) && c !in Elements(s.sh.pool.idle) ==> ParkingIn(s.threads, c)
  {
  }

  lemma OnShelfOnce(s: State)
    ensures LiveShelved(s) !! Dead(s)
  {
  }

  lemma ParkedOnShelf(cfg: Setup, s: State)
    requires Inv(cfg, s)
    ensures Elements(s.sh.pool.idle) <= LiveShelved(s) + Dead(s)
  {
    hide AccountsOk, CapacityOk, PcOk;
    forall c | c in s.sh.pool.idle ensures c in LiveShelved(s) + Dead(s) {
      assert MayServe(cfg.pool, s.sh.pool, c);
    }
  }

  // A Release that is about to park finds the channel full exactly when the
  // shelved containers, live and dead, leave no room beside those still to be parked.
  lemma ParkFullIff(cfg: Setup, s: State, t: Tid)
    requires Reachable(cfg, s) && PcOf(s, t).Parking?
    ensures CanStep(cfg, s, Event(t, R(ParkFull)))
      <==> |LiveShelved(s)| + |Dead(s)| >= cfg.pool.maxSize + |ParkingThreads(s.threads)|
  {
    ReachableInv(cfg, s);
    hide Reachable, Inv, LiveShelved, Dead, ParkingThreads;
    ShelfExact(cfg, s);
  }

  lemma LiveShelvedBound(s: State)
    ensures |LiveShelved(s)| <= |s.sh.pool.all|
  {
    SubsetSize(LiveShelved(s), s.sh.pool.all);
  }

  lemma ParkingOnShelf(cfg: Setup, s: State, t: Tid)
    requires Inv(cfg, s) && t in s.threads && s.threads[t].Parking?
    ensures s.threads[t].c in LiveShelved(s) + Dead(s) && s.threads[t].c !in Elements(s.sh.pool.idle)
  {
    assert PcOk(cfg, s.sh, s.threads[t]);
    assert ParkingIn(s.threads, s.threads[t].c);
  }

  lemma ParkingUpdate(threads: map<Tid, Pc>, t: Tid, pc: Pc)
    ensures |ParkingThreads(threads[t := pc])|
         == |ParkingThreads(threads)| - One(t in threads && threads[t].Parking?) + One(pc.Parking?)
  {
    var before, after := ParkingThreads(threads), ParkingThreads(threads[t := pc]);
    assert after == if pc.Parking? then before + {t} else before - {t};
  }

  lemma ClosedShelfAcquire(cfg: Config, p: Pool, pc: Pc, a: AcquireAction)
    requires CanAcquire(p, pc, a)
    ensures var (p', pc') := AcquireStep(cfg, p, pc, a); |p'.idle| <= |p.idle| && !pc'.Parking?
  {
  }

  lemma ClosedShelfRelease(cfg: Config, p: Pool, pc: Pc, a: ReleaseAction)
    requires CanRelease(cfg, p, pc, a)
    ensures var (p', pc') := ReleaseStep(cfg, p, pc, a);
      p'.closed ==> |p'.idle| + One(pc'.Parking?) <= |p.idle| + One(pc.Parking?)
  {
  }

  // Once closed, nothing new is put on the shelf.
  lemma ClosedShelfLocal(cfg: Setup, sh: Shared, pc: Pc, a: Action)
    requires Enabled(cfg, sh, pc, a)
    ensures var (sh', pc') := Effect(cfg, sh, pc, a);
      sh'.pool.closed ==> |sh'.pool.idle| + One(pc'.Parking?) <= |sh.pool.idle| + One(pc.Parking?)
  {
    hide AcquireStep, ReleaseStep, CanAcquire, CanRelease;
    match a
    case A(a) => ClosedShelfAcquire(cfg.pool, sh.pool, pc, a);
    case R(a) => ClosedShelfRelease(cfg.pool, sh.pool, pc, a);
    case _ =>
  }

  lemma ClosedShelf(cfg: Setup, s: State, e: Event)
    requires CanStep(cfg, s, e) && Step(cfg, s, e).sh.pool.closed
    ensures Shelf(Step(cfg, s, e)) <= Shelf(s)
  {
    hide Effect, Enabled;
    ClosedShelfLocal(cfg, s.sh, PcOf(s, e.t), e.a);
    ParkingUpdate(s.threads, e.t, Step(cfg, s, e).threads[e.t]);
  }

  // The shelf never outgrows the cap by more than the late kills of the run.
  lemma {:induction false} ShelfRun(cfg: Setup, s: State, run: seq<Event>, cap: int)
    requires Inv(cfg, s) && IsRun(cfg, s, run)
    requires if s.sh.pool.closed then Shelf(s) <= cap else cfg.pool.maxSize + |Dead(s)| + LateKills(cfg, s, run) <= cap
    ensures Shelf(After(cfg, s, run)) <= cap
    decreases |run|
  {
    hide Inv, Effect, Enabled, Dead, Shelved, Shelf;
    if !s.sh.pool.closed {
      OpenShelf(cfg, s);
    }
    if run != [] {
      var e, s' := run[0], Step(cfg, s, run[0]);
      Advance(cfg, s, e);
      if s'.sh.pool.closed {
        ClosedShelf(cfg, s, e);
      } else {
        DeadBound(cfg, s, [e]);
        assert After(cfg, s, [e]) == s' && LateKills(cfg, s, [e]) == One(LateKill(s, e));
      }
      ShelfRun(cfg, s', run[1..], cap);
    }
  }

  lemma OpenShelf(cfg: Setup, s: State)
    requires Inv(cfg, s) && !s.sh.pool.closed
    ensures Shelf(s) <= cfg.pool.maxSize + |Dead(s)|
  {
    ShelfExact(cfg, s);
    LiveShelvedBound(s);
  }

  lemma InitClean(cfg: Setup, s: State)
    requires Init(cfg, s)
    ensures Inv(cfg, s) && Dead(s) == {} && !s.sh.pool.closed
  {
    InvInit(cfg, s);
  }

  // Without late kills, Release's fallback branch for a full channel is never
  // taken, whether the pool is open or closed.
  lemma ParkNeverFull(cfg: Setup, s: State, run: seq<Event>, t: Tid)
    requires Init(cfg, s) && IsRun(cfg, s, run) && LateKills(cfg, s, run) == 0
    ensures !CanStep(cfg, After(cfg, s, run), Event(t, R(ParkFull)))
  {
    hide Inv, Init, LateKills;
    InitClean(cfg, s);
    ShelfRun(cfg, s, run, cfg.pool.maxSize);
    var end := After(cfg, s, run);
    if PcOf(end, t).Parking? {
      assert t in ParkingThreads(end.threads);
    }
  }

  // ---- Stats ----

  // Stats().Busy as the code computes it, while the pool is open: creates in
  // flight plus registered containers not parked, less parked dead ones.
  lemma StatsBusy(cfg: Setup, s: State)
    requires Reachable(cfg, s) && !s.sh.pool.closed
    ensures var p := s.sh.pool;
      p.count - |p.idle| == |CreatingThreads(s.threads)| + |p.all - Elements(p.idle)| - |Elements(p.idle) - p.all|
    ensures forall c :: c in s.sh.pool.all - Elements(s.sh.pool.idle) ==> LiveIn(s.threads, c)
  {
    ReachableInv(cfg, s);
    hide PoolView, PcOk, Reachable;
    var p := s.sh.pool;
    DistinctCount(p.idle);
    Exchange(p.all, Elements(p.idle));
  }

  lemma Exchange(a: set<Id>, b: set<Id>)
    ensures |a| - |b| == |a - b| - |b - a|
  {
    assert a == (a * b) + (a - b);
    assert b == (a * b) + (b - a);
  }

  lemma StatsNonNegative(cfg: Setup, s: State, run: seq<Event>)
    requires Init(cfg, s) && IsRun(cfg, s, run) && !After(cfg, s, run).sh.pool.closed
    ensures var p := After(cfg, s, run).sh.pool; p.count - |p.idle| + LateKills(cfg, s, run) >= 0
  {
    var end := After(cfg, s, run);
    InitClean(cfg, s);
    DeadBound(cfg, s, run);
    StatsBusy(cfg, end);
    forall c | c in Elements(end.sh.pool.idle) - end.sh.pool.all ensures c in Dead(end) {
      ReachableInv(cfg, end);
      assert MayServe(cfg.pool, end.sh.pool, c);
    }
    SubsetSize(Elements(end.sh.pool.idle) - end.sh.pool.all, Dead(end));
  }

  // ---- sweeps that run without interleaving ----

  predicate MidSweep(s: State) {
    PcOf(s, SWEEPER).Sweeper? && PcOf(s, SWEEPER).sweep != Idle
  }

  // From the clock read to the last kill, only the sweeper moves.
  predicate AtomicSweeps(cfg: Setup, s: State, run: seq<Event>)
    requires IsRun(cfg, s, run)
    decreases |run|
  {
    run == [] || ((MidSweep(s) ==> run[0].t == SWEEPER) && AtomicSweeps(cfg, Step(cfg, s, run[0]), run[1..]))
  }

  // The ids the sweeper has collected and not yet dealt with.
  function Collected(pc: Pc): set<Id> {
    if !pc.Sweeper? then {}
    else match pc.sweep
      case Killing(todo) => todo
      case Dropping(c, todo) => todo + {c}
      case Erasing(_, todo) => todo
      case _ => {}
  }

  // Everything the sweeper is about to kill is in a job's hands.
  ghost predicate KillsServed(s: State) {
    && (forall t :: t in s.threads && s.threads[t].Sweeper? ==> t == SWEEPER)
    && (forall c :: c in Collected(PcOf(s, SWEEPER)) ==> ServedIn(s.threads, c))
  }

  lemma CollectedStep(cfg: Setup, sh: Shared, pc: Pc, a: Action)
    requires Enabled(cfg, sh, pc, a)
    ensures var (sh', pc') := Effect(cfg, sh, pc, a);
      && (pc'.Sweeper? ==> pc.Sweeper?)
      && Collected(pc') <= Collected(pc) + sh.deadlines.Keys
      && (pc.Sweeper? ==> !pc'.Serving?)
  {
  }

  // What a sweep has collected, or collects now, stays in a job's hands while
  // only the sweeper moves.
  lemma StillServed(cfg: Setup, s: State, e: Event, c: Id)
    requires AccountsOk(s) && CanStep(cfg, s, e) && KillsServed(s) && (MidSweep(s) ==> e.t == SWEEPER)
    requires c in Collected(PcOf(Step(cfg, s, e), SWEEPER))
    ensures ServedIn(Step(cfg, s, e).threads, c)
  {
    hide Effect, Enabled;
    CollectedStep(cfg, s.sh, PcOf(s, e.t), e.a);
    assert ServedIn(s.threads, c);
    var t :| t in s.threads && s.threads[t].Serving? && s.threads[t].c == c;
    assert Step(cfg, s, e).threads[t] == s.threads[t];
  }

  lemma KillsServedStep(cfg: Setup, s: State, e: Event)
    requires Inv(cfg, s) && CanStep(cfg, s, e) && KillsServed(s) && (MidSweep(s) ==> e.t == SWEEPER)
    ensures KillsServed(Step(cfg, s, e)) && !LateKill(s, e)
  {
    hide PoolView, Effect, Enabled;
    var s', pc := Step(cfg, s, e), PcOf(s, e.t);
    CollectedStep(cfg, s.sh, pc, e.a);
    forall c | c in Collected(PcOf(s', SWEEPER)) ensures ServedIn(s'.threads, c) {
      StillServed(cfg, s, e, c);
    }
    if LateKill(s, e) {
      DropCollected(cfg, s.sh, pc, e.a);
      NotShelved(cfg, s, e.a.swp.c);
    }
  }

  lemma DropCollected(cfg: Setup, sh: Shared, pc: Pc, a: Action)
    requires Enabled(cfg, sh, pc, a) && a.S? && a.swp.Drop?
    ensures pc.Sweeper? && a.swp.c in Collected(pc)
  {
  }

  lemma NotShelved(cfg: Setup, s: State, c: Id)
    requires Inv(cfg, s) && ServedIn(s.threads, c)
    ensures !Shelved(s, c)
  {
    var t :| t in s.threads && s.threads[t].Serving? && s.threads[t].c == c;
    NotParked(cfg, s, t, c);
  }

  lemma {:induction false} AtomicSweepsNeverLate(cfg: Setup, s: State, run: seq<Event>)
    requires Inv(cfg, s) && KillsServed(s) && IsRun(cfg, s, run) && AtomicSweeps(cfg, s, run)
    ensures LateKills(cfg, s, run) == 0
    decreases |run|
  {
    hide Inv, Effect, Enabled, KillsServed, LateKill;
    if run != [] {
      InvStep(cfg, s, run[0]);
      KillsServedStep(cfg, s, run[0]);
      AtomicSweepsNeverLate(cfg, Step(cfg, s, run[0]), run[1..]);
    }
  }

  // Without late kills the comments in the code hold: while open, every parked
  // container is registered and so not removed, Busy counts the creates in
  // flight and the checked-out containers, and Release's fallback branch is
  // unreachable.
  ghost predicate Orderly(cfg: Setup, s: State, t: Tid) {
    var p, creating := s.sh.pool, CreatingThreads(s.threads);
    && !CanStep(cfg, s, Event(t, R(ParkFull)))
    && (!p.closed ==>
          && Elements(p.idle) <= p.all && p.removed !! Elements(p.idle)
          && 0 <= p.count - |p.idle| == |creating| + |p.all - Elements(p.idle)|)
  }

  lemma NeverLateSafe(cfg: Setup, s: State, run: seq<Event>, t: Tid)
    requires Init(cfg, s) && IsRun(cfg, s, run) && LateKills(cfg, s, run) == 0
    ensures Orderly(cfg, After(cfg, s, run), t) && AlwaysLive(cfg, s, run)
  {
    InitClean(cfg, s);
    LiveUnlessLateKill(cfg, s, run);
    ParkNeverFull(cfg, s, run, t);
    var end := After(cfg, s, run);
    InvRun(cfg, s, run);
    if !end.sh.pool.closed {
      DeadBound(cfg, s, run);
      StatsBusy(cfg, end);
      forall c | c in end.sh.pool.idle ensures c in end.sh.pool.all {
        assert MayServe(cfg.pool, end.sh.pool, c);
        assert c !in Dead(end);
      }
    }
  }

  lemma AtomicSweepsSafe(cfg: Setup, s: State, run: seq<Event>, t: Tid)
    requires Init(cfg, s) && IsRun(cfg, s, run) && AtomicSweeps(cfg, s, run)
    ensures Orderly(cfg, After(cfg, s, run), t) && AlwaysLive(cfg, s, run)
  {
    InitClean(cfg, s);
    AtomicSweepsNeverLate(cfg, s, run);
    NeverLateSafe(cfg, s, run, t);
  }

  // ---- sweeps that find nothing due ----

  // Every deadline is still ahead.
  predicate NothingDue(s: State) {
    forall c :: c in s.sh.deadlines ==> s.sh.deadlines[c] > s.sh.clock
  }

  // In every state of the run.
  predicate NeverDue(cfg: Setup, s: State, run: seq<Event>)
    requires IsRun(cfg, s, run)
    decreases |run|
  {
    NothingDue(s) && (run == [] || NeverDue(cfg, Step(cfg, s, run[0]), run[1..]))
  }

  predicate SweepEmpty(pc: Pc, clock: int) {
    !pc.Sweeper? || pc.sweep == Idle || pc.sweep == Killing({}) || (pc.sweep.Collecting? && pc.sweep.now <= clock)
  }

  ghost predicate AllEmpty(s: State) {
    forall t :: t in s.threads ==> SweepEmpty(s.threads[t], s.sh.clock)
  }

  lemma EmptyLocal(cfg: Setup, sh: Shared, pc: Pc, a: Action)
    requires Enabled(cfg, sh, pc, a) && SweepEmpty(pc, sh.clock)
    requires forall c :: c in sh.deadlines ==> sh.deadlines[c] > sh.clock
    ensures var (sh', pc') := Effect(cfg, sh, pc, a); SweepEmpty(pc', sh'.clock) && sh.clock <= sh'.clock
    ensures !(a.S? && a.swp.Drop?)
  {
    hide AcquireStep, ReleaseStep;
    match a
    case A(a) => EmptyAcquire(cfg.pool, sh.pool, pc, a);
    case R(a) => EmptyRelease(cfg.pool, sh.pool, pc, a);
    case _ =>
  }

  lemma EmptyAcquire(cfg: Config, p: Pool, pc: Pc, a: AcquireAction)
    requires CanAcquire(p, pc, a)
    ensures !AcquireStep(cfg, p, pc, a).1.Sweeper?
  {
  }

  lemma EmptyRelease(cfg: Config, p: Pool, pc: Pc, a: ReleaseAction)
    requires CanRelease(cfg, p, pc, a)
    ensures !ReleaseStep(cfg, p, pc, a).1.Sweeper?
  {
  }

  ghost predicate KillsNothing(run: seq<Event>) {
    forall i :: 0 <= i < |run| ==> !(run[i].a.S? && run[i].a.swp.Drop?)
  }

  lemma {:induction false} NeverDueNeverLate(cfg: Setup, s: State, run: seq<Event>)
    requires AllEmpty(s) && IsRun(cfg, s, run) && NeverDue(cfg, s, run)
    ensures LateKills(cfg, s, run) == 0 && KillsNothing(run)
    decreases |run|
  {
    hide Effect, Enabled;
    if run != [] {
      EmptyLocal(cfg, s.sh, PcOf(s, run[0].t), run[0].a);
      NeverDueNeverLate(cfg, Step(cfg, s, run[0]), run[1..]);
    }
  }

  // When every job is untracked before its deadline, nothing is killed and the
  // comments hold for the code's own interleavings, however sweeps are mixed
  // with other threads.
  lemma NeverDueSafe(cfg: Setup, s: State, run: seq<Event>, t: Tid)
    requires Init(cfg, s) && IsRun(cfg, s, run) && NeverDue(cfg, s, run)
    ensures KillsNothing(run)
    ensures Orderly(cfg, After(cfg, s, run), t) && AlwaysLive(cfg, s, run)
  {
    NeverDueNeverLate(cfg, s, run);
    NeverLateSafe(cfg, s, run, t);
  }
}
