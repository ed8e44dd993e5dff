// Reachable states that show which expectations the code does not meet.
module Witness {
  import opened PoolSpec
  import TtlSpec
  import opened Protocol
  import opened Safety

  lemma ReachStep(cfg: Setup, s: State, t: Tid, a: Action) returns (s': State)
    requires Reachable(cfg, s) && CanStep(cfg, s, Event(t, a))
    ensures s' == Step(cfg, s, Event(t, a)) && Reachable(cfg, s')
  {
    hide Init, Step, CanStep;
    s' := Step(cfg, s, Event(t, a));
    var s0, run :| Init(cfg, s0) && IsRun(cfg, s0, run) && After(cfg, s0, run) == s;
    RunSnoc(cfg, s0, run, Event(t, a));
  }

  // One slot, one warm container, and the given recycling limit.
  function Small(maxJobs: int): Setup { Setup(Config(1, 1, maxJobs), false) }

  function Start(): State {
    State(Shared(Pool({0}, 1, false, false, [0], map[0 := 0], {0}, {}), map[], 0, false, false),
          map[SWEEPER := Sweeper(Idle)])
  }

  lemma StartReachable(maxJobs: int)
    ensures Reachable(Small(maxJobs), Start())
  {
    assert Init(Small(maxJobs), Start());
    assert After(Small(maxJobs), Start(), []) == Start();
  }

  function Pooled(all: set<Id>, count: int, idle: seq<Id>, jobs: map<Id, nat>, created: set<Id>): Pool {
    Pool(all, count, false, false, idle, jobs, created, {})
  }

  // Worker 1 has passed its entry check.
  lemma Entered(maxJobs: int) returns (s: State)
    ensures Reachable(Small(maxJobs), s)
    ensures s == State(Start().sh, map[SWEEPER := Sweeper(Idle), 1 := Acquiring(FastPath)])
  {
    hide Reachable;
    StartReachable(maxJobs);
    var cfg := Small(maxJobs);
    s := ReachStep(cfg, Start(), 1, A(Begin));
    s := ReachStep(cfg, s, 1, A(CheckClosed));
  }

  // Worker 1 has the only container; worker 2 has found nothing parked.
  lemma Contended(maxJobs: int) returns (s: State)
    ensures Reachable(Small(maxJobs), s)
    ensures s == State(Shared(Pooled({0}, 1, [], map[0 := 0], {0}), map[], 0, false, false),
                       map[SWEEPER := Sweeper(Idle), 1 := Serving(0, Acquired), 2 := Acquiring(Growing)])
  {
    hide Reachable;
    var cfg := Small(maxJobs);
    s := Entered(maxJobs);
    s := ReachStep(cfg, s, 1, A(TakeIdle(0)));
    assert s.sh.pool.idle == [];
    s := ReachStep(cfg, s, 2, A(Begin));
    s := ReachStep(cfg, s, 2, A(CheckClosed));
    s := ReachStep(cfg, s, 2, A(MissIdle));
  }

  // The sweeper has looked up worker 1's container but not yet dropped it.
  lemma Targeted() returns (s: State)
    ensures Reachable(Small(0), s)
    ensures s == State(Shared(Pooled({0}, 1, [], map[0 := 0], {0}), map[], 90, false, false),
                       map[SWEEPER := Sweeper(Dropping(0, {})), 1 := Serving(0, Tracked), 2 := Acquiring(Growing)])
  {
    hide Reachable;
    var cfg := Small(0);
    s := Contended(0);
    s := ReachStep(cfg, s, 1, J(Track(90)));
    assert s.sh.deadlines == map[0 := 90];
    s := ReachStep(cfg, s, SWEEPER, Tick(90));
    s := ReachStep(cfg, s, SWEEPER, S(ReadClock));
    s := ReachStep(cfg, s, SWEEPER, S(Collect));
    assert TtlSpec.Expired(map[0 := 90], 90) == {0};
    assert s.sh.deadlines == map[];
    s := ReachStep(cfg, s, SWEEPER, S(Lookup(0)));
    var none: set<Id> := {};
    assert {0} - {0} == none;
  }

  // Worker 1 untracks and parks its container after that.
  lemma Reparked() returns (s: State)
    ensures Reachable(Small(0), s)
    ensures s == State(Shared(Pooled({0}, 1, [0], map[0 := 1], {0}), map[], 90, false, false),
                       map[SWEEPER := Sweeper(Dropping(0, {})), 1 := Finished, 2 := Acquiring(Growing)])
  {
    hide Reachable;
    var cfg := Small(0);
    s := Targeted();
    s := ReachStep(cfg, s, 1, J(Untrack));
    assert s.sh.deadlines == map[];
    s := ReachStep(cfg, s, 1, R(Release(0)));
    s := ReachStep(cfg, s, 1, R(Park(0)));
  }

  // Only then does the sweeper drop it.
  lemma LateKilled() returns (s: State)
    ensures Reachable(Small(0), s)
    ensures s == State(Shared(Pooled({}, 0, [0], map[0 := 1], {0}), map[], 90, false, false),
                       map[SWEEPER := Sweeper(Erasing(0, {})), 1 := Finished, 2 := Acquiring(Growing)])
  {
    hide Reachable;
    s := Reparked();
    s := ReachStep(Small(0), s, SWEEPER, S(Drop(0)));
  }

  // The sweeper has looked up worker 1's container; worker 1 has parked it, and
  // worker 3 has it now, with any deadline of its own.
  lemma HandedOn(ttl: int) returns (s: State)
    ensures Reachable(Small(0), s)
    ensures s == State(Shared(Pooled({0}, 1, [], map[0 := 1], {0}), map[0 := 90 + ttl], 90, false, false),
                       map[SWEEPER := Sweeper(Dropping(0, {})), 1 := Finished, 2 := Acquiring(Growing),
                           3 := Serving(0, Tracked)])
  {
    hide Reachable;
    var cfg := Small(0);
    s := Reparked();
    s := ReachStep(cfg, s, 3, A(Begin));
    s := ReachStep(cfg, s, 3, A(CheckClosed));
    s := ReachStep(cfg, s, 3, A(TakeIdle(0)));
    s := ReachStep(cfg, s, 3, J(Track(ttl)));
    assert s.sh.deadlines == map[0 := 90 + ttl];
  }

  // However far ahead its deadline, a job can lose its container to a kill meant
  // for the job before it.
  lemma InnocentKilled(ttl: int) returns (cfg: Setup, s: State, c: Id)
    ensures Reachable(cfg, s) && !s.sh.pool.closed && PcOf(s, 3) == Serving(c, Tracked) && c in s.sh.pool.removed
    ensures c in s.sh.deadlines && s.sh.deadlines[c] == s.sh.clock + ttl
  {
    hide Reachable;
    cfg, c := Small(0), 0;
    s := HandedOn(ttl);
    s := ReachStep(cfg, s, SWEEPER, S(Drop(0)));
    s := ReachStep(cfg, s, SWEEPER, S(Erase));
  }

  // Stats() can report a negative number of busy containers.
  lemma BusyCanBeNegative() returns (cfg: Setup, s: State)
    ensures Reachable(cfg, s) && !s.sh.pool.closed && s.sh.pool.count - |s.sh.pool.idle| < 0
  {
    cfg := Small(0);
    s := LateKilled();
  }

  // An open pool can hand a removed container to a job.
  lemma RemovedHandedOut() returns (cfg: Setup, s: State, c: Id)
    ensures Reachable(cfg, s) && !s.sh.pool.closed && PcOf(s, 3) == Serving(c, Acquired) && c in s.sh.pool.removed
  {
    hide Reachable;
    cfg, c := Small(0), 0;
    s := LateKilled();
    s := ReachStep(cfg, s, SWEEPER, S(Erase));
    s := ReachStep(cfg, s, 3, A(Begin));
    s := ReachStep(cfg, s, 3, A(CheckClosed));
    s := ReachStep(cfg, s, 3, A(TakeIdle(0)));
  }

  // Worker 2 grows a replacement while the dropped container is parked.
  lemma Replaced() returns (s: State)
    ensures Reachable(Small(0), s)
    ensures s == State(Shared(Pooled({1}, 1, [0], map[0 := 1, 1 := 0], {0, 1}), map[], 90, false, false),
                       map[SWEEPER := Sweeper(Erasing(0, {})), 1 := Finished, 2 := Serving(1, Acquired)])
  {
    hide Reachable;
    var cfg := Small(0);
    s := LateKilled();
    s := ReachStep(cfg, s, 2, A(Reserve));
    s := ReachStep(cfg, s, 2, A(Create(1)));
    s := ReachStep(cfg, s, 2, A(AcquireAction.Start));
    s := ReachStep(cfg, s, 2, A(Register(1)));
  }

  // A release can find the channel full.
  lemma ParkCanBeFull() returns (cfg: Setup, s: State, t: Tid)
    ensures Reachable(cfg, s) && !s.sh.pool.closed && CanStep(cfg, s, Event(t, R(ParkFull)))
  {
    hide Reachable;
    cfg, t := Small(0), 2;
    s := Replaced();
    s := ReachStep(cfg, s, 2, J(SkipTrack));
    s := ReachStep(cfg, s, 2, J(SkipUntrack));
    s := ReachStep(cfg, s, 2, R(Release(1)));
  }

  // Worker 1 has passed its entry check and the environment is closing.
  lemma Cancelled() returns (s: State)
    ensures Reachable(Small(0), s)
    ensures s == State(Shared(Start().sh.pool, map[], 0, true, true),
                       map[SWEEPER := Finished, 1 := Acquiring(FastPath), 2 := CloseEntry])
  {
    hide Reachable;
    var cfg := Small(0);
    s := Entered(0);
    s := ReachStep(cfg, s, 2, C(CallEnvClose));
    s := ReachStep(cfg, s, SWEEPER, S(Exit));
    s := ReachStep(cfg, s, 2, C(ReaperWaited));
  }

  // Then the environment has closed the pool.
  lemma ClosedOver() returns (s: State)
    ensures Reachable(Small(0), s)
    ensures s == State(Shared(Pool({}, 0, true, true, [0], map[0 := 0], {0}, {0}), map[], 0, true, true),
                       map[SWEEPER := Finished, 1 := Acquiring(FastPath), 2 := Finished])
  {
    hide Reachable;
    var cfg := Small(0);
    s := Cancelled();
    s := ReachStep(cfg, s, 2, C(CloseLock));
    s := ReachStep(cfg, s, 2, C(CloseDone));
    s := ReachStep(cfg, s, 2, C(CloseRemove(0)));
    var none: set<Id> := {};
    assert {0} - {0} == none;
    s := ReachStep(cfg, s, 2, C(CloseReturn));
  }

  // After Close has returned, an Acquire that was already past its entry check
  // can be handed a removed container.
  lemma HandedOutAfterClose() returns (cfg: Setup, s: State, c: Id)
    ensures Reachable(cfg, s) && s.sh.pool.done && PcOf(s, 2) == Finished
    ensures PcOf(s, 1) == Serving(c, Acquired) && c in s.sh.pool.removed
  {
    hide Reachable;
    cfg, c := Small(0), 0;
    s := ClosedOver();
    s := ReachStep(cfg, s, 1, A(TakeIdle(0)));
  }

  // No warm container, one slot.
  function Cold(): Setup { Setup(Config(0, 1, 0), false) }

  function ColdStart(): State {
    State(Shared(Pool({}, 0, false, false, [], map[], {}, {}), map[], 0, false, false),
          map[SWEEPER := Sweeper(Idle)])
  }

  lemma ColdReachable()
    ensures Reachable(Cold(), ColdStart())
  {
    assert Init(Cold(), ColdStart());
    assert After(Cold(), ColdStart(), []) == ColdStart();
  }

  // Worker 1 is creating a container while the environment is about to close.
  lemma InFlight() returns (s: State)
    ensures Reachable(Cold(), s)
    ensures s == State(Shared(Pool({}, 1, false, false, [], map[], {}, {}), map[], 0, false, false),
                       map[SWEEPER := Sweeper(Idle), 1 := Acquiring(Creating)])
  {
    hide Reachable;
    ColdReachable();
    var cfg := Cold();
    s := ReachStep(cfg, ColdStart(), 1, A(Begin));
    s := ReachStep(cfg, s, 1, A(CheckClosed));
    s := ReachStep(cfg, s, 1, A(MissIdle));
    s := ReachStep(cfg, s, 1, A(Reserve));
  }

  lemma ClosedInFlight() returns (s: State)
    ensures Reachable(Cold(), s)
    ensures s == State(Shared(Pool({}, 0, true, false, [], map[], {}, {}), map[], 0, true, true),
                       map[SWEEPER := Finished, 1 := Acquiring(Creating), 2 := TearingDown(false, {})])
  {
    hide Reachable;
    var cfg := Cold();
    s := InFlight();
    s := ReachStep(cfg, s, 2, C(CallEnvClose));
    s := ReachStep(cfg, s, SWEEPER, S(Exit));
    s := ReachStep(cfg, s, 2, C(ReaperWaited));
    s := ReachStep(cfg, s, 2, C(CloseLock));
  }

  // After Close has returned, a create that was in flight registers a live
  // container in the closed pool.
  lemma RegisteredAfterClose() returns (cfg: Setup, s: State, c: Id)
    ensures Reachable(cfg, s) && s.sh.pool.done && PcOf(s, 2) == Finished
    ensures c in s.sh.pool.all && c !in s.sh.pool.removed
  {
    hide Reachable;
    cfg, c := Cold(), 0;
    s := ClosedInFlight();
    s := ReachStep(cfg, s, 2, C(CloseDone));
    s := ReachStep(cfg, s, 2, C(CloseReturn));
    s := ReachStep(cfg, s, 1, A(Create(0)));
    s := ReachStep(cfg, s, 1, A(AcquireAction.Start));
    s := ReachStep(cfg, s, 1, A(Register(0)));
  }

  lemma Recycled() returns (s: State)
    ensures Reachable(Small(1), s)
    ensures s == State(Shared(Pool({}, 0, false, false, [], map[0 := 1], {0}, {0}), map[], 0, false, false),
                       map[SWEEPER := Sweeper(Idle), 1 := Finished, 2 := Acquiring(Waiting)])
  {
    hide Reachable;
    var cfg := Small(1);
    s := Contended(1);
    s := ReachStep(cfg, s, 2, A(Reserve));
    s := ReachStep(cfg, s, 1, J(SkipTrack));
    s := ReachStep(cfg, s, 1, J(SkipUntrack));
    s := ReachStep(cfg, s, 1, R(Release(0)));
    s := ReachStep(cfg, s, 1, R(Deregister));
    s := ReachStep(cfg, s, 1, R(Remove));
  }

  // A slot freed by recycling wakes nobody: a worker keeps waiting on an open
  // pool that has room, while no other thread that has started can do anything
  // but sweep.
  lemma WakeupCanBeLost() returns (cfg: Setup, s: State)
    ensures Reachable(cfg, s) && !s.sh.pool.closed
    ensures PcOf(s, 2) == Acquiring(Waiting) && s.sh.pool.idle == [] && s.sh.pool.count == 0 < cfg.pool.maxSize
    ensures forall t, a ::
      (t in s.threads && t != SWEEPER && CanStep(cfg, s, Event(t, a)) ==> a.Tick? || (t == 2 && a == A(WakeCancelled)))
  {
    hide Reachable;
    cfg := Small(1);
    s := Recycled();
  }
}
