// A method call of the pool object is a run of the protocol in which one
// thread takes all its actions without interruption, and no other effect.
module Solo {
  import opened Prelude
  import opened PoolSpec
  import opened Protocol
  import opened Safety
  import P = PoolObject
  import Reaper

  // Thread t alone runs from s to a state with pool p, standing at pc.
  ghost predicate RunsAlone(cfg: Setup, s: State, t: Tid, p: Pool, pc: Pc) {
    exists run :: Alone(cfg, s, t, run) && After(cfg, s, run) == State(s.sh.(pool := p), s.threads[t := pc])
  }

  ghost predicate Alone(cfg: Setup, s: State, t: Tid, run: seq<Event>) {
    IsRun(cfg, s, run) && forall i :: 0 <= i < |run| ==> run[i].t == t
  }

  lemma Rest(cfg: Setup, s: State, t: Tid)
    requires t in s.threads
    ensures RunsAlone(cfg, s, t, s.sh.pool, PcOf(s, t))
  {
    assert Alone(cfg, s, t, []);
    assert After(cfg, s, []) == State(s.sh.(pool := s.sh.pool), s.threads[t := PcOf(s, t)]);
  }

  // One more action of the same thread on the pool.
  lemma Then(cfg: Setup, s: State, t: Tid, p: Pool, pc: Pc, a: Action, p': Pool, pc': Pc)
    requires RunsAlone(cfg, s, t, p, pc)
    requires Enabled(cfg, s.sh.(pool := p), pc, a)
    requires Effect(cfg, s.sh.(pool := p), pc, a) == (s.sh.(pool := p'), pc')
    ensures RunsAlone(cfg, s, t, p', pc')
  {
    hide Enabled, Effect;
    var run :| Alone(cfg, s, t, run) && After(cfg, s, run) == State(s.sh.(pool := p), s.threads[t := pc]);
    var e := Event(t, a);
    RunSnoc(cfg, s, run, e);
    assert Alone(cfg, s, t, run + [e]);
    assert s.threads[t := pc][t := pc'] == s.threads[t := pc'];
    assert After(cfg, s, run + [e]) == State(s.sh.(pool := p'), s.threads[t := pc']);
  }

  lemma SoloDiscard(cfg: Setup, s: State, t: Tid, p: Pool, c: Id)
    requires RunsAlone(cfg, s, t, p, Discarding(c))
    ensures RunsAlone(cfg, s, t, P.DiscardSpec(p, c), Finished)
  {
    hide RunsAlone;
    Then(cfg, s, t, p, Discarding(c), R(ReleaseAction.Deregister), PoolSpec.Deregister(p, c), Removing(c));
    Then(cfg, s, t, PoolSpec.Deregister(p, c), Removing(c), R(ReleaseAction.Remove), P.DiscardSpec(p, c), Finished);
  }

  lemma SoloRelease(cfg: Setup, s: State, t: Tid, c: Id)
    requires PcOf(s, t) == Serving(c, Releasing) && c in s.sh.pool.jobs
    ensures RunsAlone(cfg, s, t, P.ReleaseSpec(cfg.pool, s.sh.pool, c), Finished)
  {
    hide RunsAlone;
    Rest(cfg, s, t);
    var p := s.sh.pool;
    var p' := CountJob(p, c);
    var next := if c !in p.all then Finished
                else if p.closed || AtLimit(cfg.pool, p'.jobs[c]) then Discarding(c)
                else Parking(c);
    Then(cfg, s, t, p, Serving(c, Releasing), R(Release(c)), p', next);
    if next.Parking? {
      if |p'.idle| < cfg.pool.maxSize {
        Then(cfg, s, t, p', next, R(ReleaseAction.Park(c)), PoolSpec.Park(p', c), Finished);
      } else {
        Then(cfg, s, t, p', next, R(ParkFull), p', Discarding(c));
        SoloDiscard(cfg, s, t, p', c);
      }
    } else if next.Discarding? {
      SoloDiscard(cfg, s, t, p', c);
    }
  }

  lemma SoloGrow(cfg: Setup, s: State, t: Tid, r: Result<Id, P.AcquireError>, p': Pool)
    requires RunsAlone(cfg, s, t, s.sh.pool, Acquiring(Growing)) && P.GrowSpec(cfg.pool, s.sh.pool, r, p')
    ensures RunsAlone(cfg, s, t, p', AcquireEnd(r))
  {
    hide RunsAlone;
    var p, growing := s.sh.pool, Acquiring(Growing);
    if p.closed {
      Then(cfg, s, t, p, growing, A(AcquireAction.Reserve), p, Finished);
    } else if p.count >= cfg.pool.maxSize {
      Then(cfg, s, t, p, growing, A(AcquireAction.Reserve), p, Acquiring(Waiting));
    } else {
      var q := PoolSpec.Reserve(p);
      Then(cfg, s, t, p, growing, A(AcquireAction.Reserve), q, Acquiring(Creating));
      SoloCreate(cfg, s, t, q, r, p');
    }
  }

  lemma SoloCreate(cfg: Setup, s: State, t: Tid, q: Pool, r: Result<Id, P.AcquireError>, p': Pool)
    requires RunsAlone(cfg, s, t, q, Acquiring(Creating)) && q == PoolSpec.Reserve(s.sh.pool)
    requires P.GrowSpec(cfg.pool, s.sh.pool, r, p') && !s.sh.pool.closed && s.sh.pool.count < cfg.pool.maxSize
    ensures RunsAlone(cfg, s, t, p', AcquireEnd(r))
  {
    hide RunsAlone;
    var creating, giveBack := Acquiring(Creating), Acquiring(Unreserving);
    match r
    case Ok(c) =>
      var made := PoolSpec.Create(q, c);
      Then(cfg, s, t, q, creating, A(AcquireAction.Create(c)), made, Making(c, Starting));
      Then(cfg, s, t, made, Making(c, Starting), A(Start), made, Making(c, Registering));
      Then(cfg, s, t, made, Making(c, Registering), A(AcquireAction.Register(c)), p', Serving(c, Acquired));
    case Err(CreateFailed) =>
      Then(cfg, s, t, q, creating, A(CreateFails), q, giveBack);
      Then(cfg, s, t, q, giveBack, A(AcquireAction.Unreserve), p', Finished);
    case Err(StartFailed(c)) =>
      SoloStartFails(cfg, s, t, q, c);
      assert p' == PoolSpec.Unreserve(PoolSpec.Remove(PoolSpec.Create(q, c), c));
  }

  lemma SoloStartFails(cfg: Setup, s: State, t: Tid, q: Pool, c: Id)
    requires RunsAlone(cfg, s, t, q, Acquiring(Creating)) && c !in q.created
    ensures RunsAlone(cfg, s, t, PoolSpec.Unreserve(PoolSpec.Remove(PoolSpec.Create(q, c), c)), Finished)
  {
    hide RunsAlone;
    var made, giveBack := PoolSpec.Create(q, c), Acquiring(Unreserving);
    var removed := PoolSpec.Remove(made, c);
    Then(cfg, s, t, q, Acquiring(Creating), A(AcquireAction.Create(c)), made, Making(c, Starting));
    Then(cfg, s, t, made, Making(c, Starting), A(StartFails), made, Making(c, MakeStage.StartFailed));
    Then(cfg, s, t, made, Making(c, MakeStage.StartFailed), A(RemoveUnstarted), removed, giveBack);
    Then(cfg, s, t, removed, giveBack, A(AcquireAction.Unreserve), PoolSpec.Unreserve(removed), Finished);
  }

  // Where an Acquire stands with each of its outcomes.
  function AcquireEnd(r: Result<Id, P.AcquireError>): Pc {
    match r
    case Ok(c) => Serving(c, Acquired)
    case Err(AtCapacity) => Acquiring(Waiting)
    case Err(_) => Finished
  }

  lemma SoloAcquire(cfg: Setup, s: State, t: Tid, r: Result<Id, P.AcquireError>, p': Pool)
    requires t in s.threads && PcOf(s, t) == Acquiring(Entry) && P.AcquireSpec(cfg.pool, s.sh.pool, r, p')
    ensures RunsAlone(cfg, s, t, p', AcquireEnd(r))
  {
    hide RunsAlone;
    Rest(cfg, s, t);
    var p := s.sh.pool;
    var fast := if p.closed then Finished else Acquiring(FastPath);
    Then(cfg, s, t, p, Acquiring(Entry), A(CheckClosed), p, fast);
    if !p.closed {
      if p.idle != [] {
        var c := p.idle[0];
        Then(cfg, s, t, p, fast, A(AcquireAction.TakeIdle(c)), PoolSpec.TakeIdle(p), Serving(c, Acquired));
      } else {
        Then(cfg, s, t, p, fast, A(MissIdle), p, Acquiring(Growing));
        if p.count >= cfg.pool.maxSize {
          SoloGrow(cfg, s, t, Err(P.AtCapacity), p);
          var giveUp := if r == Err(P.Closed) then WakeClosed else WakeCancelled;
          Then(cfg, s, t, p, Acquiring(Waiting), A(giveUp), p, Finished);
        } else {
          SoloGrow(cfg, s, t, r, p');
        }
      }
    }
  }

  // A thread that starts Acquire alone on an open pool comes to wait if the
  // pool's snapshot shows overflow.
  lemma SoloOverflow(cfg: Setup, s: State, t: Tid)
    requires t in s.threads && PcOf(s, t) == Acquiring(Entry) && !s.sh.pool.closed
    requires P.Overflow(P.StatsOf(cfg.pool, s.sh.pool))
    ensures RunsAlone(cfg, s, t, s.sh.pool, Acquiring(Waiting))
    ensures forall r, p' :: P.AcquireSpec(cfg.pool, s.sh.pool, r, p') ==> r == Err(P.Cancelled) || r == Err(P.Closed)
  {
    hide RunsAlone;
    var p := s.sh.pool;
    Rest(cfg, s, t);
    Then(cfg, s, t, p, Acquiring(Entry), A(CheckClosed), p, Acquiring(FastPath));
    Then(cfg, s, t, p, Acquiring(FastPath), A(MissIdle), p, Acquiring(Growing));
    SoloGrow(cfg, s, t, Err(P.AtCapacity), p);
    forall r, p' | P.AcquireSpec(cfg.pool, p, r, p') ensures r == Err(P.Cancelled) || r == Err(P.Closed) {
      P.OverflowMustWait(cfg.pool, p, r, p');
    }
  }

  lemma {:induction false} SoloTearDown(cfg: Setup, s: State, t: Tid, p: Pool, todo: set<Id>)
    requires RunsAlone(cfg, s, t, p, TearingDown(true, todo))
    ensures RunsAlone(cfg, s, t, p.(removed := p.removed + todo), Finished)
    decreases todo
  {
    hide RunsAlone;
    if todo == {} {
      assert p == p.(removed := p.removed + todo);
      Then(cfg, s, t, p, TearingDown(true, todo), C(CloseReturn), p, Finished);
    } else {
      var c :| c in todo;
      var p' := PoolSpec.Remove(p, c);
      Then(cfg, s, t, p, TearingDown(true, todo), C(CloseRemove(c)), p', TearingDown(true, todo - {c}));
      SoloTearDown(cfg, s, t, p', todo - {c});
      assert p'.removed + (todo - {c}) == p.removed + todo;
    }
  }

  lemma SoloClose(cfg: Setup, s: State, t: Tid)
    requires t in s.threads && PcOf(s, t) == CloseEntry
    ensures RunsAlone(cfg, s, t, P.CloseSpec(s.sh.pool), Finished)
  {
    hide RunsAlone;
    Rest(cfg, s, t);
    var p := s.sh.pool;
    if p.closed {
      Then(cfg, s, t, p, CloseEntry, C(CloseLock), p, Finished);
    } else {
      var off := CloseOff(p);
      Then(cfg, s, t, p, CloseEntry, C(CloseLock), off, TearingDown(false, p.all));
      Then(cfg, s, t, off, TearingDown(false, p.all), C(CloseDone), Signal(off), TearingDown(true, p.all));
      SoloTearDown(cfg, s, t, Signal(off), p.all);
    }
  }

  // One kill of a sweep.
  lemma SoloKill(cfg: Setup, s: State, t: Tid, p: Pool, c: Id, todo: set<Id>)
    requires RunsAlone(cfg, s, t, p, Sweeper(Killing(todo))) && c in todo
    ensures RunsAlone(cfg, s, t, P.KillSpec(p, c), Sweeper(Killing(todo - {c})))
  {
    hide RunsAlone;
    var killing, rest := Sweeper(Killing(todo)), todo - {c};
    if c in p.all {
      var p' := PoolSpec.Deregister(p, c);
      Then(cfg, s, t, p, killing, S(Lookup(c)), p, Sweeper(Dropping(c, rest)));
      Then(cfg, s, t, p, Sweeper(Dropping(c, rest)), S(Drop(c)), p', Sweeper(Erasing(c, rest)));
      Then(cfg, s, t, p', Sweeper(Erasing(c, rest)), S(Erase), PoolSpec.Remove(p', c), Sweeper(Killing(rest)));
    } else {
      Then(cfg, s, t, p, killing, S(Lookup(c)), p, Sweeper(Killing(rest)));
    }
  }

  // The kills of a whole sweep, in any order the map iteration gives.
  lemma {:induction false} SoloSweep(cfg: Setup, s: State, t: Tid, ids: seq<Id>, k: nat)
    requires t in s.threads && PcOf(s, t) == Sweeper(Killing(Elements(ids)))
    requires NoDuplicates(ids) && k <= |ids|
    ensures RunsAlone(cfg, s, t, Reaper.KillAll(s.sh.pool, ids[..k]), Sweeper(Killing(Elements(ids[k..]))))
  {
    hide RunsAlone;
    if k == 0 {
      assert ids[0..] == ids;
      Rest(cfg, s, t);
    } else {
      SoloSweep(cfg, s, t, ids, k - 1);
      var c := ids[k - 1];
      assert ids[..k][..k - 1] == ids[..k - 1];
      assert ids[k - 1..] == [c] + ids[k..];
      assert Elements(ids[k - 1..]) - {c} == Elements(ids[k..]);
      SoloKill(cfg, s, t, Reaper.KillAll(s.sh.pool, ids[..k - 1]), c, Elements(ids[k - 1..]));
    }
  }
}
