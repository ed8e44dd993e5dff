// Whom a kill hits. sweepOnce takes expired ids under its lock and kills them
// after unlocking, so by the time of the kill the job that overran may have
// released its container, and another job may hold it.
module Kills {
  import opened PoolSpec
  import TtlSpec
  import opened Protocol
  import opened Invariant
  import opened Safety
  import opened Handouts
  import opened Sweeps

  // ---- the collect behind a kill ----

  ghost predicate OneSweeper(s: State) {
    forall t :: t in s.threads && s.threads[t].Sweeper? ==> t == SWEEPER
  }

  lemma {:induction false} OneSweeperRun(cfg: Setup, s: State, run: seq<Event>)
    requires OneSweeper(s) && IsRun(cfg, s, run)
    ensures OneSweeper(After(cfg, s, run))
    decreases |run|
  {
    hide Effect, Enabled;
    if run != [] {
      CollectedStep(cfg, s.sh, PcOf(s, run[0].t), run[0].a);
      OneSweeperRun(cfg, Step(cfg, s, run[0]), run[1..]);
    }
  }

  // The sweeper's lock section at s takes c, whose deadline has passed.
  predicate Takes(s: State, e: Event, c: Id) {
    && e == Event(SWEEPER, S(Collect)) && PcOf(s, SWEEPER).Sweeper? && PcOf(s, SWEEPER).sweep.Collecting?
    && c in TtlSpec.Expired(s.sh.deadlines, PcOf(s, SWEEPER).sweep.now)
  }

  lemma OnlyCollectTakes(cfg: Setup, s: State, e: Event, c: Id)
    requires CanStep(cfg, s, e)
    requires c in Collected(PcOf(Step(cfg, s, e), SWEEPER)) && c !in Collected(PcOf(s, SWEEPER))
    ensures Takes(s, e, c)
  {
    hide AcquireStep, ReleaseStep;
    if e.t == SWEEPER {
      match e.a
      case A(a) => EmptyAcquire(cfg.pool, s.sh.pool, PcOf(s, e.t), a);
      case R(a) => EmptyRelease(cfg.pool, s.sh.pool, PcOf(s, e.t), a);
      case _ =>
    }
  }

  // Event k is the collect that took what the sweeper is still to kill.
  lemma {:induction false} LastCollect(cfg: Setup, s: State, run: seq<Event>, c: Id) returns (k: nat)
    requires IsRun(cfg, s, run) && c !in Collected(PcOf(s, SWEEPER))
    requires c in Collected(PcOf(After(cfg, s, run), SWEEPER))
    ensures k < |run| && IsRun(cfg, s, run[..k]) && Takes(After(cfg, s, run[..k]), run[k], c)
    decreases |run|
  {
    hide Step, CanStep, Takes, Collected;
    var n := |run| - 1;
    assert run == run[..n] + [run[n]];
    AfterAppend(cfg, s, run[..n], [run[n]]);
    var last := After(cfg, s, run[..n]);
    assert [run[n]][1..] == [] && After(cfg, last, [run[n]]) == Step(cfg, last, run[n]);
    if c in Collected(PcOf(last, SWEEPER)) {
      k := LastCollect(cfg, s, run[..n], c);
      assert run[..n][..k] == run[..k];
    } else {
      OnlyCollectTakes(cfg, last, run[n], c);
      k := n;
    }
  }

  // ---- the deadline behind a collect ----

  lemma DeadlineStep(cfg: Setup, s: State, e: Event, c: Id)
    requires CanStep(cfg, s, e)
    ensures var sh' := Step(cfg, s, e).sh;
      c in sh'.deadlines ==>
        || (c in s.sh.deadlines && sh'.deadlines[c] == s.sh.deadlines[c])
        || (e.a.J? && e.a.job.Track? && PcOf(s, e.t) == Serving(c, Acquired)
            && sh'.deadlines[c] == s.sh.clock + e.a.job.ttl)
  {
    hide AcquireStep, ReleaseStep, CanAcquire, CanRelease;
  }

  // Event i is the Track that recorded the deadline of c.
  lemma {:induction false} DeadlineFrom(cfg: Setup, s: State, run: seq<Event>, c: Id) returns (i: nat)
    requires IsRun(cfg, s, run) && c !in s.sh.deadlines && c in After(cfg, s, run).sh.deadlines
    ensures i < |run| && IsRun(cfg, s, run[..i]) && run[i].a.J? && run[i].a.job.Track?
    ensures var at := After(cfg, s, run[..i]);
      && PcOf(at, run[i].t) == Serving(c, Acquired)
      && After(cfg, s, run).sh.deadlines[c] == at.sh.clock + run[i].a.job.ttl
    decreases |run|
  {
    hide Step, CanStep;
    var n := |run| - 1;
    assert run == run[..n] + [run[n]];
    AfterAppend(cfg, s, run[..n], [run[n]]);
    var last := After(cfg, s, run[..n]);
    assert [run[n]][1..] == [] && After(cfg, last, [run[n]]) == Step(cfg, last, run[n]);
    DeadlineStep(cfg, last, run[n], c);
    if c in last.sh.deadlines && Step(cfg, last, run[n]).sh.deadlines[c] == last.sh.deadlines[c] {
      i := DeadlineFrom(cfg, s, run[..n], c);
      assert run[..n][..i] == run[..i];
    } else {
      i := n;
    }
  }

  // The time a sweep has read is not ahead of the clock.
  predicate ReadBefore(pc: Pc, clock: int) {
    pc.Sweeper? && pc.sweep.Collecting? ==> pc.sweep.now <= clock
  }

  lemma ReadStep(cfg: Setup, sh: Shared, pc: Pc, a: Action)
    requires Enabled(cfg, sh, pc, a) && ReadBefore(pc, sh.clock)
    ensures var (sh', pc') := Effect(cfg, sh, pc, a); sh.clock <= sh'.clock && ReadBefore(pc', sh'.clock)
  {
    hide AcquireStep, ReleaseStep, CanAcquire, CanRelease;
    match a
    case A(a) => EmptyAcquire(cfg.pool, sh.pool, pc, a);
    case R(a) => EmptyRelease(cfg.pool, sh.pool, pc, a);
    case _ =>
  }

  lemma {:induction false} ReadRun(cfg: Setup, s: State, run: seq<Event>, t: Tid)
    requires IsRun(cfg, s, run) && ReadBefore(PcOf(s, t), s.sh.clock)
    ensures ReadBefore(PcOf(After(cfg, s, run), t), After(cfg, s, run).sh.clock)
    decreases |run|
  {
    if run != [] {
      hide Effect, Enabled;
      var e := run[0];
      ClockStep(cfg, s.sh, PcOf(s, e.t), e.a);
      if e.t == t {
        ReadStep(cfg, s.sh, PcOf(s, t), e.a);
      }
      ReadRun(cfg, Step(cfg, s, e), run[1..], t);
    }
  }

  lemma ClockStep(cfg: Setup, sh: Shared, pc: Pc, a: Action)
    requires Enabled(cfg, sh, pc, a)
    ensures sh.clock <= Effect(cfg, sh, pc, a).0.clock
  {
    hide AcquireStep, ReleaseStep, CanAcquire, CanRelease;
  }

  // What a sweep takes was tracked by whoever held it, and the TTL has run out
  // since then.
  lemma TakenAfterTtl(cfg: Setup, s: State, run: seq<Event>, e: Event, c: Id) returns (i: nat)
    requires Init(cfg, s) && IsRun(cfg, s, run) && Takes(After(cfg, s, run), e, c)
    ensures i < |run| && IsRun(cfg, s, run[..i]) && run[i].a.J? && run[i].a.job.Track?
    ensures var at := After(cfg, s, run[..i]);
      && PcOf(at, run[i].t) == Serving(c, Acquired)
      && at.sh.clock + run[i].a.job.ttl <= After(cfg, s, run).sh.clock
  {
    i := DeadlineFrom(cfg, s, run, c);
    ReadRun(cfg, s, run, SWEEPER);
  }

  // ---- the job that overran ----

  // The thread has released its container, or is on the way out of Release.
  predicate Leaving(pc: Pc) { pc.Finished? || pc.Parking? || pc.Discarding? || pc.Removing? }

  predicate Serves(pc: Pc, c: Id) { pc.Serving? && pc.c == c }

  lemma ServesOn(cfg: Setup, sh: Shared, pc: Pc, a: Action, c: Id)
    requires Enabled(cfg, sh, pc, a)
    ensures Serves(pc, c) ==> var pc' := Effect(cfg, sh, pc, a).1;
      if a == R(Release(c)) then Leaving(pc') else Serves(pc', c)
    ensures Leaving(pc) ==> Leaving(Effect(cfg, sh, pc, a).1)
    ensures a == R(Release(c)) ==> Serves(pc, c)
  {
  }

  lemma {:induction false} LeftForGood(cfg: Setup, s: State, run: seq<Event>, t: Tid, c: Id)
    requires IsRun(cfg, s, run) && Leaving(PcOf(s, t))
    ensures Leaving(PcOf(After(cfg, s, run), t))
    decreases |run|
  {
    hide Effect, Enabled;
    if run != [] {
      ServesOn(cfg, s.sh, PcOf(s, run[0].t), run[0].a, c);
      LeftForGood(cfg, Step(cfg, s, run[0]), run[1..], t, c);
    }
  }

  // A job still has its container if and only if the container has not been released.
  lemma {:induction false} ServesUntilReleased(cfg: Setup, s: State, run: seq<Event>, t: Tid, c: Id)
    requires Inv(cfg, s) && IsRun(cfg, s, run) && Serves(PcOf(s, t), c)
    ensures Serves(PcOf(After(cfg, s, run), t), c) <==> Count(run, Released, c) == 0
    decreases |run|
  {
    if run != [] {
      var e := run[0];
      assert e.t != t && e.t in s.threads ==> Compatible(s.threads[e.t], s.threads[t]);
      hide Inv, Effect, Enabled;
      ServesOn(cfg, s.sh, PcOf(s, e.t), e.a, c);
      InvStep(cfg, s, e);
      if e.a == R(Release(c)) {
        LeftForGood(cfg, Step(cfg, s, e), run[1..], t, c);
      } else {
        ServesUntilReleased(cfg, Step(cfg, s, e), run[1..], t, c);
      }
    }
  }

  // ---- whom the kill hits ----

  ghost predicate OtherServes(s: State, t: Tid, c: Id) {
    exists v :: v in s.threads && v != t && Serves(s.threads[v], c)
  }

  ghost predicate Discards(s: State, c: Id) {
    exists v :: v in s.threads && s.threads[v] == Discarding(c)
  }

  // From a state in which t serves c: who has c at the end of a run.
  lemma HolderIff(cfg: Setup, s: State, run: seq<Event>, t: Tid, c: Id)
    requires Inv(cfg, s) && IsRun(cfg, s, run) && t in s.threads && Serves(s.threads[t], c)
    ensures var end, released, handedOut := After(cfg, s, run), Count(run, Released, c), Count(run, HandedOut, c);
      && (Serves(PcOf(end, t), c) <==> released == 0)
      && (OtherServes(end, t, c) <==> 0 < released == handedOut)
      && (!ServedIn(end.threads, c) <==> handedOut < released)
  {
    var end := After(cfg, s, run);
    ServesUntilReleased(cfg, s, run, t, c);
    Balance(cfg, s, run, c);
    InvRun(cfg, s, run);
    hide Inv, IsRun, After, Count;
    assert ServedIn(s.threads, c);
    OneServer(cfg, end, t, c);
  }

  lemma OneServer(cfg: Setup, s: State, t: Tid, c: Id)
    requires Inv(cfg, s)
    ensures ServedIn(s.threads, c) <==> Serves(PcOf(s, t), c) || OtherServes(s, t, c)
    ensures !(Serves(PcOf(s, t), c) && OtherServes(s, t, c))
  {
    hide PoolOk, PcOk, AccountsOk, CapacityOk;
    if ServedIn(s.threads, c) {
      var v :| v in s.threads && s.threads[v].Serving? && s.threads[v].c == c;
      assert v == t || OtherServes(s, t, c);
    }
    assert forall v :: v in s.threads && v != t && t in s.threads ==> Compatible(s.threads[t], s.threads[v]);
  }

  // A registered container nobody serves is shelved or being discarded.
  lemma NotServed(cfg: Setup, s: State, c: Id)
    requires Inv(cfg, s) && c in s.sh.pool.all && !ServedIn(s.threads, c)
    ensures Shelved(s, c) || Discards(s, c)
  {
    hide PoolOk, PcOk, CapacityOk;
    if c !in s.sh.pool.idle {
      var v :| v in s.threads && Live(s.threads[v]) && s.threads[v].c == c;
      assert s.threads[v] == Parking(c) || s.threads[v] == Discarding(c);
    }
  }

  // The job is past Track.
  predicate PastTrack(pc: Pc, c: Id) { pc == Serving(c, Tracked) || pc == Serving(c, Releasing) }

  lemma DeadlineStaysOff(cfg: Setup, sh: Shared, pc: Pc, a: Action, c: Id)
    requires Enabled(cfg, sh, pc, a)
    ensures var (sh', pc') := Effect(cfg, sh, pc, a);
      && (c !in sh.deadlines && (Serves(pc, c) ==> PastTrack(pc, c)) ==> c !in sh'.deadlines)
      && (PastTrack(pc, c) && a != R(Release(c)) ==> PastTrack(pc', c))
  {
    hide AcquireStep, ReleaseStep;
    match a
    case A(a) => NotPastTrack(pc, a, c);
    case R(a) => ReleasesOwn(cfg.pool, sh.pool, pc, a, c);
    case _ =>
  }

  lemma NotPastTrack(pc: Pc, a: AcquireAction, c: Id)
    ensures forall p: Pool :: CanAcquire(p, pc, a) ==> !Serves(pc, c)
  {
  }

  lemma ReleasesOwn(cfg: Config, p: Pool, pc: Pc, a: ReleaseAction, c: Id)
    requires CanRelease(cfg, p, pc, a)
    ensures Serves(pc, c) ==> a == ReleaseAction.Release(c)
  {
  }

  // A job whose deadline was taken has none again while it holds its container.
  lemma {:induction false} OverdueStays(cfg: Setup, s: State, run: seq<Event>, t: Tid, c: Id)
    requires Inv(cfg, s) && IsRun(cfg, s, run) && t in s.threads && PastTrack(s.threads[t], c) && c !in s.sh.deadlines
    requires Count(run, Released, c) == 0
    ensures c !in After(cfg, s, run).sh.deadlines
    decreases |run|
  {
    if run != [] {
      var e := run[0];
      assert e.t != t && e.t in s.threads ==> Compatible(s.threads[e.t], s.threads[t]);
      hide Inv, Effect, Enabled;
      DeadlineStaysOff(cfg, s.sh, PcOf(s, e.t), e.a, c);
      InvStep(cfg, s, e);
      OverdueStays(cfg, Step(cfg, s, e), run[1..], t, c);
    }
  }

  // The holders of c, and what they tell of a kill now, after a collect at s.
  ghost predicate HitsBy(s: State, u: Tid, t: Tid, c: Id, released: nat, handedOut: nat) {
    && (Serves(PcOf(s, t), c) <==> released == 0)
    && (OtherServes(s, t, c) <==> 0 < released == handedOut)
    && (Shelved(s, c) || Discards(s, c) <==> handedOut < released)
    && (LateKill(s, Event(u, S(Drop(c)))) <==> !s.sh.pool.closed && handedOut < released && !Discards(s, c))
    && (c in s.sh.deadlines ==> OtherServes(s, t, c))
  }

  lemma HitsSince(cfg: Setup, s: State, run: seq<Event>, u: Tid, t: Tid, c: Id)
    requires Inv(cfg, s) && IsRun(cfg, s, run) && t in s.threads && s.threads[t] == Serving(c, Tracked)
    requires c !in s.sh.deadlines && c in After(cfg, s, run).sh.pool.all
    ensures HitsBy(After(cfg, s, run), u, t, c, Count(run, Released, c), Count(run, HandedOut, c))
  {
    var end := After(cfg, s, run);
    InvRun(cfg, s, run);
    HolderIff(cfg, s, run, t, c);
    if Count(run, Released, c) == 0 {
      OverdueStays(cfg, s, run, t, c);
    }
    hide Inv, IsRun, After, Count, OtherServes, Shelved, Discards;
    NowhereElse(cfg, end, c);
    OneServer(cfg, end, t, c);
    if c in end.sh.deadlines {
      TrackedIsServed(cfg, end, c);
    }
  }

  // Every kill of a registered container, in every run, goes back to a collect
  // that took it from a job t past its deadline. The kill hits t if and only if
  // the container has not been released since; another job, whatever its own
  // deadline, if and only if it has been released and handed out again as often;
  // and otherwise a container on the shelf, a late kill, or one being discarded.
  // So a job whose deadline is still recorded is hit only in the second case.
  lemma KillHitsIff(cfg: Setup, s: State, run: seq<Event>, u: Tid, c: Id) returns (k: nat, t: Tid)
    requires Init(cfg, s) && IsRun(cfg, s, run)
    requires CanStep(cfg, After(cfg, s, run), Event(u, S(Drop(c)))) && c in After(cfg, s, run).sh.pool.all
    ensures k < |run| && IsRun(cfg, s, run[..k]) && Takes(After(cfg, s, run[..k]), run[k], c)
    ensures PcOf(After(cfg, s, run[..k]), t) == Serving(c, Tracked)
    ensures HitsBy(After(cfg, s, run), u, t, c, Count(run[k + 1..], Released, c), Count(run[k + 1..], HandedOut, c))
  {
    k := CollectBehind(cfg, s, run, u, c);
    var at, e, rest := After(cfg, s, run[..k]), run[k], run[k + 1..];
    InvInit(cfg, s);
    hide Inv, Init, Step, CanStep, Takes, HitsBy, Count;
    InvRun(cfg, s, run[..k]);
    t := StillTracked(cfg, at, e, c);
    HitsSince(cfg, Step(cfg, at, e), rest, u, t, c);
  }

  // The collect behind an enabled kill, and the run since.
  lemma CollectBehind(cfg: Setup, s: State, run: seq<Event>, u: Tid, c: Id) returns (k: nat)
    requires Init(cfg, s) && IsRun(cfg, s, run) && CanStep(cfg, After(cfg, s, run), Event(u, S(Drop(c))))
    ensures k < |run| && IsRun(cfg, s, run[..k]) && Takes(After(cfg, s, run[..k]), run[k], c)
    ensures var at := After(cfg, s, run[..k]);
      && CanStep(cfg, at, run[k]) && IsRun(cfg, Step(cfg, at, run[k]), run[k + 1..])
      && After(cfg, Step(cfg, at, run[k]), run[k + 1..]) == After(cfg, s, run)
  {
    OneSweeperRun(cfg, s, run);
    assert c in Collected(PcOf(After(cfg, s, run), SWEEPER));
    hide Init, Step, CanStep, Takes, Collected;
    NothingCollected(cfg, s, c);
    k := LastCollect(cfg, s, run, c);
    var at, rest := After(cfg, s, run[..k]), run[k + 1..];
    assert run == run[..k] + ([run[k]] + rest);
    AfterAppend(cfg, s, run[..k], [run[k]] + rest);
    assert ([run[k]] + rest)[1..] == rest;
  }

  lemma NothingCollected(cfg: Setup, s: State, c: Id)
    requires Init(cfg, s)
    ensures c !in Collected(PcOf(s, SWEEPER))
  {
  }

  lemma TrackedIsServed(cfg: Setup, s: State, c: Id)
    requires Inv(cfg, s) && c in s.sh.deadlines
    ensures ServedIn(s.threads, c)
  {
    hide PoolOk, PcOk, CapacityOk;
    var t :| t in s.threads && s.threads[t] == Serving(c, Tracked);
  }

  lemma CollectEffect(cfg: Setup, s: State, e: Event, c: Id)
    requires CanStep(cfg, s, e) && Takes(s, e, c)
    ensures c in s.sh.deadlines && c !in Step(cfg, s, e).sh.deadlines
    ensures var after := Step(cfg, s, e).threads;
      forall t :: t in s.threads && t != SWEEPER ==> t in after && after[t] == s.threads[t]
    ensures PcOf(s, SWEEPER).Sweeper?
  {
  }

  // The collect takes the id from a job that goes on as it was.
  lemma StillTracked(cfg: Setup, s: State, e: Event, c: Id) returns (t: Tid)
    requires Inv(cfg, s) && CanStep(cfg, s, e) && Takes(s, e, c)
    ensures PcOf(s, t) == Serving(c, Tracked) && Inv(cfg, Step(cfg, s, e))
    ensures c !in Step(cfg, s, e).sh.deadlines
    ensures t in Step(cfg, s, e).threads && Step(cfg, s, e).threads[t] == Serving(c, Tracked)
  {
    hide PoolOk, PcOk, CapacityOk, Step, CanStep, Takes;
    InvStep(cfg, s, e);
    CollectEffect(cfg, s, e, c);
    t :| t in s.threads && s.threads[t] == Serving(c, Tracked);
  }

  lemma NowhereElse(cfg: Setup, s: State, c: Id)
    requires Inv(cfg, s) && c in s.sh.pool.all
    ensures Shelved(s, c) || Discards(s, c) <==> !ServedIn(s.threads, c)
    ensures Discards(s, c) ==> !Shelved(s, c)
  {
    if Discards(s, c) {
      var t :| t in s.threads && s.threads[t] == Discarding(c);
      NotParked(cfg, s, t, c);
    }
    if ServedIn(s.threads, c) {
      NotShelved(cfg, s, c);
      var t :| t in s.threads && s.threads[t].Serving? && s.threads[t].c == c;
      forall v | v in s.threads ensures s.threads[v] != Discarding(c) {
        assert v != t ==> Compatible(s.threads[t], s.threads[v]);
      }
    } else {
      NotServed(cfg, s, c);
    }
  }

  // ---- sweeps that run without interleaving ----

  // Whatever the sweeper is about to kill is in the hands of the job whose
  // deadline it took.
  ghost predicate KillsOverdue(s: State) {
    forall c :: c in Collected(PcOf(s, SWEEPER)) ==> c !in s.sh.deadlines && TrackedIn(s.threads, c)
  }

  lemma SweeperLocal(cfg: Setup, sh: Shared, pc: Pc, a: Action, c: Id)
    requires Enabled(cfg, sh, pc, a) && pc.Sweeper?
    ensures var (sh', pc') := Effect(cfg, sh, pc, a);
      && sh'.deadlines.Keys <= sh.deadlines.Keys && !pc'.Serving?
      && (c in Collected(pc') ==> c in Collected(pc) || (c in sh.deadlines && c !in sh'.deadlines))
  {
  }

  lemma KillsOverdueStep(cfg: Setup, s: State, e: Event)
    requires Inv(cfg, s) && KillsOverdue(s) && OneSweeper(s) && CanStep(cfg, s, e)
    requires MidSweep(s) ==> e.t == SWEEPER
    ensures KillsOverdue(Step(cfg, s, e))
  {
    hide PoolOk, PcOk, CapacityOk, Effect, Enabled;
    var s', pc := Step(cfg, s, e), PcOf(s, e.t);
    CollectedStep(cfg, s.sh, pc, e.a);
    forall c | c in Collected(PcOf(s', SWEEPER)) ensures c !in s'.sh.deadlines && TrackedIn(s'.threads, c) {
      assert e.t == SWEEPER && pc.Sweeper?;
      SweeperLocal(cfg, s.sh, pc, e.a, c);
      assert TrackedIn(s.threads, c);
      var t :| t in s.threads && s.threads[t] == Serving(c, Tracked);
      assert s'.threads[t] == s.threads[t];
    }
  }

  lemma {:induction false} KillsOverdueRun(cfg: Setup, s: State, run: seq<Event>)
    requires Inv(cfg, s) && KillsOverdue(s) && OneSweeper(s) && IsRun(cfg, s, run) && AtomicSweeps(cfg, s, run)
    ensures KillsOverdue(After(cfg, s, run))
    decreases |run|
  {
    hide Inv, Effect, Enabled, KillsOverdue, MidSweep;
    if run != [] {
      KillsOverdueStep(cfg, s, run[0]);
      CollectedStep(cfg, s.sh, PcOf(s, run[0].t), run[0].a);
      InvStep(cfg, s, run[0]);
      KillsOverdueRun(cfg, Step(cfg, s, run[0]), run[1..]);
    }
  }

  // When a sweep and its kills are not interleaved with other threads, a kill
  // hits only a job whose own deadline has passed and was taken.
  lemma AtomicKillsOverdue(cfg: Setup, s: State, run: seq<Event>, u: Tid, c: Id)
    requires Init(cfg, s) && IsRun(cfg, s, run) && AtomicSweeps(cfg, s, run)
    requires CanStep(cfg, After(cfg, s, run), Event(u, S(Drop(c))))
    ensures var end := After(cfg, s, run); c !in end.sh.deadlines && TrackedIn(end.threads, c)
  {
    InvInit(cfg, s);
    OneSweeperRun(cfg, s, run);
    KillsOverdueRun(cfg, s, run);
  }

  // ---- shutdown ----

  // Of an id the sweeper has taken, either the kill is still to come or the
  // container is out of the registry for good.
  ghost predicate Settling(s: State, c: Id) {
    c in s.sh.pool.jobs && (c in Collected(PcOf(s, SWEEPER)) || c !in s.sh.pool.all)
  }

  lemma SettlingSweep(sh: Shared, pc: Pc, a: SweepAction, c: Id)
    requires CanSweep(sh, pc, a) && c in Collected(pc)
    ensures var (sh', pc') := SweepStep(sh, pc, a); c in Collected(pc') || c !in sh'.pool.all
  {
  }

  lemma SettlingStep(cfg: Setup, s: State, e: Event, c: Id)
    requires Inv(cfg, s) && CanStep(cfg, s, e) && Settling(s, c)
    ensures Settling(Step(cfg, s, e), c)
  {
    OwnOk(cfg, s, e.t);
    hide PoolOk, PcOk, AccountsOk, CapacityOk, Collected, AcquireStep, CanAcquire, ReleaseStep, CanRelease;
    hide SweepStep, CanSweep;
    LeaveStep(cfg, s.sh, PcOf(s, e.t), e.a, c);
    if c !in s.sh.pool.all {
      LateStep(cfg, s.sh, PcOf(s, e.t), e.a, c);
    } else if e.t == SWEEPER {
      SweeperActs(cfg, s.sh, PcOf(s, e.t), e.a, c);
    }
  }

  // A sweeper with something to kill only sweeps.
  lemma SweeperActs(cfg: Setup, sh: Shared, pc: Pc, a: Action, c: Id)
    requires Enabled(cfg, sh, pc, a) && c in Collected(pc)
    ensures var (sh', pc') := Effect(cfg, sh, pc, a); c in Collected(pc') || c !in sh'.pool.all
  {
    hide SweepStep;
    if a.S? {
      SettlingSweep(sh, pc, a.swp, c);
    }
  }

  lemma {:induction false} SettlingRun(cfg: Setup, s: State, run: seq<Event>, c: Id)
    requires Inv(cfg, s) && IsRun(cfg, s, run) && Settling(s, c)
    ensures Inv(cfg, After(cfg, s, run)) && Settling(After(cfg, s, run), c)
    decreases |run|
  {
    hide Inv, Effect, Enabled, Settling;
    if run != [] {
      SettlingStep(cfg, s, run[0], c);
      InvStep(cfg, s, run[0]);
      SettlingRun(cfg, Step(cfg, s, run[0]), run[1..], c);
    }
  }

  lemma {:induction false} CollectedKnownRun(cfg: Setup, s: State, run: seq<Event>)
    requires Inv(cfg, s) && IsRun(cfg, s, run) && Collected(PcOf(s, SWEEPER)) <= s.sh.pool.jobs.Keys
    ensures var end := After(cfg, s, run); Collected(PcOf(end, SWEEPER)) <= end.sh.pool.jobs.Keys
    decreases |run|
  {
    if run != [] {
      var e, s' := run[0], Step(cfg, s, run[0]);
      assert s.sh.deadlines.Keys <= s.sh.pool.jobs.Keys;
      hide Inv, Effect, Enabled, Collected;
      CollectedStep(cfg, s.sh, PcOf(s, e.t), e.a);
      forall c | c in Collected(PcOf(s', SWEEPER)) ensures c in s'.sh.pool.jobs {
        LeaveStep(cfg, s.sh, PcOf(s, e.t), e.a, c);
      }
      InvStep(cfg, s, e);
      CollectedKnownRun(cfg, s', run[1..]);
    }
  }

  lemma CollectedRegistered(cfg: Setup, s: State, c: Id)
    requires Reachable(cfg, s) && c in Collected(PcOf(s, SWEEPER))
    ensures c in s.sh.pool.jobs
  {
    hide Inv;
    var s0, run :| Init(cfg, s0) && IsRun(cfg, s0, run) && After(cfg, s0, run) == s;
    InvInit(cfg, s0);
    CollectedKnownRun(cfg, s0, run);
  }

  // No reap is abandoned: by the time the reaper has stopped, and so before the
  // environment's Close touches the pool, everything a sweep has taken is out of
  // the registry.
  lemma ReapsFinish(cfg: Setup, s: State, run: seq<Event>, c: Id)
    requires Reachable(cfg, s) && IsRun(cfg, s, run) && c in Collected(PcOf(s, SWEEPER))
    requires After(cfg, s, run).sh.reaperDone
    ensures c !in After(cfg, s, run).sh.pool.all
  {
    ReachableInv(cfg, s);
    CollectedRegistered(cfg, s, c);
    hide Reachable, IsRun, After;
    SettlingRun(cfg, s, run, c);
    var end := After(cfg, s, run);
    assert SWEEPER in end.threads ==> PcOk(cfg, end.sh, end.threads[SWEEPER]);
  }
}
