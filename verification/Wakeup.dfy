// Waiting for a container. The wait at capacity listens to the idle channel
// only, so a slot given back does not wake anyone. The lemmas here count the
// occupied slots and show that without recycling, reaping and failed creates
// every occupant can end the wait; Wakers.dfy says exactly who can in general.
module Wakeup {
  import opened PoolSpec
  import opened Protocol
  import opened Invariant
  import opened Safety
  import opened Sweeps

  // Threads that occupy a slot: creating a container, or holding a registered one.
  function Occupants(s: State): set<Tid> {
    CreatingThreads(s.threads) + RegisteredHolders(s)
  }

  function RegisteredHolders(s: State): set<Tid> {
    set t | t in s.threads && Live(s.threads[t]) && s.threads[t].c in s.sh.pool.all
  }

  // With nothing parked, each used slot belongs to a thread of its own.
  lemma SlotsOccupied(cfg: Setup, s: State)
    requires Inv(cfg, s) && !s.sh.pool.closed && s.sh.pool.idle == []
    ensures |Occupants(s)| == s.sh.pool.count
  {
    hide PoolView, PoolOk;
    var all, holders := s.sh.pool.all, RegisteredHolders(s);
    forall c | c in all
      ensures exists t :: t in holders && t in s.threads && Holding(s.threads[t]) && s.threads[t].c == c
    {
      var t :| t in s.threads && Live(s.threads[t]) && s.threads[t].c == c;
      assert t in holders;
    }
    FewerTokens(s.threads, holders, all);
    FewerHolders(s.threads, holders, all);
    assert CreatingThreads(s.threads) !! holders;
  }

  // Neither a failing create nor a kill.
  predicate Benign(a: Action) {
    a != A(CreateFails) && a != A(StartFails) && !(a.S? && a.swp.Drop?)
  }

  // ---- slots given back ----

  // A Reserve that gets a slot.
  predicate Takes(cfg: Config, p: Pool, a: Action) {
    a == A(Reserve) && !p.closed && p.count < cfg.maxSize
  }

  // The end of a failed create, or the removal of a registered container.
  predicate GivesBack(p: Pool, pc: Pc, a: Action) {
    || a == A(Unreserve)
    || (a == R(Deregister) && pc.Discarding? && pc.c in p.all)
    || (a.S? && a.swp.Drop? && a.swp.c in p.all)
  }

  // Slots taken less slots given back along a run.
  function Net(cfg: Setup, s: State, run: seq<Event>): int
    requires IsRun(cfg, s, run)
    decreases |run|
  {
    if run == [] then 0
    else
      var e, p := run[0], s.sh.pool;
      One(Takes(cfg.pool, p, e.a)) - One(GivesBack(p, PcOf(s, e.t), e.a)) + Net(cfg, Step(cfg, s, e), run[1..])
  }

  lemma CountAcquire(cfg: Config, p: Pool, pc: Pc, a: AcquireAction)
    requires CanAcquire(p, pc, a)
    ensures AcquireStep(cfg, p, pc, a).0.count == p.count + One(Takes(cfg, p, A(a))) - One(GivesBack(p, pc, A(a)))
  {
  }

  lemma CountRelease(cfg: Config, p: Pool, pc: Pc, a: ReleaseAction)
    requires CanRelease(cfg, p, pc, a)
    ensures ReleaseStep(cfg, p, pc, a).0.count == p.count - One(GivesBack(p, pc, R(a)))
  {
  }

  lemma CountSweep(sh: Shared, pc: Pc, a: SweepAction)
    requires CanSweep(sh, pc, a)
    ensures SweepStep(sh, pc, a).0.pool.count == sh.pool.count - One(GivesBack(sh.pool, pc, S(a)))
  {
  }

  lemma CountStep(cfg: Setup, sh: Shared, pc: Pc, a: Action)
    requires Enabled(cfg, sh, pc, a) && !Effect(cfg, sh, pc, a).0.pool.closed
    ensures Effect(cfg, sh, pc, a).0.pool.count
         == sh.pool.count + One(Takes(cfg.pool, sh.pool, a)) - One(GivesBack(sh.pool, pc, a))
  {
    hide AcquireStep, ReleaseStep, SweepStep, CanAcquire, CanRelease, CanSweep;
    match a
    case A(a) => CountAcquire(cfg.pool, sh.pool, pc, a);
    case R(a) => CountRelease(cfg.pool, sh.pool, pc, a);
    case S(a) => CountSweep(sh, pc, a);
    case _ =>
  }

  // While the pool is open, the count is what was taken less what was given back.
  lemma {:induction false} CountRun(cfg: Setup, s: State, run: seq<Event>)
    requires Inv(cfg, s) && IsRun(cfg, s, run) && !After(cfg, s, run).sh.pool.closed
    ensures !s.sh.pool.closed && After(cfg, s, run).sh.pool.count == s.sh.pool.count + Net(cfg, s, run)
    decreases |run|
  {
    hide Inv, Effect, Enabled, Takes, GivesBack;
    if run != [] {
      Advance(cfg, s, run[0]);
      CountRun(cfg, Step(cfg, s, run[0]), run[1..]);
      CountStep(cfg, s.sh, PcOf(s, run[0].t), run[0].a);
    }
  }

  // Since any moment at which the pool was full, every slot is occupied if and
  // only if all slots given back were taken again.
  lemma FullSinceIff(cfg: Setup, s: State, run: seq<Event>)
    requires Reachable(cfg, s) && IsRun(cfg, s, run) && s.sh.pool.count >= cfg.pool.maxSize
    requires var end := After(cfg, s, run); !end.sh.pool.closed && end.sh.pool.idle == []
    ensures |Occupants(After(cfg, s, run))| == cfg.pool.maxSize + Net(cfg, s, run)
    ensures |Occupants(After(cfg, s, run))| == cfg.pool.maxSize <==> Net(cfg, s, run) == 0
  {
    ReachableInv(cfg, s);
    hide Inv, Reachable, Occupants;
    InvRun(cfg, s, run);
    CountRun(cfg, s, run);
    CountCapped(cfg, s);
    SlotsOccupied(cfg, After(cfg, s, run));
  }

  lemma CountCapped(cfg: Setup, s: State)
    requires Inv(cfg, s) && !s.sh.pool.closed
    ensures s.sh.pool.count <= cfg.pool.maxSize
  {
  }

  // ---- the Reserve that made a worker wait ----

  lemma OnlyRefusalWaits(cfg: Setup, sh: Shared, pc: Pc, a: Action)
    requires Enabled(cfg, sh, pc, a) && pc != Acquiring(Waiting)
    requires Effect(cfg, sh, pc, a).1 == Acquiring(Waiting)
    ensures a == A(Reserve) && Effect(cfg, sh, pc, a).0 == sh && sh.pool.count >= cfg.pool.maxSize
  {
  }

  // A worker that waits has had a Reserve refused: event k - 1 of the run.
  lemma {:induction false} WaitBegan(cfg: Setup, s: State, run: seq<Event>, waiter: Tid) returns (k: nat)
    requires IsRun(cfg, s, run) && PcOf(s, waiter) != Acquiring(Waiting)
    requires PcOf(After(cfg, s, run), waiter) == Acquiring(Waiting)
    ensures 0 < k <= |run| && run[k - 1] == Event(waiter, A(Reserve))
    ensures IsRun(cfg, s, run[..k]) && IsRun(cfg, After(cfg, s, run[..k]), run[k..])
    ensures After(cfg, After(cfg, s, run[..k]), run[k..]) == After(cfg, s, run)
    ensures After(cfg, s, run[..k]).sh.pool.count >= cfg.pool.maxSize
    decreases |run|
  {
    hide Effect, Enabled;
    var e, s' := run[0], Step(cfg, s, run[0]);
    if PcOf(s', waiter) == Acquiring(Waiting) {
      OnlyRefusalWaits(cfg, s.sh, PcOf(s, waiter), e.a);
      k := 1;
      assert run[..1] == [e] && After(cfg, s, [e]) == s';
    } else {
      k := WaitBegan(cfg, s', run[1..], waiter);
      k := k + 1;
      assert run[..k][1..] == run[1..][..k - 1] && run[k..] == run[1..][k - 1..];
    }
  }

  lemma WaiterHasNone(s: State, waiter: Tid)
    requires PcOf(s, waiter) == Acquiring(Waiting)
    ensures waiter !in Occupants(s)
  {
  }

  // A worker waits on an open pool with nothing parked. Every slot is occupied
  // by another thread if and only if, since its Reserve was refused, all slots
  // given back have been taken again.
  lemma OccupiedSinceRefusal(cfg: Setup, s: State, run: seq<Event>, waiter: Tid) returns (k: nat)
    requires Init(cfg, s) && IsRun(cfg, s, run)
    requires var end := After(cfg, s, run);
      !end.sh.pool.closed && end.sh.pool.idle == [] && PcOf(end, waiter) == Acquiring(Waiting)
    ensures 0 < k <= |run| && run[k - 1] == Event(waiter, A(Reserve))
    ensures IsRun(cfg, s, run[..k]) && IsRun(cfg, After(cfg, s, run[..k]), run[k..])
    ensures After(cfg, After(cfg, s, run[..k]), run[k..]) == After(cfg, s, run)
    ensures var end := After(cfg, s, run);
      && waiter !in Occupants(end)
      && |Occupants(end)| == cfg.pool.maxSize + Net(cfg, After(cfg, s, run[..k]), run[k..])
      && (|Occupants(end)| == cfg.pool.maxSize <==> Net(cfg, After(cfg, s, run[..k]), run[k..]) == 0)
  {
    assert PcOf(s, waiter) != Acquiring(Waiting);
    hide Init, Net, Step, CanStep, Occupants;
    k := WaitBegan(cfg, s, run, waiter);
    assert Reachable(cfg, After(cfg, s, run[..k]));
    hide Reachable, IsRun, After;
    WaiterHasNone(After(cfg, s, run), waiter);
    FullSinceIff(cfg, After(cfg, s, run[..k]), run[k..]);
  }

  // ---- what an occupant can do ----

  // An own next step of a thread that occupies a slot or may come to occupy one;
  // `unused` is an id the runtime may hand out next.
  function NextAction(cfg: Config, p: Pool, pc: Pc, unused: Id): Action {
    match pc
    case Acquiring(Entry) => A(CheckClosed)
    case Acquiring(FastPath) => A(MissIdle)
    case Acquiring(Growing) => A(Reserve)
    case Acquiring(Creating) => A(AcquireAction.Create(unused))
    case Acquiring(Unreserving) => A(Unreserve)
    case Making(c, Starting) => A(Start)
    case Making(c, StartFailed) => A(RemoveUnstarted)
    case Making(c, Registering) => A(Register(c))
    case Serving(c, Acquired) => J(SkipTrack)
    case Serving(c, Tracked) => J(Untrack)
    case Serving(c, Untracked) => J(SkipUntrack)
    case Serving(c, Releasing) => R(Release(c))
    case Parking(c) => R(if |p.idle| < cfg.maxSize then Park(c) else ParkFull)
    case Discarding(c) => R(Deregister)
    case _ => Tick(0)
  }

  lemma NextEnabled(cfg: Setup, sh: Shared, pc: Pc, unused: Id)
    requires (Creates(pc) && unused !in sh.pool.created) || (Live(pc) && pc.c in sh.pool.jobs)
    ensures var a := NextAction(cfg.pool, sh.pool, pc, unused); Enabled(cfg, sh, pc, a) && Benign(a) && !a.Tick?
  {
  }

  // A thread that occupies a slot is never blocked, and need not fail a create
  // to move.
  lemma OccupantsMove(cfg: Setup, s: State, t: Tid)
    requires Inv(cfg, s) && t in Occupants(s)
    ensures exists a: Action :: Benign(a) && !a.Tick? && CanStep(cfg, s, Event(t, a))
  {
    hide PoolOk, Enabled, AccountsOk, NextAction;
    var pc := s.threads[t];
    assert PcOk(cfg, s.sh, pc);
    var unused := UnusedId(s.sh.pool.created);
    NextEnabled(cfg, s.sh, pc, unused);
    assert CanStep(cfg, s, Event(t, NextAction(cfg.pool, s.sh.pool, pc, unused)));
  }

  // How many own steps a thread is away from having parked its container, if it
  // meets no failure on the way.
  function StepsToPark(pc: Pc): nat {
    match pc
    case Acquiring(Entry) => 10
    case Acquiring(FastPath) => 9
    case Acquiring(Growing) => 8
    case Acquiring(Creating) => 7
    case Making(_, Starting) => 6
    case Making(_, Registering) => 5
    case Serving(_, Acquired) => 4
    case Serving(_, Releasing) => 2
    case Serving(_, _) => 3
    case Parking(_) => 1
    case _ => 0
  }

  // The thread has not yet reserved a slot.
  predicate Unreserved(pc: Pc) {
    pc == Acquiring(Entry) || pc == Acquiring(FastPath) || pc == Acquiring(Growing)
  }

  // One more job is not the container's last.
  predicate Reusable(cfg: Config, p: Pool, c: Id) {
    c in p.jobs && !AtLimit(cfg, p.jobs[c] + 1)
  }

  // Nothing keeps the thread from parking a container: the one it serves is
  // registered and will be reused, and one it still has to make will be.
  predicate CanPark(cfg: Config, p: Pool, pc: Pc) {
    && StepsToPark(pc) > 0
    && (pc.Serving? ==> pc.c in p.all && Reusable(cfg, p, pc.c))
    && (!Live(pc) ==> cfg.maxJobs != 1)
    && (Unreserved(pc) ==> p.count < cfg.maxSize)
  }

  lemma ParkProgressAcquire(cfg: Config, p: Pool, pc: Pc, unused: Id)
    requires !p.closed && p.idle == [] && (pc.Acquiring? || pc.Making?)
    requires CanPark(cfg, p, pc) && unused !in p.created
    ensures var a := NextAction(cfg, p, pc, unused);
      && a.A? && CanAcquire(p, pc, a.acq) && Benign(a) && !Enters(a)
      && var (p', pc') := AcquireStep(cfg, p, pc, a.acq);
         !p'.closed && p'.idle == [] && CanPark(cfg, p', pc') && StepsToPark(pc') < StepsToPark(pc)
  {
  }

  lemma ParkProgressHeld(cfg: Setup, sh: Shared, pc: Pc, unused: Id)
    requires cfg.pool.maxSize >= 1 && !sh.pool.closed && sh.pool.idle == [] && (pc.Serving? || pc.Parking?)
    requires CanPark(cfg.pool, sh.pool, pc)
    ensures var a := NextAction(cfg.pool, sh.pool, pc, unused);
      && Enabled(cfg, sh, pc, a) && Benign(a) && !a.Tick? && !Enters(a)
      && var (sh', pc') := Effect(cfg, sh, pc, a);
         && !sh'.pool.closed
         && (if pc.Parking? then sh'.pool.idle == [pc.c]
             else sh'.pool.idle == [] && CanPark(cfg.pool, sh'.pool, pc') && StepsToPark(pc') < StepsToPark(pc))
  {
  }

  lemma ParkProgress(cfg: Setup, sh: Shared, pc: Pc, unused: Id)
    requires cfg.pool.maxSize >= 1 && !sh.pool.closed && sh.pool.idle == []
    requires CanPark(cfg.pool, sh.pool, pc) && unused !in sh.pool.created
    ensures var a := NextAction(cfg.pool, sh.pool, pc, unused);
      && Enabled(cfg, sh, pc, a) && Benign(a) && !a.Tick? && !Enters(a)
      && var (sh', pc') := Effect(cfg, sh, pc, a);
         && !sh'.pool.closed
         && (if pc.Parking? then sh'.pool.idle == [pc.c]
             else sh'.pool.idle == [] && CanPark(cfg.pool, sh'.pool, pc') && StepsToPark(pc') < StepsToPark(pc))
  {
    assert pc.Acquiring? || pc.Making? || pc.Serving? || pc.Parking?;
    hide NextAction, CanPark, AcquireStep, CanAcquire, ReleaseStep, CanRelease, JobStep, CanJob;
    if pc.Acquiring? || pc.Making? {
      ParkProgressAcquire(cfg.pool, sh.pool, pc, unused);
    } else {
      hide Effect, Enabled;
      ParkProgressHeld(cfg, sh, pc, unused);
    }
  }

  // The action starts a new call.
  predicate Enters(a: Action) {
    a == A(Begin) || a == C(CallClose) || a == C(CallEnvClose)
  }

  // The run is made of benign steps of thread t alone, which is in its call already.
  ghost predicate BenignSteps(run: seq<Event>, t: Tid) {
    forall i :: 0 <= i < |run| ==> run[i].t == t && Benign(run[i].a) && !run[i].a.Tick? && !Enters(run[i].a)
  }

  // A thread on its way to park reaches that by its own steps.
  lemma {:induction false} ParksAlone(cfg: Setup, s: State, t: Tid) returns (run: seq<Event>)
    requires cfg.pool.maxSize >= 1 && !s.sh.pool.closed && s.sh.pool.idle == []
    requires CanPark(cfg.pool, s.sh.pool, PcOf(s, t))
    ensures IsRun(cfg, s, run) && BenignSteps(run, t) && |run| <= StepsToPark(PcOf(s, t))
    ensures var end := After(cfg, s, run);
      end.sh.pool.idle != [] && forall u :: u != t ==> PcOf(end, u) == PcOf(s, u)
    decreases StepsToPark(PcOf(s, t))
  {
    var pc := PcOf(s, t);
    var unused := UnusedId(s.sh.pool.created);
    var e := Event(t, NextAction(cfg.pool, s.sh.pool, pc, unused));
    ParkProgress(cfg, s.sh, pc, unused);
    hide Effect, Enabled, NextAction, CanPark;
    var s', rest := Step(cfg, s, e), [];
    if !pc.Parking? {
      rest := ParksAlone(cfg, s', t);
    }
    run := [e] + rest;
    assert run[1..] == rest;
  }

  // ---- runs that give back no slot ----

  // No thread is about to give back a slot of an open pool.
  predicate Calm(p: Pool, pc: Pc) {
    && pc != Acquiring(Unreserving) && !(pc.Making? && pc.make == StartFailed)
    && (!p.closed ==> !pc.Discarding?)
  }

  ghost predicate AllCalm(s: State) {
    && (forall t :: t in s.threads ==> Calm(s.sh.pool, s.threads[t]))
    && (!s.sh.pool.closed ==> Dead(s) == {})
  }

  lemma CalmAcquire(cfg: Config, p: Pool, pc: Pc, a: AcquireAction)
    requires CanAcquire(p, pc, a) && Benign(A(a)) && Calm(p, pc)
    ensures var (p', pc') := AcquireStep(cfg, p, pc, a);
      Calm(p', pc') && p'.closed == p.closed
  {
  }

  lemma CalmRelease(cfg: Config, p: Pool, pc: Pc, a: ReleaseAction)
    requires CanRelease(cfg, p, pc, a) && (a == ParkFull ==> p.closed) && Calm(p, pc) && cfg.maxJobs <= 0
    ensures var (p', pc') := ReleaseStep(cfg, p, pc, a);
      Calm(p', pc') && p'.closed == p.closed
  {
  }

  lemma CalmLocal(cfg: Setup, sh: Shared, pc: Pc, a: Action)
    requires Enabled(cfg, sh, pc, a) && Benign(a) && cfg.pool.maxJobs <= 0
    requires Calm(sh.pool, pc) && (a == R(ParkFull) ==> sh.pool.closed)
    ensures var (sh', pc') := Effect(cfg, sh, pc, a);
      Calm(sh'.pool, pc') && (sh.pool.closed ==> sh'.pool.closed)
  {
    hide AcquireStep, ReleaseStep;
    match a
    case A(a) => CalmAcquire(cfg.pool, sh.pool, pc, a);
    case R(a) => CalmRelease(cfg.pool, sh.pool, pc, a);
    case _ =>
  }

  ghost predicate AllBenign(run: seq<Event>) {
    forall i :: 0 <= i < |run| ==> Benign(run[i].a)
  }

  // An open pool with nothing dead on the shelf has room for every Park.
  lemma RoomToPark(cfg: Setup, s: State, t: Tid)
    requires Inv(cfg, s) && AllCalm(s) && !s.sh.pool.closed && PcOf(s, t).Parking?
    ensures |s.sh.pool.idle| < cfg.pool.maxSize
  {
    hide PoolOk, PcOk, AccountsOk, Dead;
    OpenShelf(cfg, s);
    assert t in ParkingThreads(s.threads);
  }

  lemma CalmStep(cfg: Setup, s: State, e: Event)
    requires Inv(cfg, s) && AllCalm(s) && CanStep(cfg, s, e) && Benign(e.a) && cfg.pool.maxJobs <= 0
    ensures AllCalm(Step(cfg, s, e))
  {
    var s', pc := Step(cfg, s, e), PcOf(s, e.t);
    if e.a == R(ParkFull) && !s.sh.pool.closed {
      RoomToPark(cfg, s, e.t);
    }
    hide Inv, Effect, Dead;
    CalmLocal(cfg, s.sh, pc, e.a);
    if !s'.sh.pool.closed {
      forall c ensures c !in Dead(s') {
        DeadStep(cfg, s, e, c);
      }
      assert Dead(s') == {};
    }
  }

  lemma {:induction false} CalmRun(cfg: Setup, s: State, run: seq<Event>)
    requires Inv(cfg, s) && AllCalm(s) && IsRun(cfg, s, run) && AllBenign(run) && cfg.pool.maxJobs <= 0
    ensures Inv(cfg, After(cfg, s, run)) && AllCalm(After(cfg, s, run))
    decreases |run|
  {
    hide Inv, Effect, Enabled, AllCalm;
    if run != [] {
      assert Benign(run[0].a);
      CalmStep(cfg, s, run[0]);
      InvStep(cfg, s, run[0]);
      CalmRun(cfg, Step(cfg, s, run[0]), run[1..]);
    }
  }

  // A calm run gives back no slot as long as the pool is open.
  lemma {:induction false} CalmNet(cfg: Setup, s: State, run: seq<Event>)
    requires Inv(cfg, s) && AllCalm(s) && IsRun(cfg, s, run) && AllBenign(run) && cfg.pool.maxJobs <= 0
    requires !After(cfg, s, run).sh.pool.closed
    ensures Net(cfg, s, run) >= 0
    decreases |run|
  {
    CountRun(cfg, s, run);
    hide Inv, Effect, Enabled, Takes, Dead;
    if run != [] {
      var e := run[0];
      assert Benign(e.a);
      CalmGives(cfg, s.sh, PcOf(s, e.t), e.a);
      hide AllCalm, GivesBack;
      CalmStep(cfg, s, e);
      InvStep(cfg, s, e);
      CalmNet(cfg, Step(cfg, s, e), run[1..]);
    }
  }

  lemma CalmGives(cfg: Setup, sh: Shared, pc: Pc, a: Action)
    requires Enabled(cfg, sh, pc, a) && Benign(a) && Calm(sh.pool, pc) && !sh.pool.closed
    ensures !GivesBack(sh.pool, pc, a)
  {
  }

  // When containers are not recycled or reaped and creates succeed, a worker
  // waits on an open pool with nothing parked only while exactly MaxSize other
  // threads occupy the slots; and each of them can, by at most seven benign
  // steps of its own, end the wait.
  lemma NoLostWakeup(cfg: Setup, s: State, run: seq<Event>, waiter: Tid)
    requires Init(cfg, s) && IsRun(cfg, s, run) && AllBenign(run) && cfg.pool.maxJobs <= 0
    requires var end := After(cfg, s, run);
      !end.sh.pool.closed && end.sh.pool.idle == [] && PcOf(end, waiter) == Acquiring(Waiting)
    ensures var end := After(cfg, s, run);
      && |Occupants(end)| == cfg.pool.maxSize && waiter !in Occupants(end)
      && forall t :: t in Occupants(end) ==> exists steps :: EndsWait(cfg, end, t, waiter, steps)
  {
    var k := OccupiedSinceRefusal(cfg, s, run, waiter);
    var mid, end := After(cfg, s, run[..k]), After(cfg, s, run);
    InitClean(cfg, s);
    assert AllCalm(s) && AllBenign(run[..k]) && AllBenign(run[k..]) && cfg.pool.maxSize >= 1;
    hide Inv, Init, Net, Occupants, AllCalm, AllBenign, Step, CanStep, EndsWait;
    CalmRun(cfg, s, run[..k]);
    CalmNet(cfg, mid, run[k..]);
    CalmRun(cfg, mid, run[k..]);
    SlotsOccupied(cfg, end);
    CountCapped(cfg, end);
    forall t | t in Occupants(end) ensures exists steps :: EndsWait(cfg, end, t, waiter, steps) {
      var steps := OccupantEndsWait(cfg, end, t, waiter);
    }
  }

  // The benign steps, at most seven and all of thread t, after which the waiter
  // can take a container.
  ghost predicate EndsWait(cfg: Setup, s: State, t: Tid, waiter: Tid, steps: seq<Event>) {
    && IsRun(cfg, s, steps) && BenignSteps(steps, t) && |steps| <= 7
    && exists c :: CanStep(cfg, After(cfg, s, steps), Event(waiter, A(TakeIdle(c))))
  }

  lemma OccupantEndsWait(cfg: Setup, s: State, t: Tid, waiter: Tid) returns (steps: seq<Event>)
    requires Inv(cfg, s) && AllCalm(s) && cfg.pool.maxSize >= 1 && cfg.pool.maxJobs <= 0
    requires !s.sh.pool.closed && s.sh.pool.idle == [] && t in Occupants(s)
    requires PcOf(s, waiter) == Acquiring(Waiting)
    ensures EndsWait(cfg, s, t, waiter, steps)
  {
    hide Inv, CanStep, Step, CanPark, AllCalm, Occupants, StepsToPark;
    OccupantCanPark(cfg, s, t, waiter);
    steps := ParksAlone(cfg, s, t);
    CanTake(cfg, After(cfg, s, steps), waiter);
  }

  lemma OccupantCanPark(cfg: Setup, s: State, t: Tid, waiter: Tid)
    requires Inv(cfg, s) && AllCalm(s) && !s.sh.pool.closed && t in Occupants(s) && cfg.pool.maxJobs <= 0
    requires PcOf(s, waiter) == Acquiring(Waiting)
    ensures CanPark(cfg.pool, s.sh.pool, PcOf(s, t)) && StepsToPark(PcOf(s, t)) <= 7 && t != waiter
  {
    hide PoolOk, AccountsOk, CapacityOk;
    assert PcOk(cfg, s.sh, s.threads[t]) && Calm(s.sh.pool, s.threads[t]);
  }

  lemma CanTake(cfg: Setup, s: State, waiter: Tid)
    requires PcOf(s, waiter) == Acquiring(Waiting) && s.sh.pool.idle != []
    ensures exists c :: CanStep(cfg, s, Event(waiter, A(TakeIdle(c))))
  {
    assert CanStep(cfg, s, Event(waiter, A(TakeIdle(s.sh.pool.idle[0]))));
  }

  // Threads inside Acquire, a job or Release.
  predicate IsClient(pc: Pc) { pc.Acquiring? || Holding(pc) || pc.Removing? }

  function Clients(s: State): set<Tid> {
    set t | t in s.threads && IsClient(s.threads[t])
  }

  // With no more clients than slots, a wait on an open pool is over at once.
  lemma WaitIsEnabled(cfg: Setup, s: State, run: seq<Event>, waiter: Tid)
    requires Init(cfg, s) && IsRun(cfg, s, run) && AllBenign(run) && cfg.pool.maxJobs <= 0
    requires var end := After(cfg, s, run);
      !end.sh.pool.closed && PcOf(end, waiter) == Acquiring(Waiting) && |Clients(end)| <= cfg.pool.maxSize
    ensures exists c :: CanStep(cfg, After(cfg, s, run), Event(waiter, A(TakeIdle(c))))
  {
    var end := After(cfg, s, run);
    hide Init, CanStep, Occupants, Clients, EndsWait;
    if end.sh.pool.idle == [] {
      NoLostWakeup(cfg, s, run, waiter);
      OccupantsAreClients(end, waiter);
      SubsetSize(Occupants(end) + {waiter}, Clients(end));
      assert false;
    }
    CanTake(cfg, end, waiter);
  }

  lemma OccupantsAreClients(s: State, waiter: Tid)
    requires PcOf(s, waiter) == Acquiring(Waiting)
    ensures Occupants(s) + {waiter} <= Clients(s)
  {
  }
}
