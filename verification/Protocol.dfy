// The pool, the TTL reaper, the job pipeline and the shutdown as one
// concurrent protocol: any number of threads, one action per lock section,
// channel operation or backend call.
module Protocol {
  import opened Prelude
  import opened PoolSpec
  import TtlSpec

  type Tid = nat

  // The reaper's sweep goroutine is a thread of its own.
  const SWEEPER: Tid := 0

  // `directClose` says whether clients may also call the pool's Close
  // themselves, not only through the environment's Close.
  datatype Setup = Setup(pool: Config, directClose: bool)

  datatype Shared = Shared(
    pool: Pool, deadlines: map<Id, int>, clock: int,
    cancelled: bool, reaperDone: bool)

  // ---- where a thread stands: the next thing it does ----

  datatype AcquireStage = Entry | FastPath | Growing | Waiting | Creating | Unreserving
  datatype MakeStage = Starting | StartFailed | Registering
  datatype JobStage = Acquired | Tracked | Untracked | Releasing
  datatype SweepStage =
    | Idle | Collecting(now: int) | Killing(todo: set<Id>)
    | Dropping(c: Id, todo: set<Id>) | Erasing(c: Id, todo: set<Id>)

  datatype Pc =
    | NotStarted
    | Finished
    | Acquiring(acq: AcquireStage)
    | Making(c: Id, make: MakeStage)
    | Serving(c: Id, job: JobStage)
    | Parking(c: Id)
    | Discarding(c: Id)
    | Removing(c: Id)
    | EnvClosing
    | CloseEntry
    | TearingDown(signalled: bool, todo: set<Id>)
    | Sweeper(sweep: SweepStage)

  datatype AcquireAction =
    | Begin | CheckClosed | TakeIdle(c: Id) | MissIdle
    | Reserve | Create(c: Id) | CreateFails | Start | StartFails
    | RemoveUnstarted | Unreserve | Register(c: Id)
    | WakeClosed | WakeCancelled

  datatype JobAction = Track(ttl: int) | SkipTrack | Untrack | SkipUntrack

  datatype ReleaseAction = Release(c: Id) | Park(c: Id) | ParkFull | Deregister | Remove

  datatype CloseAction =
    | CallClose | CallEnvClose | ReaperWaited
    | CloseLock | CloseDone | CloseRemove(c: Id) | CloseReturn

  datatype SweepAction =
    | ReadClock | Collect | Lookup(c: Id) | Drop(c: Id) | Erase | Return | Exit

  datatype Action =
    | Tick(d: nat)
    | A(acq: AcquireAction)
    | J(job: JobAction)
    | R(rel: ReleaseAction)
    | C(cls: CloseAction)
    | S(swp: SweepAction)

  // ---- Acquire, grow and create (internal/pool/pool.go) ----

  predicate CanAcquire(p: Pool, pc: Pc, a: AcquireAction) {
    match a
    case Begin => pc == NotStarted
    case CheckClosed => pc == Acquiring(Entry)
    case TakeIdle(c) => (pc == Acquiring(FastPath) || pc == Acquiring(Waiting)) && p.idle != [] && p.idle[0] == c
    case MissIdle => pc == Acquiring(FastPath) && p.idle == []
    case Reserve => pc == Acquiring(Growing)
    case Create(c) => pc == Acquiring(Creating) && c !in p.created
    case CreateFails => pc == Acquiring(Creating)
    case Start => pc.Making? && pc.make == Starting
    case StartFails => pc.Making? && pc.make == Starting
    case RemoveUnstarted => pc.Making? && pc.make == StartFailed
    case Unreserve => pc == Acquiring(Unreserving)
    case Register(c) => pc == Making(c, Registering)
    case WakeClosed => pc == Acquiring(Waiting) && p.done
    case WakeCancelled => pc == Acquiring(Waiting)
  }

  function AcquireStep(cfg: Config, p: Pool, pc: Pc, a: AcquireAction): (Pool, Pc)
    requires CanAcquire(p, pc, a)
  {
    match a
    case Begin => (p, Acquiring(Entry))
    case CheckClosed => (p, if p.closed then Finished else Acquiring(FastPath))
    case TakeIdle(c) => (PoolSpec.TakeIdle(p), Serving(c, Acquired))
    case MissIdle => (p, Acquiring(Growing))
    case Reserve =>
      if p.closed then (p, Finished)
      else if p.count >= cfg.maxSize then (p, Acquiring(Waiting))
      else (PoolSpec.Reserve(p), Acquiring(Creating))
    case Create(c) => (PoolSpec.Create(p, c), Making(c, Starting))
    case CreateFails => (p, Acquiring(Unreserving))
    case Start => (p, Making(pc.c, Registering))
    case StartFails => (p, Making(pc.c, StartFailed))
    case RemoveUnstarted => (PoolSpec.Remove(p, pc.c), Acquiring(Unreserving))
    case Unreserve => (PoolSpec.Unreserve(p), Finished)
    case Register(c) => (PoolSpec.Register(p, c), Serving(c, Acquired))
    case WakeClosed => (p, Finished)
    case WakeCancelled => (p, Finished)
  }

  // ---- the job between Acquire and Release (internal/pipeline/pipeline.go) ----

  predicate CanJob(pc: Pc, a: JobAction) {
    && pc.Serving?
    && match a
       case Track(_) => pc.job == Acquired
       case SkipTrack => pc.job == Acquired
       case Untrack => pc.job == Tracked
       case SkipUntrack => pc.job == Untracked
  }

  function JobStep(deadlines: map<Id, int>, clock: int, pc: Pc, a: JobAction): (map<Id, int>, Pc)
    requires CanJob(pc, a)
  {
    match a
    case Track(ttl) => (deadlines[pc.c := clock + ttl], Serving(pc.c, Tracked))
    case SkipTrack => (deadlines, Serving(pc.c, Untracked))
    case Untrack => (deadlines - {pc.c}, Serving(pc.c, Releasing))
    case SkipUntrack => (deadlines, Serving(pc.c, Releasing))
  }

  // ---- Release and discard (internal/pool/pool.go) ----

  predicate CanRelease(cfg: Config, p: Pool, pc: Pc, a: ReleaseAction) {
    match a
    case Release(c) => pc == Serving(c, Releasing) && c in p.jobs
    case Park(c) => pc == Parking(c) && |p.idle| < cfg.maxSize
    case ParkFull => pc.Parking? && |p.idle| >= cfg.maxSize
    case Deregister => pc.Discarding?
    case Remove => pc.Removing?
  }

  function ReleaseStep(cfg: Config, p: Pool, pc: Pc, a: ReleaseAction): (Pool, Pc)
    requires CanRelease(cfg, p, pc, a)
  {
    match a
    case Release(c) =>
      var p' := CountJob(p, c);
      (p', if c !in p.all then Finished
           else if p.closed || AtLimit(cfg, p'.jobs[c]) then Discarding(c)
           else Parking(c))
    case Park(c) => (PoolSpec.Park(p, c), Finished)
    case ParkFull => (p, Discarding(pc.c))
    case Deregister => (PoolSpec.Deregister(p, pc.c), Removing(pc.c))
    case Remove => (PoolSpec.Remove(p, pc.c), Finished)
  }

  // ---- the environment's and the pool's Close ----

  predicate CanClose(cfg: Setup, sh: Shared, pc: Pc, a: CloseAction) {
    match a
    case CallClose => pc == NotStarted && cfg.directClose
    case CallEnvClose => pc == NotStarted
    case ReaperWaited => pc == EnvClosing && sh.reaperDone
    case CloseLock => pc == CloseEntry
    case CloseDone => pc.TearingDown? && !pc.signalled
    case CloseRemove(c) => pc.TearingDown? && pc.signalled && c in pc.todo
    case CloseReturn => pc == TearingDown(true, {})
  }

  function CloseStep(cfg: Setup, sh: Shared, pc: Pc, a: CloseAction): (Shared, Pc)
    requires CanClose(cfg, sh, pc, a)
  {
    var p := sh.pool;
    match a
    case CallClose => (sh, CloseEntry)
    case CallEnvClose => (sh.(cancelled := true), EnvClosing)
    case ReaperWaited => (sh, CloseEntry)
    case CloseLock =>
      if p.closed then (sh, Finished)
      else (sh.(pool := CloseOff(p)), TearingDown(false, p.all))
    case CloseDone => (sh.(pool := Signal(p)), TearingDown(true, pc.todo))
    case CloseRemove(c) => (sh.(pool := PoolSpec.Remove(p, c)), TearingDown(true, pc.todo - {c}))
    case CloseReturn => (sh, Finished)
  }

  // ---- the sweep loop (internal/ttl/manager.go), killing through RemoveByID ----

  predicate CanSweep(sh: Shared, pc: Pc, a: SweepAction) {
    && pc.Sweeper?
    && match a
       case ReadClock => pc.sweep.Idle?
       case Collect => pc.sweep.Collecting?
       case Lookup(c) => pc.sweep.Killing? && c in pc.sweep.todo
       case Drop(c) => pc.sweep.Dropping? && pc.sweep.c == c
       case Erase => pc.sweep.Erasing?
       case Return => pc.sweep == Killing({})
       case Exit => pc.sweep.Idle? && sh.cancelled
  }

  function SweepStep(sh: Shared, pc: Pc, a: SweepAction): (Shared, Pc)
    requires CanSweep(sh, pc, a)
  {
    var p := sh.pool;
    match a
    case ReadClock => (sh, Sweeper(Collecting(sh.clock)))
    case Collect =>
      var expired := TtlSpec.Expired(sh.deadlines, pc.sweep.now);
      (sh.(deadlines := sh.deadlines - expired), Sweeper(Killing(expired)))
    case Lookup(c) =>
      var rest := pc.sweep.todo - {c};
      (sh, Sweeper(if c in p.all then Dropping(c, rest) else Killing(rest)))
    case Drop(c) => (sh.(pool := PoolSpec.Deregister(p, c)), Sweeper(Erasing(c, pc.sweep.todo)))
    case Erase => (sh.(pool := PoolSpec.Remove(p, pc.sweep.c)), Sweeper(Killing(pc.sweep.todo)))
    case Return => (sh, Sweeper(Idle))
    case Exit => (sh.(reaperDone := true), Finished)
  }

  // ---- one action of one thread ----

  predicate Enabled(cfg: Setup, sh: Shared, pc: Pc, a: Action) {
    match a
    case Tick(_) => true
    case A(a) => CanAcquire(sh.pool, pc, a)
    case J(a) => CanJob(pc, a)
    case R(a) => CanRelease(cfg.pool, sh.pool, pc, a)
    case C(a) => CanClose(cfg, sh, pc, a)
    case S(a) => CanSweep(sh, pc, a)
  }

  function Effect(cfg: Setup, sh: Shared, pc: Pc, a: Action): (Shared, Pc)
    requires Enabled(cfg, sh, pc, a)
  {
    match a
    case Tick(d) => (sh.(clock := sh.clock + d), pc)
    case A(a) => var (p, pc') := AcquireStep(cfg.pool, sh.pool, pc, a); (sh.(pool := p), pc')
    case J(a) => var (ds, pc') := JobStep(sh.deadlines, sh.clock, pc, a); (sh.(deadlines := ds), pc')
    case R(a) => var (p, pc') := ReleaseStep(cfg.pool, sh.pool, pc, a); (sh.(pool := p), pc')
    case C(a) => CloseStep(cfg, sh, pc, a)
    case S(a) => SweepStep(sh, pc, a)
  }

  // ---- the whole system ----

  // The shared memory and every thread that has started.
  datatype State = State(sh: Shared, threads: map<Tid, Pc>)

  datatype Event = Event(t: Tid, a: Action)

  function PcOf(s: State, t: Tid): Pc {
    if t in s.threads then s.threads[t] else NotStarted
  }

  predicate CanStep(cfg: Setup, s: State, e: Event) {
    Enabled(cfg, s.sh, PcOf(s, e.t), e.a)
  }

  function Step(cfg: Setup, s: State, e: Event): State
    requires CanStep(cfg, s, e)
  {
    var (sh, pc) := Effect(cfg, s.sh, PcOf(s, e.t), e.a);
    State(sh, s.threads[e.t := pc])
  }

  // The state of a pool that New has just built and pre-warmed.
  ghost predicate Prewarmed(cfg: Config, p: Pool) {
    && ValidConfig(cfg)
    && NoDuplicates(p.idle)
    && |p.idle| == (if cfg.minWarm > 0 then cfg.minWarm else 0)
    && p.all == p.created == Elements(p.idle)
    && p.count == |p.idle| && !p.closed && !p.done
    && p.jobs == (map c | c in p.created :: 0)
    && p.removed == {}
  }

  // A fresh environment: a pre-warmed pool and an idle reaper.
  ghost predicate Init(cfg: Setup, s: State) {
    && Prewarmed(cfg.pool, s.sh.pool)
    && s.sh.deadlines == map[] && !s.sh.cancelled && !s.sh.reaperDone
    && s.threads == map[SWEEPER := Sweeper(Idle)]
  }

  // A run is a sequence of events, each enabled where it happens.
  predicate IsRun(cfg: Setup, s: State, run: seq<Event>)
    decreases |run|
  {
    run == [] || (CanStep(cfg, s, run[0]) && IsRun(cfg, Step(cfg, s, run[0]), run[1..]))
  }

  function After(cfg: Setup, s: State, run: seq<Event>): State
    requires IsRun(cfg, s, run)
    decreases |run|
  {
    if run == [] then s else After(cfg, Step(cfg, s, run[0]), run[1..])
  }
}
