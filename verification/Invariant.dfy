// The inductive invariant of the protocol. Each action is checked once against
// the thread that takes it and once against an arbitrary other thread; the
// whole-system invariant follows for any number of threads.
module Invariant {
  import opened Prelude
  import opened PoolSpec
  import opened Protocol

  // The thread holds a container that is, or has been, in the registry.
  predicate Live(pc: Pc) { pc.Serving? || pc.Parking? || pc.Discarding? }

  // The thread holds a container, registered or still being made.
  predicate Holding(pc: Pc) { pc.Making? || Live(pc) }

  predicate Holds(pc: Pc, c: Id) { Holding(pc) && pc.c == c }

  // A slot reserved for a create that has neither registered nor given it back.
  predicate Creates(pc: Pc) { pc.Making? || pc == Acquiring(Creating) || pc == Acquiring(Unreserving) }

  // The ids the thread still has to call Remove on.
  function Owed(pc: Pc): set<Id> {
    if pc.Removing? then {pc.c}
    else if pc.TearingDown? then pc.todo
    else if pc.Sweeper? && pc.sweep.Erasing? then {pc.sweep.c}
    else {}
  }

  // Two threads never hold the same container, and there is one sweeper.
  predicate Compatible(pc: Pc, other: Pc) {
    && (Holding(pc) && Holding(other) ==> pc.c != other.c)
    && !(pc.Sweeper? && other.Sweeper?)
  }

  predicate MayServe(cfg: Config, p: Pool, c: Id) {
    c in p.jobs && !AtLimit(cfg, p.jobs[c])
  }

  // What a thread standing at pc may rely on in the pool.
  predicate PoolView(cfg: Config, p: Pool, pc: Pc) {
    && (pc.Making? ==> pc.c in p.created && pc.c !in p.jobs && pc.c !in p.removed)
    && (Live(pc) ==> pc.c in p.jobs && pc.c !in p.idle)
    && (pc.Serving? || pc.Parking? ==> MayServe(cfg, p, pc.c))
    && (pc.Parking? && p.closed ==> pc.c !in p.all)
    && Owed(pc) <= p.jobs.Keys && Owed(pc) !! p.all
    && (pc.TearingDown? ==> p.closed)
    && (pc.Sweeper? && pc.sweep.Dropping? ==> pc.sweep.c in p.jobs)
  }

  predicate PcOk(cfg: Setup, sh: Shared, pc: Pc) {
    && PoolView(cfg.pool, sh.pool, pc)
    && (pc.CloseEntry? && !cfg.directClose ==> sh.reaperDone)
    && (pc.Sweeper? ==> !sh.reaperDone)
  }

  ghost predicate PoolOk(cfg: Config, p: Pool) {
    && p.all <= p.jobs.Keys && p.jobs.Keys <= p.created && p.removed <= p.created
    && p.all !! p.removed
    && NoDuplicates(p.idle)
    && (forall c :: c in p.idle ==> MayServe(cfg, p, c))
    && (forall c :: c in p.jobs && cfg.maxJobs > 0 ==> p.jobs[c] <= cfg.maxJobs)
    && (p.closed ==> forall c :: c in p.idle ==> c !in p.all)
    && (p.done ==> p.closed)
    && (if p.closed then p.count <= 0 else p.count <= cfg.maxSize)
  }

  ghost predicate SharedOk(cfg: Setup, sh: Shared) {
    && PoolOk(cfg.pool, sh.pool)
    && sh.deadlines.Keys <= sh.pool.jobs.Keys
    && (sh.pool.closed && !cfg.directClose ==> sh.reaperDone)
  }

  // ---- one action and its own thread ----

  lemma IdleTail(s: seq<Id>)
    requires s != [] && NoDuplicates(s)
    ensures s[0] in s && s[0] !in s[1..] && NoDuplicates(s[1..])
    ensures forall c :: c in s[1..] ==> c in s
  {
  }

  // The invariant of the shared memory together with one thread.
  ghost predicate LocalOk(cfg: Setup, sh: Shared, pc: Pc) {
    SharedOk(cfg, sh) && PcOk(cfg, sh, pc)
  }

  // The actions of Acquire that move a container.
  lemma TransferOk(cfg: Setup, sh: Shared, pc: Pc, a: AcquireAction)
    requires LocalOk(cfg, sh, pc) && CanAcquire(sh.pool, pc, a)
    requires a.TakeIdle? || a.Create? || a.RemoveUnstarted? || a.Register?
    ensures var (p, pc') := AcquireStep(cfg.pool, sh.pool, pc, a); LocalOk(cfg, sh.(pool := p), pc')
  {
    if a.TakeIdle? {
      IdleTail(sh.pool.idle);
    }
  }

  lemma AcquireOk(cfg: Setup, sh: Shared, pc: Pc, a: AcquireAction)
    requires LocalOk(cfg, sh, pc) && CanAcquire(sh.pool, pc, a)
    ensures var (p, pc') := AcquireStep(cfg.pool, sh.pool, pc, a); LocalOk(cfg, sh.(pool := p), pc')
  {
    hide PoolSpec.TakeIdle, PoolSpec.Create, PoolSpec.Remove, PoolSpec.Register;
    if a.TakeIdle? || a.Create? || a.RemoveUnstarted? || a.Register? {
      TransferOk(cfg, sh, pc, a);
    }
  }

  lemma JobOk(cfg: Setup, sh: Shared, pc: Pc, a: JobAction)
    requires LocalOk(cfg, sh, pc) && CanJob(pc, a)
    ensures var (ds, pc') := JobStep(sh.deadlines, sh.clock, pc, a); LocalOk(cfg, sh.(deadlines := ds), pc')
  {
  }

  lemma ReleaseOk(cfg: Setup, sh: Shared, pc: Pc, a: ReleaseAction)
    requires LocalOk(cfg, sh, pc) && CanRelease(cfg.pool, sh.pool, pc, a)
    ensures var (p, pc') := ReleaseStep(cfg.pool, sh.pool, pc, a); LocalOk(cfg, sh.(pool := p), pc')
  {
  }

  lemma CloseOk(cfg: Setup, sh: Shared, pc: Pc, a: CloseAction)
    requires LocalOk(cfg, sh, pc) && CanClose(cfg, sh, pc, a)
    ensures var (sh', pc') := CloseStep(cfg, sh, pc, a); LocalOk(cfg, sh', pc')
  {
  }

  lemma SweepOk(cfg: Setup, sh: Shared, pc: Pc, a: SweepAction)
    requires LocalOk(cfg, sh, pc) && CanSweep(sh, pc, a)
    ensures var (sh', pc') := SweepStep(sh, pc, a); LocalOk(cfg, sh', pc')
  {
  }

  lemma OwnStep(cfg: Setup, sh: Shared, pc: Pc, a: Action)
    requires LocalOk(cfg, sh, pc) && Enabled(cfg, sh, pc, a)
    ensures LocalOk(cfg, Effect(cfg, sh, pc, a).0, Effect(cfg, sh, pc, a).1)
  {
    hide AcquireStep, JobStep, ReleaseStep, CloseStep, SweepStep;
    hide CanAcquire, CanJob, CanRelease, CanClose, CanSweep;
    match a
    case Tick(_) =>
    case A(a) => AcquireOk(cfg, sh, pc, a);
    case J(a) => JobOk(cfg, sh, pc, a);
    case R(a) => ReleaseOk(cfg, sh, pc, a);
    case C(a) => CloseOk(cfg, sh, pc, a);
    case S(a) => SweepOk(cfg, sh, pc, a);
  }

  // ---- one action and another thread ----

  // What an action leaves alone about a container its thread does not hold.
  ghost predicate Keeps(p: Pool, p': Pool, c: Id) {
    && p.jobs.Keys <= p'.jobs.Keys && p.created <= p'.created
    && p'.all * p.jobs.Keys <= p.all
    && (p.closed ==> p'.closed) && (p'.closed && !p.closed ==> p'.all == {})
    && (c in p.jobs ==> p'.jobs[c] == p.jobs[c])
    && (c in p.created && c !in p.idle ==> c !in p'.idle)
    && (c in p.created && c !in p.jobs ==> c !in p'.jobs && (c !in p.removed ==> c !in p'.removed))
  }

  lemma KeepsAcquire(cfg: Setup, sh: Shared, pc: Pc, a: AcquireAction, c: Id)
    requires LocalOk(cfg, sh, pc) && CanAcquire(sh.pool, pc, a) && !Holds(pc, c)
    ensures Keeps(sh.pool, AcquireStep(cfg.pool, sh.pool, pc, a).0, c)
  {
  }

  lemma KeepsRelease(cfg: Setup, sh: Shared, pc: Pc, a: ReleaseAction, c: Id)
    requires LocalOk(cfg, sh, pc) && CanRelease(cfg.pool, sh.pool, pc, a) && !Holds(pc, c)
    ensures Keeps(sh.pool, ReleaseStep(cfg.pool, sh.pool, pc, a).0, c)
  {
  }

  lemma KeepsClose(cfg: Setup, sh: Shared, pc: Pc, a: CloseAction, c: Id)
    requires LocalOk(cfg, sh, pc) && CanClose(cfg, sh, pc, a)
    ensures Keeps(sh.pool, CloseStep(cfg, sh, pc, a).0.pool, c)
    ensures CloseStep(cfg, sh, pc, a).0.reaperDone == sh.reaperDone
  {
  }

  lemma KeepsSweep(cfg: Setup, sh: Shared, pc: Pc, a: SweepAction, c: Id)
    requires LocalOk(cfg, sh, pc) && CanSweep(sh, pc, a)
    ensures Keeps(sh.pool, SweepStep(sh, pc, a).0.pool, c)
    ensures pc.Sweeper? && (sh.reaperDone ==> SweepStep(sh, pc, a).0.reaperDone)
  {
  }

  lemma Guarantee(cfg: Setup, sh: Shared, pc: Pc, a: Action, c: Id)
    requires LocalOk(cfg, sh, pc) && Enabled(cfg, sh, pc, a) && !Holds(pc, c)
    ensures Keeps(sh.pool, Effect(cfg, sh, pc, a).0.pool, c)
    ensures var (sh', pc') := Effect(cfg, sh, pc, a);
      && (sh.reaperDone ==> sh'.reaperDone)
      && (sh'.reaperDone && !sh.reaperDone ==> pc.Sweeper?)
  {
    hide AcquireStep, ReleaseStep, CloseStep, SweepStep, CanAcquire, CanRelease, CanClose, CanSweep;
    match a
    case A(a) => KeepsAcquire(cfg, sh, pc, a, c);
    case R(a) => KeepsRelease(cfg, sh, pc, a, c);
    case C(a) => KeepsClose(cfg, sh, pc, a, c);
    case S(a) => KeepsSweep(cfg, sh, pc, a, c);
    case _ =>
  }

  lemma Stable(cfg: Setup, sh: Shared, sh': Shared, other: Pc, c: Id)
    requires SharedOk(cfg, sh) && PcOk(cfg, sh, other)
    requires Keeps(sh.pool, sh'.pool, c) && (Holding(other) ==> c == other.c)
    requires sh.reaperDone ==> sh'.reaperDone
    requires other.Sweeper? ==> !sh'.reaperDone
    ensures PcOk(cfg, sh', other)
  {
  }

  lemma OtherStep(cfg: Setup, sh: Shared, pc: Pc, a: Action, other: Pc)
    requires LocalOk(cfg, sh, pc) && Enabled(cfg, sh, pc, a)
    requires PcOk(cfg, sh, other) && Compatible(pc, other)
    ensures PcOk(cfg, Effect(cfg, sh, pc, a).0, other)
  {
    hide Effect, Enabled;
    var c := if Holding(other) then other.c else if Holding(pc) then pc.c + 1 else 0;
    Guarantee(cfg, sh, pc, a, c);
    Stable(cfg, sh, Effect(cfg, sh, pc, a).0, other, c);
  }

  lemma NewTokenAcquire(cfg: Config, p: Pool, pc: Pc, a: AcquireAction)
    requires CanAcquire(p, pc, a)
    ensures var pc' := AcquireStep(cfg, p, pc, a).1;
      !pc'.Sweeper? && (Holding(pc') ==> Holds(pc, pc'.c) || pc'.c !in p.created || pc'.c in p.idle)
  {
  }

  // A thread gets a container it did not hold only from the runtime or from `idle`.
  lemma NewToken(cfg: Setup, sh: Shared, pc: Pc, a: Action)
    requires Enabled(cfg, sh, pc, a)
    ensures var (sh', pc') := Effect(cfg, sh, pc, a);
      && (pc'.Sweeper? ==> pc.Sweeper?)
      && (Holding(pc') ==> Holds(pc, pc'.c) || pc'.c !in sh.pool.created || pc'.c in sh.pool.idle)
  {
    hide AcquireStep, CanAcquire;
    match a
    case A(a) => NewTokenAcquire(cfg.pool, sh.pool, pc, a);
    case _ =>
  }

  lemma OtherCompatible(cfg: Setup, sh: Shared, pc: Pc, a: Action, other: Pc)
    requires LocalOk(cfg, sh, pc) && Enabled(cfg, sh, pc, a)
    requires PcOk(cfg, sh, other) && Compatible(pc, other)
    ensures Compatible(Effect(cfg, sh, pc, a).1, other)
  {
    hide Effect, Enabled;
    NewToken(cfg, sh, pc, a);
  }

  // ---- which thread answers for a container ----

  predicate LiveIn(threads: map<Tid, Pc>, c: Id) {
    exists t :: t in threads && Live(threads[t]) && threads[t].c == c
  }

  predicate MadeIn(threads: map<Tid, Pc>, c: Id) {
    exists t :: t in threads && threads[t].Making? && threads[t].c == c
  }

  predicate OwedIn(threads: map<Tid, Pc>, c: Id) {
    exists t :: t in threads && c in Owed(threads[t])
  }

  predicate TrackedIn(threads: map<Tid, Pc>, c: Id) {
    exists t :: t in threads && threads[t] == Serving(c, Tracked)
  }

  // The pool itself, or this thread, answers for registered container c.
  predicate Places(p: Pool, pc: Pc, c: Id) {
    c in p.idle || (Live(pc) && pc.c == c)
  }

  // The pool itself, or this thread, answers for created container c.
  predicate Accounts(p: Pool, pc: Pc, c: Id) {
    c in p.all || c in p.removed || (pc.Making? && pc.c == c) || c in Owed(pc)
  }

  lemma HandOverAcquire(cfg: Config, p: Pool, pc: Pc, a: AcquireAction, c: Id)
    requires CanAcquire(p, pc, a)
    ensures var (p', pc') := AcquireStep(cfg, p, pc, a);
      && (c in p'.all ==> Places(p', pc', c) || (c in p.all && !Places(p, pc, c)))
      && (c in p'.created ==> Accounts(p', pc', c) || (c in p.created && !Accounts(p, pc, c)))
  {
    if a.TakeIdle? {
      assert p.idle == [p.idle[0]] + p.idle[1..];
    }
  }

  lemma HandOverRelease(cfg: Config, p: Pool, pc: Pc, a: ReleaseAction, c: Id)
    requires CanRelease(cfg, p, pc, a)
    ensures var (p', pc') := ReleaseStep(cfg, p, pc, a);
      && (c in p'.all ==> Places(p', pc', c) || (c in p.all && !Places(p, pc, c)))
      && (c in p'.created ==> Accounts(p', pc', c) || (c in p.created && !Accounts(p, pc, c)))
  {
  }

  lemma HandOverSweep(sh: Shared, pc: Pc, a: SweepAction, c: Id)
    requires CanSweep(sh, pc, a)
    ensures var (sh', pc') := SweepStep(sh, pc, a); var p, p' := sh.pool, sh'.pool;
      && (c in p'.all ==> Places(p', pc', c) || (c in p.all && !Places(p, pc, c)))
      && (c in p'.created ==> Accounts(p', pc', c) || (c in p.created && !Accounts(p, pc, c)))
  {
  }

  // Whoever stops answering for a container hands it to the pool or keeps it.
  lemma HandOver(cfg: Setup, sh: Shared, pc: Pc, a: Action, c: Id)
    requires Enabled(cfg, sh, pc, a)
    ensures var (sh', pc') := Effect(cfg, sh, pc, a); var p, p' := sh.pool, sh'.pool;
      && (c in p'.all ==> Places(p', pc', c) || (c in p.all && !Places(p, pc, c)))
      && (c in p'.created ==> Accounts(p', pc', c) || (c in p.created && !Accounts(p, pc, c)))
  {
    hide AcquireStep, ReleaseStep, SweepStep, CanAcquire, CanRelease, CanSweep;
    match a
    case A(a) => HandOverAcquire(cfg.pool, sh.pool, pc, a, c);
    case R(a) => HandOverRelease(cfg.pool, sh.pool, pc, a, c);
    case S(a) => HandOverSweep(sh, pc, a, c);
    case _ =>
  }

  // A container with a deadline is in the hands of a job that has not untracked it.
  lemma TrackedStep(cfg: Setup, sh: Shared, pc: Pc, a: Action, c: Id)
    requires Enabled(cfg, sh, pc, a)
    requires c in Effect(cfg, sh, pc, a).0.deadlines
    ensures var (sh', pc') := Effect(cfg, sh, pc, a);
      pc' == Serving(c, Tracked) || (c in sh.deadlines && pc != Serving(c, Tracked))
  {
  }

  // ---- capacity ----

  function CreatingThreads(threads: map<Tid, Pc>): set<Tid> {
    set t | t in threads && Creates(threads[t])
  }

  // How far the ledger's count lags behind what it accounts for.
  function Drift(s: State): int {
    |s.sh.pool.all| + |CreatingThreads(s.threads)| - s.sh.pool.count
  }

  function One(b: bool): int { if b then 1 else 0 }

  lemma CreatingUpdate(threads: map<Tid, Pc>, t: Tid, pc: Pc)
    ensures |CreatingThreads(threads[t := pc])|
         == |CreatingThreads(threads)| - One(t in threads && Creates(threads[t])) + One(Creates(pc))
  {
    var before, after := CreatingThreads(threads), CreatingThreads(threads[t := pc]);
    assert after == if Creates(pc) then before + {t} else before - {t};
  }

  // The lock section of the Close that takes effect.
  predicate Closes(s: State, e: Event) {
    e.a == C(CloseLock) && !s.sh.pool.closed
  }

  // A slot moves from creating to registered, or is given back; nothing else.
  lemma LedgerAcquire(cfg: Config, p: Pool, pc: Pc, a: AcquireAction)
    requires CanAcquire(p, pc, a) && (pc.Making? ==> pc.c !in p.all)
    ensures var (p', pc') := AcquireStep(cfg, p, pc, a);
      && |p'.all| - p'.count + One(Creates(pc')) == |p.all| - p.count + One(Creates(pc))
      && p'.closed == p.closed
  {
  }

  lemma LedgerRelease(cfg: Config, p: Pool, pc: Pc, a: ReleaseAction)
    requires CanRelease(cfg, p, pc, a)
    ensures var (p', pc') := ReleaseStep(cfg, p, pc, a);
      && |p'.all| - p'.count == |p.all| - p.count && !Creates(pc) && !Creates(pc')
      && p'.closed == p.closed
  {
  }

  lemma LedgerSweep(sh: Shared, pc: Pc, a: SweepAction)
    requires CanSweep(sh, pc, a)
    ensures var (sh', pc') := SweepStep(sh, pc, a);
      && |sh'.pool.all| - sh'.pool.count == |sh.pool.all| - sh.pool.count && !Creates(pc) && !Creates(pc')
      && sh'.pool.closed == sh.pool.closed
  {
  }

  lemma LedgerStep(cfg: Setup, sh: Shared, pc: Pc, a: Action)
    requires Enabled(cfg, sh, pc, a) && (pc.Making? ==> pc.c !in sh.pool.all)
    ensures var (sh', pc') := Effect(cfg, sh, pc, a);
      if a == C(CloseLock) && !sh.pool.closed
      then |sh'.pool.all| == sh'.pool.count == 0 && sh'.pool.closed && !Creates(pc) && !Creates(pc')
      else |sh'.pool.all| - sh'.pool.count + One(Creates(pc')) == |sh.pool.all| - sh.pool.count + One(Creates(pc))
           && sh'.pool.closed == sh.pool.closed
  {
    hide AcquireStep, ReleaseStep, SweepStep, CanAcquire, CanRelease, CanSweep;
    match a
    case A(a) => LedgerAcquire(cfg.pool, sh.pool, pc, a);
    case R(a) => LedgerRelease(cfg.pool, sh.pool, pc, a);
    case S(a) => LedgerSweep(sh, pc, a);
    case _ =>
  }

  lemma DriftStep(cfg: Setup, s: State, e: Event)
    requires LocalOk(cfg, s.sh, PcOf(s, e.t)) && CanStep(cfg, s, e)
    ensures Drift(Step(cfg, s, e)) == if Closes(s, e) then |CreatingThreads(s.threads)| else Drift(s)
    ensures Step(cfg, s, e).sh.pool.closed == (s.sh.pool.closed || Closes(s, e))
  {
    hide Effect, Enabled;
    var pc := PcOf(s, e.t);
    LedgerStep(cfg, s.sh, pc, e.a);
    CreatingUpdate(s.threads, e.t, Effect(cfg, s.sh, pc, e.a).1);
  }

  // ---- the whole system ----

  ghost predicate ThreadsOk(cfg: Setup, s: State) {
    && SharedOk(cfg, s.sh)
    && (forall t :: t in s.threads ==> PcOk(cfg, s.sh, s.threads[t]))
    && (forall t, u :: t in s.threads && u in s.threads && t != u ==> Compatible(s.threads[t], s.threads[u]))
  }

  ghost predicate AccountsOk(s: State) {
    var p := s.sh.pool;
    && (forall c :: c in p.all ==> c in p.idle || LiveIn(s.threads, c))
    && (forall c :: c in p.created ==> c in p.all || c in p.removed || MadeIn(s.threads, c) || OwedIn(s.threads, c))
    && (forall c :: c in s.sh.deadlines ==> TrackedIn(s.threads, c))
  }

  ghost predicate CapacityOk(cfg: Setup, s: State) {
    if s.sh.pool.closed then 0 <= Drift(s) <= cfg.pool.maxSize else Drift(s) == 0
  }

  ghost predicate Inv(cfg: Setup, s: State) {
    ThreadsOk(cfg, s) && AccountsOk(s) && CapacityOk(cfg, s)
  }

  lemma OwnOk(cfg: Setup, s: State, t: Tid)
    requires ThreadsOk(cfg, s)
    ensures LocalOk(cfg, s.sh, PcOf(s, t))
  {
  }

  lemma ThreadsStep(cfg: Setup, s: State, e: Event)
    requires ThreadsOk(cfg, s) && CanStep(cfg, s, e)
    ensures ThreadsOk(cfg, Step(cfg, s, e))
  {
    hide PoolOk, PoolView, Effect, Enabled;
    var pc, s' := PcOf(s, e.t), Step(cfg, s, e);
    OwnOk(cfg, s, e.t);
    OwnStep(cfg, s.sh, pc, e.a);
    forall u | u in s.threads && u != e.t
      ensures PcOk(cfg, s'.sh, s.threads[u]) && Compatible(s'.threads[e.t], s.threads[u])
    {
      var other := s.threads[u];
      assert Compatible(pc, other);
      OtherStep(cfg, s.sh, pc, e.a, other);
      OtherCompatible(cfg, s.sh, pc, e.a, other);
    }
  }

  lemma AccountsStep(cfg: Setup, s: State, e: Event)
    requires AccountsOk(s) && CanStep(cfg, s, e)
    ensures AccountsOk(Step(cfg, s, e))
  {
    hide Effect, Enabled, Owed;
    var pc, s' := PcOf(s, e.t), Step(cfg, s, e);
    var p, p', pc' := s.sh.pool, s'.sh.pool, s'.threads[e.t];
    forall c | c in p'.all ensures c in p'.idle || LiveIn(s'.threads, c) {
      HandOver(cfg, s.sh, pc, e.a, c);
      if !Places(p', pc', c) {
        var t :| t in s.threads && Live(s.threads[t]) && s.threads[t].c == c;
        assert s'.threads[t] == s.threads[t];
      }
    }
    forall c | c in p'.created
      ensures c in p'.all || c in p'.removed || MadeIn(s'.threads, c) || OwedIn(s'.threads, c)
    {
      HandOver(cfg, s.sh, pc, e.a, c);
      if !Accounts(p', pc', c) {
        var t :| t in s.threads && (c in Owed(s.threads[t]) || (s.threads[t].Making? && s.threads[t].c == c));
        assert s'.threads[t] == s.threads[t];
      }
    }
    forall c | c in s'.sh.deadlines ensures TrackedIn(s'.threads, c) {
      TrackedStep(cfg, s.sh, pc, e.a, c);
      if pc' != Serving(c, Tracked) {
        var t :| t in s.threads && s.threads[t] == Serving(c, Tracked);
        assert s'.threads[t] == s.threads[t];
      }
    }
  }

  lemma InvStep(cfg: Setup, s: State, e: Event)
    requires Inv(cfg, s) && CanStep(cfg, s, e)
    ensures Inv(cfg, Step(cfg, s, e))
  {
    hide PoolView, Effect, Enabled, AccountsOk;
    ThreadsStep(cfg, s, e);
    AccountsStep(cfg, s, e);
    OwnOk(cfg, s, e.t);
    DriftStep(cfg, s, e);
  }

  lemma InvInit(cfg: Setup, s: State)
    requires Init(cfg, s)
    ensures Inv(cfg, s)
  {
    assert CreatingThreads(s.threads) == {};
    DistinctCount(s.sh.pool.idle);
  }

  lemma {:induction false} InvRun(cfg: Setup, s: State, run: seq<Event>)
    requires Inv(cfg, s) && IsRun(cfg, s, run)
    ensures Inv(cfg, After(cfg, s, run))
    decreases |run|
  {
    hide Inv, Step, CanStep;
    if run != [] {
      InvStep(cfg, s, run[0]);
      InvRun(cfg, Step(cfg, s, run[0]), run[1..]);
    }
  }
}
