// The pool as the source writes it: an object whose methods update the
// registry, the count and the channel in place. Each method is proved against
// the functions of PoolSpec, which the protocol interleaves.
module PoolObject {
  import opened Prelude
  import opened PoolSpec
  import Protocol

  // The container runtime: it hands out fresh ids, and any call may fail.
  class Backend {
    var created: set<Id>
    var removed: set<Id>
    var failures: seq<Id>  // the ids whose Remove reported an error, in order
    ghost var order: seq<Id>  // the ids handed out, in order
    var next: Id

    ghost predicate Valid() reads this { forall c :: c in created ==> c < next }

    constructor ()
      ensures Valid() && created == {} && removed == {} && failures == [] && order == []
    {
      created, removed, failures, order, next := {}, {}, [], [], 0;
    }

    method Create() returns (r: Option<Id>)
      requires Valid()
      modifies this`created, this`order, this`next
      ensures Valid()
      ensures match r
        case None => created == old(created) && order == old(order)
        case Some(c) => c !in old(created) && created == old(created) + {c} && order == old(order) + [c]
    {
      if * {
        r := None;
      } else {
        r, created, order, next := Some(next), created + {next}, order + [next], next + 1;
      }
    }

    method Start(c: Id) returns (ok: bool) {
      ok := *;
    }

    method Remove(c: Id) returns (ok: bool)
      modifies this`removed, this`failures
      ensures removed == old(removed) + {c}
      ensures failures == old(failures) + if ok then [] else [c]
    {
      ok := *;
      removed := removed + {c};
      if !ok {
        failures := failures + [c];
      }
    }
  }

  datatype State = Idle | Busy

  class Container {
    const id: Id
    var state: State
    var jobs: nat

    constructor (id: Id)
      ensures this.id == id && jobs == 0
    {
      this.id, state, jobs := id, Idle, 0;
    }
  }

  function Ids(s: seq<Container>): (r: seq<Id>)
    ensures |r| == |s|
    ensures forall i :: 0 <= i < |s| ==> r[i] == s[i].id
  {
    if s == [] then [] else Ids(s[..|s| - 1]) + [s[|s| - 1].id]
  }

  datatype AcquireError = Closed | AtCapacity | CreateFailed | StartFailed(c: Id) | Cancelled

  datatype NewError = InvalidConfig | PreWarm(cause: AcquireError)

  datatype Stats = Stats(idle: int, busy: int, total: int, max: int)

  // `err` is the first failure reported since the log stood at `before`.
  predicate FirstFailure(before: seq<Id>, after: seq<Id>, err: Option<Id>) {
    && before <= after
    && err == if |after| == |before| then None else Some(after[|before|])
  }

  // ---- what each call does to the pool when nothing else runs ----

  function DiscardSpec(p: Pool, c: Id): Pool { Remove(Deregister(p, c), c) }

  function KillSpec(p: Pool, c: Id): Pool { if c in p.all then DiscardSpec(p, c) else p }

  function ReleaseSpec(cfg: Config, p: Pool, c: Id): Pool
    requires c in p.jobs
  {
    var p' := CountJob(p, c);
    if c !in p.all then p'
    else if p.closed || AtLimit(cfg, p'.jobs[c]) || |p.idle| >= cfg.maxSize then DiscardSpec(p', c)
    else Park(p', c)
  }

  function CloseSpec(p: Pool): Pool {
    if p.closed then p else Signal(CloseOff(p)).(removed := p.removed + p.all)
  }

  // The outcomes of grow on a pool.
  predicate GrowSpec(cfg: Config, p: Pool, r: Result<Id, AcquireError>, p': Pool) {
    match r
    case Ok(c) =>
      !p.closed && p.count < cfg.maxSize && c !in p.created && p' == Register(Create(Reserve(p), c), c)
    case Err(Closed) => p.closed && p' == p
    case Err(AtCapacity) => !p.closed && p.count >= cfg.maxSize && p' == p
    case Err(CreateFailed) => !p.closed && p.count < cfg.maxSize && p' == p
    case Err(StartFailed(c)) =>
      !p.closed && p.count < cfg.maxSize && c !in p.created && p' == Remove(Create(p, c), c)
    case Err(Cancelled) => false
  }

  // The outcomes of create on a pool whose slot is already reserved.
  predicate MakeSpec(p: Pool, r: Result<Id, AcquireError>, p': Pool) {
    match r
    case Ok(c) => c !in p.created && p' == Register(Create(p, c), c)
    case Err(CreateFailed) => p' == p
    case Err(StartFailed(c)) => c !in p.created && p' == Remove(Create(p, c), c)
    case Err(_) => false
  }

  lemma GrowFromMake(cfg: Config, p: Pool, r: Result<Id, AcquireError>, p': Pool)
    requires !p.closed && p.count < cfg.maxSize && MakeSpec(Reserve(p), r, p')
    ensures GrowSpec(cfg, p, r, if r.Ok? then p' else Unreserve(p'))
  {
  }

  function IdOf(r: Result<Container, AcquireError>): Result<Id, AcquireError> {
    if r.Ok? then Ok(r.value.id) else Err(r.error)
  }

  // The outcomes of the wait at capacity: whichever is ready, and cancellation
  // may be ready at any time.
  predicate WaitSpec(p: Pool, r: Result<Id, AcquireError>, p': Pool) {
    match r
    case Ok(c) => p.idle != [] && c == p.idle[0] && p' == TakeIdle(p)
    case Err(Closed) => p.done && p' == p
    case Err(Cancelled) => p' == p
    case Err(_) => false
  }

  // The outcomes of Acquire on a pool nobody else uses.
  predicate AcquireSpec(cfg: Config, p: Pool, r: Result<Id, AcquireError>, p': Pool) {
    if p.closed then r == Err(Closed) && p' == p
    else if p.idle != [] then r == Ok(p.idle[0]) && p' == TakeIdle(p)
    else if p.count >= cfg.maxSize then WaitSpec(p, r, p')
    else GrowSpec(cfg, p, r, p')
  }

  // What Release amounts to after the container's `served`-th job: the pool keeps
  // it parked, unless it no longer has it, is closed or has no room, or the limit
  // of jobs is reached.
  predicate ReleasedTo(cfg: Config, p: Pool, c: Id, served: nat, p': Pool) {
    if c !in p.all then
      p'.all == p.all && p'.count == p.count && p'.idle == p.idle && p'.removed == p.removed
    else if p.closed || (cfg.maxJobs > 0 && served >= cfg.maxJobs) || |p.idle| >= cfg.maxSize then
      p'.all == p.all - {c} && p'.count == p.count - 1 && p'.idle == p.idle && p'.removed == p.removed + {c}
    else
      p'.all == p.all && p'.count == p.count && p'.idle == p.idle + [c] && p'.removed == p.removed
  }

  lemma ReleaseMeaning(cfg: Config, p: Pool, c: Id)
    requires c in p.jobs
    ensures var p', served := ReleaseSpec(cfg, p, c), p.jobs[c] + 1;
      && p'.jobs == p.jobs[c := served] && p'.closed == p.closed && p'.done == p.done && p'.created == p.created
      && ReleasedTo(cfg, p, c, served, p')
  {
  }

  function StatsOf(cfg: Config, p: Pool): Stats { Stats(|p.idle|, p.count - |p.idle|, p.count, cfg.maxSize) }

  predicate Overflow(s: Stats) { s.total >= s.max && s.idle == 0 }

  // A snapshot of an open pool shows overflow exactly when an Acquire that runs
  // on it alone waits, and so gets nothing.
  lemma OverflowMustWait(cfg: Config, p: Pool, r: Result<Id, AcquireError>, p': Pool)
    requires !p.closed && AcquireSpec(cfg, p, r, p')
    ensures Overflow(StatsOf(cfg, p)) <==> r == Err(Cancelled) || r == Err(Closed)
  {
  }

  // The pool after `warm` containers were created and parked on top of what
  // the runtime had already created.
  ghost predicate Warmed(p: Pool, warm: nat, created: set<Id>, removed: set<Id>) {
    && NoDuplicates(p.idle) && |p.idle| == warm == p.count
    && p.all == Elements(p.idle) == p.created - created && created <= p.created
    && p.jobs == (map c | c in p.all :: 0)
    && p.removed == removed && !p.closed && !p.done
  }

  // One more container, created and parked.
  lemma WarmOne(cfg: Config, p: Pool, warm: nat, created: set<Id>, removed: set<Id>, c: Id, p': Pool)
    requires Warmed(p, warm, created, removed) && GrowSpec(cfg, p, Ok(c), p')
    ensures Warmed(Park(p', c), warm + 1, created, removed)
  {
    var parked := p.idle + [c];
    assert Elements(parked) == Elements(p.idle) + {c};
  }

  lemma GrowKeepsIdle(cfg: Config, p: Pool, c: Id, p': Pool, before: seq<Id>)
    requires GrowSpec(cfg, p, Ok(c), p')
    ensures before + Park(p', c).idle == before + p.idle + [c]
  {
  }

  lemma WarmedIsPrewarmed(cfg: Config, p: Pool)
    requires ValidConfig(cfg) && Warmed(p, if cfg.minWarm > 0 then cfg.minWarm else 0, {}, {})
    ensures Protocol.Prewarmed(cfg, p)
  {
  }

  // A create that failed while warming up leaves only removed containers
  // beside the registered ones.
  lemma WarmFailed(cfg: Config, p: Pool, warm: nat, created: set<Id>, removed: set<Id>, e: AcquireError, p': Pool)
    requires Warmed(p, warm, created, removed) && GrowSpec(cfg, p, Err(e), p')
    ensures !p'.closed && p'.created - created <= p'.all + p'.removed
  {
  }

  class PoolObject {
    const backend: Backend
    const cfg: Config
    var all: map<Id, Container>
    var count: int
    var closed: bool
    var done: bool
    var idle: seq<Container>
    ghost var made: map<Id, Container>  // every record ever registered

    ghost predicate Valid()
      reads this, backend
    {
      && backend.Valid()
      && made.Keys <= backend.created
      && (forall c :: c in made ==> made[c].id == c)
      && (forall c :: c in all ==> c in made && made[c] == all[c])
      && (forall i :: 0 <= i < |idle| ==> Owns(idle[i]))
    }

    ghost predicate Owns(c: Container)
      reads this
    {
      c.id in made && made[c.id] == c
    }

    ghost function View(): Pool
      reads this, backend, made.Values
    {
      Pool(all.Keys, count, closed, done,
           Ids(idle),
           map c | c in made :: made[c].jobs,
           backend.created, backend.removed)
    }

    constructor (backend: Backend, cfg: Config)
      requires backend.Valid()
      ensures Valid() && this.backend == backend && this.cfg == cfg && made == map[]
      ensures View() == EMPTY.(created := backend.created, removed := backend.removed) && idle == []
    {
      this.backend, this.cfg := backend, cfg;
      all, count, closed, done, idle, made := map[], 0, false, false, [], map[];
    }

    method Discard(c: Container)
      requires Valid()
      modifies this`all, this`count, backend
      ensures Valid() && View() == DiscardSpec(old(View()), c.id)
    {
      if c.id in all {
        all := all - {c.id};
        count := count - 1;
      }
      var _ := backend.Remove(c.id);
    }

    method RemoveByID(id: Id)
      requires Valid()
      modifies this`all, this`count, backend
      ensures Valid() && View() == KillSpec(old(View()), id)
      ensures id !in old(View()).all ==> View() == old(View())
    {
      if id in all {
        Discard(all[id]);
      }
    }

    method Grow() returns (r: Result<Container, AcquireError>)
      requires Valid()
      modifies this`all, this`count, this`made, backend
      ensures Valid()
      ensures GrowSpec(cfg, old(View()), IdOf(r), View())
      ensures r.Ok? ==> backend.order == old(backend.order) + [r.value.id]
      ensures r.Ok? ==> fresh(r.value) && made == old(made)[r.value.id := r.value]
      ensures r.Err? ==> made == old(made)
    {
      ghost var p := View();
      if closed {
        return Err(Closed);
      }
      if count >= cfg.maxSize {
        return Err(AtCapacity);
      }
      count := count + 1;
      assert View() == Reserve(p);
      r := CreateContainer();
      ghost var p' := View();
      if r.Err? {
        count := count - 1;
        assert View() == Unreserve(p');
      }
      hide View;
      GrowFromMake(cfg, p, IdOf(r), p');
    }

    method CreateContainer() returns (r: Result<Container, AcquireError>)
      requires Valid()
      modifies this`all, this`made, backend
      ensures Valid()
      ensures MakeSpec(old(View()), IdOf(r), View())
      ensures r.Ok? ==> backend.order == old(backend.order) + [r.value.id]
      ensures r.Ok? ==> fresh(r.value) && made == old(made)[r.value.id := r.value]
      ensures r.Err? ==> made == old(made)
    {
      hide Ids;
      ghost var p := View();
      var id := backend.Create();
      assert View() == if id.None? then p else Create(p, id.value);
      if id.None? {
        return Err(CreateFailed);
      }
      var started := backend.Start(id.value);
      if !started {
        var _ := backend.Remove(id.value);
        assert View() == Remove(Create(p, id.value), id.value);
        return Err(StartFailed(id.value));
      }
      var c := new Container(id.value);
      assert View() == Create(p, id.value);
      hide View;
      Enroll(c);
      return Ok(c);
    }

    // The lock section that adds a started container to the registry.
    method Enroll(c: Container)
      requires Valid() && c.id in backend.created && c.id !in made && c.jobs == 0
      modifies this`all, this`made
      ensures Valid() && View() == Register(old(View()), c.id)
      ensures made == old(made)[c.id := c]
    {
      hide Ids;
      all, made := all[c.id := c], made[c.id := c];
      assert View().jobs == old(View()).jobs[c.id := 0];
    }

    method Acquire() returns (r: Result<Container, AcquireError>)
      requires Valid()
      modifies this, backend, made.Values
      ensures Valid()
      ensures AcquireSpec(cfg, old(View()), IdOf(r), View())
      ensures r.Ok? ==> Owns(r.value) && r.value.state == Busy && r.value.id in View().jobs
      ensures r.Ok? ==> r.value in old(made.Values) || fresh(r.value)
      ensures !old(closed) && old(idle) != [] ==> r == Ok(old(idle)[0]) && idle == old(idle)[1..]
    {
      if closed {
        return Err(Closed);
      }
      if idle != [] {
        var c := ReceiveIdle();
        Mark(c, Busy);
        return Ok(c);
      }
      ghost var p := View();
      r := Grow();
      assert r == Err(AtCapacity) ==> View() == p && p.count >= cfg.maxSize && p.idle == [];
      hide GrowSpec, WaitSpec, View;
      if r.Ok? {
        Mark(r.value, Busy);
      } else if r.error == AtCapacity {
        r := Await();
      }
    }

    // The wait at capacity: any one of the three channels that is ready.
    method Await() returns (r: Result<Container, AcquireError>)
      requires Valid()
      modifies this`idle, made.Values
      ensures Valid() && WaitSpec(old(View()), IdOf(r), View())
      ensures r.Ok? ==> Owns(r.value) && r.value.state == Busy && r.value.id in View().jobs
      ensures r.Ok? ==> r.value in old(made.Values)
    {
      if
      case idle != [] =>
        var c := ReceiveIdle();
        Mark(c, Busy);
        r := Ok(c);
      case done =>
        r := Err(Closed);
      case true =>
        r := Err(Cancelled);
    }

    method ReceiveIdle() returns (c: Container)
      requires Valid() && idle != []
      modifies this`idle
      ensures Valid() && Owns(c) && c.id == old(View()).idle[0] && View() == TakeIdle(old(View()))
      ensures c == old(idle)[0] && idle == old(idle)[1..]
    {
      c := idle[0];
      idle := idle[1..];
    }

    method FinishJob(c: Container)
      requires Valid() && Owns(c)
      modifies c
      ensures Valid() && Owns(c) && View() == CountJob(old(View()), c.id)
      ensures c.state == State.Idle && c.jobs == old(c.jobs) + 1
    {
      c.jobs := c.jobs + 1;
      c.state := Idle;
      assert View().jobs == CountJob(old(View()), c.id).jobs;
    }

    method Mark(c: Container, state: State)
      requires Valid()
      modifies c`state
      ensures Valid() && View() == old(View()) && c.state == state
    {
      c.state := state;
    }

    method SendIdle(c: Container)
      requires Valid() && Owns(c)
      modifies this`idle
      ensures Valid() && View() == Park(old(View()), c.id)
    {
      idle := idle + [c];
    }

    method Release(c: Container)
      requires Valid() && Owns(c)
      modifies this`all, this`count, this`idle, backend, c
      ensures Valid() && View() == ReleaseSpec(cfg, old(View()), c.id)
      ensures c.state == State.Idle && c.jobs == old(c.jobs) + 1
      ensures ReleasedTo(cfg, old(View()), c.id, old(c.jobs) + 1, View())
    {
      ghost var p := View();
      assert p.jobs[c.id] == c.jobs;
      ReleaseMeaning(cfg, p, c.id);
      FinishJob(c);
      var alive, full := c.id in all, |idle| >= cfg.maxSize;
      var spent := closed || (cfg.maxJobs > 0 && c.jobs >= cfg.maxJobs);
      assert c.id in p.jobs && View() == CountJob(p, c.id);
      assert alive == (c.id in p.all) && full == (|p.idle| >= cfg.maxSize);
      assert spent == (p.closed || AtLimit(cfg, View().jobs[c.id]));
      hide View, ReleaseSpec;
      if alive {
        if spent {
          Discard(c);
        } else if !full {
          SendIdle(c);
        } else {
          Discard(c);
        }
      }
    }

    // Removes every registered container; the result is the first failure.
    method Close() returns (firstErr: Option<Id>)
      requires Valid()
      modifies this`all, this`count, this`closed, this`done, backend
      ensures Valid() && View() == CloseSpec(old(View()))
      ensures FirstFailure(old(backend.failures), backend.failures, firstErr)
      ensures old(closed) ==> firstErr == None && View() == old(View())
      ensures !old(closed) ==>
                closed && done && all == map[] && count == 0 && backend.removed == old(backend.removed) + old(all.Keys)
    {
      if closed {
        return None;
      }
      closed := true;
      var ids := all.Keys;
      all, count := map[], 0;
      done := true;
      firstErr := RemoveAll(ids);
    }

    method RemoveAll(ids: set<Id>) returns (firstErr: Option<Id>)
      requires backend.Valid()
      modifies backend`removed, backend`failures
      ensures backend.removed == old(backend.removed) + ids
      ensures FirstFailure(old(backend.failures), backend.failures, firstErr)
    {
      firstErr := None;
      var todo := ids;
      while todo != {}
        invariant todo <= ids && backend.removed == old(backend.removed) + (ids - todo)
        invariant FirstFailure(old(backend.failures), backend.failures, firstErr)
        decreases todo
      {
        var c :| c in todo;
        var ok := backend.Remove(c);
        if !ok && firstErr.None? {
          firstErr := Some(c);
        }
        todo := todo - {c};
      }
    }

    // Closes a pool that could not be warmed up.
    method Abandon()
      requires Valid() && !View().closed
      modifies this`all, this`count, this`closed, this`done, backend
      ensures backend.Valid() && backend.created == old(View()).created
      ensures backend.removed == old(View()).removed + old(View()).all
    {
      var _ := Close();
    }

    // One turn of the pre-warm loop.
    method GrowIdle(ghost warm: nat, ghost created: set<Id>, ghost removed: set<Id>, ghost before: seq<Id>)
      returns (err: Option<AcquireError>)
      requires Valid() && Warmed(View(), warm, created, removed) && backend.order == before + View().idle
      modifies this`all, this`count, this`made, this`idle, backend
      ensures Valid() && fresh(made.Values - old(made.Values))
      ensures match err
        case None => Warmed(View(), warm + 1, created, removed) && backend.order == before + View().idle
        case Some(_) => !View().closed && View().created - created <= View().all + View().removed
    {
      hide View, GrowSpec, Warmed;
      ghost var p := View();
      var c := Grow();
      ghost var grown := View();
      if c.Err? {
        WarmFailed(cfg, p, warm, created, removed, c.error, grown);
        return Some(c.error);
      }
      Mark(c.value, State.Idle);
      SendIdle(c.value);
      WarmOne(cfg, p, warm, created, removed, c.value.id, grown);
      GrowKeepsIdle(cfg, p, c.value.id, grown, before);
      return None;
    }

    // The pre-warm loop; a failure closes the pool again.
    method WarmUp(ghost created: set<Id>, ghost removed: set<Id>) returns (err: Option<AcquireError>)
      requires Valid() && Warmed(View(), 0, created, removed) && made == map[]
      modifies this, backend
      ensures err.None? ==> Valid() && Warmed(View(), if cfg.minWarm > 0 then cfg.minWarm else 0, created, removed)
      ensures err.None? ==> backend.order == old(backend.order) + View().idle
      ensures err.Some? ==> backend.Valid() && backend.created - created <= backend.removed
    {
      assert View().idle == [];
      hide View, Warmed;
      var i := 0;
      while i < cfg.minWarm
        invariant i == 0 || i <= cfg.minWarm
        invariant Valid() && fresh(made.Values) && Warmed(View(), i, created, removed)
        invariant backend.order == old(backend.order) + View().idle
      {
        err := GrowIdle(i, created, removed, old(backend.order));
        if err.Some? {
          Abandon();
          return;
        }
        i := i + 1;
      }
      return None;
    }

    method Snapshot() returns (s: Stats)
      requires Valid()
      ensures s == StatsOf(cfg, View())
      ensures s.idle == |idle| && s.busy == count - |idle| && s.total == count && s.max == cfg.maxSize
    {
      s := Stats(|idle|, count - |idle|, count, cfg.maxSize);
    }
  }

  // Creates a pool and pre-warms it; a failure leaves nothing behind that was
  // not removed.
  method New(backend: Backend, cfg: Config) returns (r: Result<PoolObject, NewError>)
    requires backend.Valid()
    modifies backend
    ensures backend.Valid()
    ensures r == Err(InvalidConfig) <==> cfg.maxSize < 1 || cfg.minWarm > cfg.maxSize
    ensures r == Err(InvalidConfig) ==>
              backend.created == old(backend.created) && backend.removed == old(backend.removed)
    ensures r.Err? ==> backend.created - old(backend.created) <= backend.removed
    ensures r.Ok? ==> fresh(r.value) && r.value.Valid() && r.value.backend == backend && r.value.cfg == cfg
    ensures r.Ok? ==> Warmed(r.value.View(), if cfg.minWarm > 0 then cfg.minWarm else 0,
                             old(backend.created), old(backend.removed))
    ensures r.Ok? ==> backend.order == old(backend.order) + r.value.View().idle
    ensures r.Ok? && old(backend.created) == {} && old(backend.removed) == {}
      ==> Protocol.Prewarmed(cfg, r.value.View())
  {
    if cfg.maxSize < 1 || cfg.minWarm > cfg.maxSize {
      return Err(InvalidConfig);
    }
    var p := new PoolObject(backend, cfg);
    var err := p.WarmUp(old(backend.created), old(backend.removed));
    if err.Some? {
      return Err(PreWarm(err.value));
    }
    hide PoolObject.View, Warmed, Protocol.Prewarmed;
    if old(backend.created) == {} && old(backend.removed) == {} {
      WarmedIsPrewarmed(cfg, p.View());
    }
    return Ok(p);
  }
}
