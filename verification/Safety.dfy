// What every reachable state of the protocol satisfies: capacity, no leaks,
// exclusive ownership, tracking and the order of shutdown.
module Safety {
  import opened Prelude
  import opened PoolSpec
  import opened Protocol
  import opened Invariant

  ghost predicate Reachable(cfg: Setup, s: State) {
    exists s0, run :: Init(cfg, s0) && IsRun(cfg, s0, run) && After(cfg, s0, run) == s
  }

  lemma ReachableInv(cfg: Setup, s: State)
    requires Reachable(cfg, s)
    ensures Inv(cfg, s)
  {
    hide Init, Inv;
    var s0, run :| Init(cfg, s0) && IsRun(cfg, s0, run) && After(cfg, s0, run) == s;
    InvInit(cfg, s0);
    InvRun(cfg, s0, run);
  }

  lemma ReachableConfig(cfg: Setup, s: State)
    requires Reachable(cfg, s)
    ensures ValidConfig(cfg.pool)
  {
  }

  lemma {:induction false} RunSnoc(cfg: Setup, s: State, run: seq<Event>, e: Event)
    requires IsRun(cfg, s, run) && CanStep(cfg, After(cfg, s, run), e)
    ensures IsRun(cfg, s, run + [e]) && After(cfg, s, run + [e]) == Step(cfg, After(cfg, s, run), e)
    decreases |run|
  {
    hide Step, CanStep;
    if run == [] {
      assert run + [e] == [e];
    } else {
      RunSnoc(cfg, Step(cfg, s, run[0]), run[1..], e);
      assert (run + [e])[1..] == run[1..] + [e];
    }
  }

  // The runtime always has an id it has not handed out.
  lemma {:induction false} UnusedId(ids: set<Id>) returns (c: Id)
    ensures c !in ids && forall x :: x in ids ==> x < c
    decreases |ids|
  {
    if ids == {} {
      c := 0;
    } else {
      var x :| x in ids;
      c := UnusedId(ids - {x});
      c := if c <= x then x + 1 else c;
      assert ids == (ids - {x}) + {x};
    }
  }

  // ---- capacity ----

  lemma Capacity(cfg: Setup, s: State)
    requires Reachable(cfg, s)
    ensures var p, creating := s.sh.pool, |CreatingThreads(s.threads)|;
      && |p.all| + creating <= cfg.pool.maxSize
      && (!p.closed ==> 0 <= p.count == |p.all| + creating)
      && (p.closed ==> -cfg.pool.maxSize <= p.count <= 0)
  {
    ReachableInv(cfg, s);
  }

  lemma {:induction false} AfterAppend(cfg: Setup, s: State, a: seq<Event>, b: seq<Event>)
    requires IsRun(cfg, s, a + b)
    ensures IsRun(cfg, s, a) && IsRun(cfg, After(cfg, s, a), b)
    ensures After(cfg, s, a + b) == After(cfg, After(cfg, s, a), b)
    decreases |a|
  {
    hide Step, CanStep;
    if a == [] {
      assert a + b == b;
    } else {
      assert (a + b)[0] == a[0] && (a + b)[1..] == a[1..] + b;
      AfterAppend(cfg, Step(cfg, s, a[0]), a[1..], b);
    }
  }

  lemma {:induction false} ClosedDrift(cfg: Setup, s: State, run: seq<Event>)
    requires Inv(cfg, s) && IsRun(cfg, s, run) && s.sh.pool.closed
    ensures After(cfg, s, run).sh.pool.closed
    ensures Drift(After(cfg, s, run)) == Drift(s)
    decreases |run|
  {
    hide PoolOk, PoolView, Effect, Enabled, AccountsOk, CreatingThreads;
    if run != [] {
      OwnOk(cfg, s, run[0].t);
      DriftStep(cfg, s, run[0]);
      InvStep(cfg, s, run[0]);
      ClosedDrift(cfg, Step(cfg, s, run[0]), run[1..]);
    }
  }

  // After the Close that takes effect, the count stays short by exactly the
  // creates that were in flight at that moment.
  lemma CapacityAcrossClose(cfg: Setup, s: State, before: seq<Event>, close: Event, after: seq<Event>)
    requires Reachable(cfg, s)
    requires IsRun(cfg, s, before + ([close] + after)) && IsRun(cfg, s, before)
    requires Closes(After(cfg, s, before), close)
    ensures var end := After(cfg, s, before + ([close] + after));
      && end.sh.pool.closed
      && end.sh.pool.count + |CreatingThreads(After(cfg, s, before).threads)|
         == |end.sh.pool.all| + |CreatingThreads(end.threads)|
  {
    hide Init, PoolOk, PoolView, Effect, Enabled, AccountsOk, CreatingThreads;
    ReachableInv(cfg, s);
    InvRun(cfg, s, before);
    AfterAppend(cfg, s, before, [close] + after);
    var mid := After(cfg, s, before);
    AfterAppend(cfg, mid, [close], after);
    var next := Step(cfg, mid, close);
    assert After(cfg, mid, [close]) == next;
    OwnOk(cfg, mid, close.t);
    DriftStep(cfg, mid, close);
    InvStep(cfg, mid, close);
    ClosedDrift(cfg, next, after);
  }

  // A set of ids each held by some thread of a set is no larger than that set.
  lemma {:induction false} FewerTokens(threads: map<Tid, Pc>, holders: set<Tid>, ids: set<Id>)
    requires forall c :: c in ids ==>
      exists t :: t in holders && t in threads && Holding(threads[t]) && threads[t].c == c
    ensures |ids| <= |holders|
    decreases holders
  {
    if holders != {} {
      var t :| t in holders;
      if t in threads && Holding(threads[t]) {
        FewerTokens(threads, holders - {t}, ids - {threads[t].c});
        assert |ids - {threads[t].c}| >= |ids| - 1;
      } else {
        FewerTokens(threads, holders - {t}, ids);
      }
    } else {
      assert ids == {};
    }
  }

  // Threads that hold distinct containers out of a set are no more than that set.
  lemma {:induction false} FewerHolders(threads: map<Tid, Pc>, holders: set<Tid>, ids: set<Id>)
    requires forall t :: t in holders ==> t in threads && Holding(threads[t]) && threads[t].c in ids
    requires forall t, u :: t in holders && u in holders && t != u ==> Compatible(threads[t], threads[u])
    ensures |holders| <= |ids|
    decreases holders
  {
    if holders != {} {
      var t :| t in holders;
      FewerHolders(threads, holders - {t}, ids - {threads[t].c});
    }
  }

  function OwedIds(s: State): set<Id> {
    set c | c in s.sh.pool.created && OwedIn(s.threads, c)
  }

  // Containers alive in the runtime exceed the cap by no more than the ids
  // some thread is just about to remove.
  lemma RuntimeBound(cfg: Setup, s: State)
    requires Reachable(cfg, s)
    ensures var p := s.sh.pool; |p.created - p.removed| <= cfg.pool.maxSize + |OwedIds(s)|
  {
    ReachableInv(cfg, s);
    var p, threads := s.sh.pool, s.threads;
    var made := set c | c in p.created && MadeIn(threads, c);
    forall c | c in made
      ensures exists t :: t in CreatingThreads(threads) && t in threads && Holding(threads[t]) && threads[t].c == c
    {
      var t :| t in threads && threads[t].Making? && threads[t].c == c;
      assert t in CreatingThreads(threads);
    }
    FewerTokens(threads, CreatingThreads(threads), made);
    assert p.created - p.removed <= p.all + made + OwedIds(s);
    SubsetSize(p.created - p.removed, p.all + made + OwedIds(s));
  }

  lemma {:induction false} SubsetSize(a: set<Id>, b: set<Id>)
    requires a <= b
    ensures |a| <= |b|
  {
    assert b == a + (b - a);
  }

  // ---- no leak ----

  // No container is ever forgotten.
  lemma Accounted(cfg: Setup, s: State, c: Id)
    requires Reachable(cfg, s) && c in s.sh.pool.created
    ensures c in s.sh.pool.all || c in s.sh.pool.removed
      || exists t :: t in s.threads && ((s.threads[t].Making? && s.threads[t].c == c) || c in Owed(s.threads[t]))
  {
    ReachableInv(cfg, s);
  }

  // Every call has returned and no sweep is under way.
  predicate AtRest(s: State) {
    forall t :: t in s.threads ==> s.threads[t] in {Finished, Sweeper(Idle)}
  }

  // At rest, an open pool's registered containers are exactly those parked and
  // not removed; a closed pool has none, and everything created was removed.
  lemma NoLeak(cfg: Setup, s: State)
    requires Reachable(cfg, s) && AtRest(s)
    ensures var p := s.sh.pool;
      && p.created == p.all + p.removed
      && p.all == (set c | c in p.idle && c !in p.removed)
      && (p.closed ==> p.all == {} && p.removed == p.created)
  {
    ReachableInv(cfg, s);
    hide PoolView, PcOk;
    var p := s.sh.pool;
    forall c | c in p.created ensures c in p.all || c in p.removed {
      Idlers(s, c);
    }
    forall c | c in p.all ensures c in p.idle {
      Idlers(s, c);
    }
    assert forall c :: c in p.idle ==> c in p.created;
  }

  // Everything the runtime created has been removed if and only if nothing is
  // registered, no thread is making a container, and what any thread still owes
  // a Remove has had one already.
  lemma AllRemovedIff(cfg: Setup, s: State)
    requires Reachable(cfg, s)
    ensures var p := s.sh.pool;
      p.created == p.removed <==>
        && p.all == {} && (forall t :: t in s.threads ==> !s.threads[t].Making?)
        && (forall t, c :: t in s.threads && c in Owed(s.threads[t]) ==> c in p.removed)
  {
    ReachableInv(cfg, s);
    var p := s.sh.pool;
    assert forall t :: t in s.threads ==> PcOk(cfg, s.sh, s.threads[t]);
    if p.all == {} && (forall t :: t in s.threads ==> !s.threads[t].Making?) {
      hide PoolView, PcOk;
      if forall t, c :: t in s.threads && c in Owed(s.threads[t]) ==> c in p.removed {
        forall c | c in p.created ensures c in p.removed {
          assert MadeIn(s.threads, c) || OwedIn(s.threads, c) || c in p.removed;
        }
      }
    }
  }

  // So at the return of Close every container is gone unless one was being made
  // or another call had yet to remove one.
  lemma ClosedCompletelyIff(cfg: Setup, s: State, t: Tid)
    requires Reachable(cfg, s) && t in s.threads && s.threads[t] == TearingDown(true, {})
    ensures var p := s.sh.pool;
      p.created != p.removed <==>
        || p.all != {} || (exists u :: u in s.threads && s.threads[u].Making?)
        || (exists u, c :: u in s.threads && u != t && c in Owed(s.threads[u]) && c !in p.removed)
  {
    AllRemovedIff(cfg, s);
    hide Reachable;
    assert Owed(s.threads[t]) == {};
  }

  lemma Idlers(s: State, c: Id)
    requires AtRest(s)
    ensures !MadeIn(s.threads, c) && !OwedIn(s.threads, c) && !LiveIn(s.threads, c)
  {
  }

  // ---- ownership ----

  // A container is parked at most once, or held by at most one thread, never both.
  lemma SingleOwner(cfg: Setup, s: State, t: Tid, u: Tid)
    requires Reachable(cfg, s) && t in s.threads && Holding(s.threads[t])
    ensures NoDuplicates(s.sh.pool.idle)
    ensures s.threads[t].c !in s.sh.pool.idle
    ensures u in s.threads && Holds(s.threads[u], s.threads[t].c) ==> t == u
  {
    ReachableInv(cfg, s);
    assert u in s.threads && u != t ==> Compatible(s.threads[t], s.threads[u]);
  }

  // A deadline belongs to exactly one thread, a job between Track and Untrack
  // on that very container.
  lemma TrackedIsCheckedOut(cfg: Setup, s: State, c: Id) returns (t: Tid)
    requires Reachable(cfg, s) && c in s.sh.deadlines
    ensures t in s.threads && s.threads[t] == Serving(c, Tracked)
    ensures forall u :: u in s.threads && Holds(s.threads[u], c) ==> u == t
    ensures c !in s.sh.pool.idle
  {
    ReachableInv(cfg, s);
    t :| t in s.threads && s.threads[t] == Serving(c, Tracked);
    forall u | u in s.threads && Holds(s.threads[u], c) ensures u == t {
      SingleOwner(cfg, s, t, u);
    }
  }

  // ---- shutdown ----

  // When every Close comes through the environment, no sweep action can
  // happen from the moment any Close is about to take the pool's lock.
  lemma ReaperStopsBeforeClose(cfg: Setup, s: State, t: Tid, u: Tid, a: SweepAction)
    requires Reachable(cfg, s) && !cfg.directClose
    requires s.sh.pool.closed || PcOf(s, t) == CloseEntry
    ensures !CanStep(cfg, s, Event(u, S(a)))
  {
    ReachableInv(cfg, s);
  }
}
