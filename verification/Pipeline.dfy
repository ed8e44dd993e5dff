// One submission through the pool: borrow a container, register it with the
// reaper, run the stages, and undo everything in reverse order on every path.
module Pipeline {
  import opened Prelude
  import opened PoolSpec
  import opened PoolObject
  import opened Reaper
  import S = Sandbox
  import V = Verdict

  // The calls Run makes, in order.
  datatype Effect =
    | Acquired(c: Id) | Tracked(c: Id) | RanCompile | RanExecute
    | CleanedUp | Untracked(c: Id) | Released(c: Id)

  datatype Deferred = DeferRelease | DeferUntrack | DeferCleanup

  datatype RunError = AcquireFailed(cause: AcquireError) | CompileStage | ExecuteStage

  // What the stages make of the outcomes of their two sandbox runs.
  function StagesResult(ttl: int, compile: V.Exec, execute: V.Exec): Result<V.RunResult, RunError> {
    match V.Outcomes(ttl, compile, execute)
    case Some(r) => Ok(r)
    case None => Err(if compile.Failed? then CompileStage else ExecuteStage)
  }

  function StagesEffects(ttl: int, compile: V.Exec): seq<Effect> {
    if compile.Done? && V.CompileResult(ttl, compile).compiled then [RanCompile, RanExecute] else [RanCompile]
  }

  // The deferred calls in the order Run registers them.
  function Defers(tracked: bool): seq<Deferred> {
    [DeferRelease] + (if tracked then [DeferUntrack] else []) + [DeferCleanup]
  }

  function EffectOf(d: Deferred, c: Id): Effect {
    match d
    case DeferRelease => Released(c)
    case DeferUntrack => Untracked(c)
    case DeferCleanup => CleanedUp
  }

  // The effects of running deferred calls last in, first out.
  function Unwound(ds: seq<Deferred>, c: Id): seq<Effect> {
    if ds == [] then [] else [EffectOf(ds[|ds| - 1], c)] + Unwound(ds[..|ds| - 1], c)
  }

  // The calls of a Run after it got container c.
  function JobEffects(tracked: bool, ttl: int, compile: V.Exec, c: Id): seq<Effect> {
    (if tracked then [Tracked(c)] else []) + StagesEffects(ttl, compile) + Unwound(Defers(tracked), c)
  }

  // The calls of a whole Run that got container c.
  function RunEffects(tracked: bool, ttl: int, compile: V.Exec, c: Id): seq<Effect> {
    [Acquired(c)] + JobEffects(tracked, ttl, compile, c)
  }

  // Whatever the stages do, the container is acquired once and tracked at most
  // once before the compile; the tests run exactly if that exits with 0; and the
  // last calls clean up, untrack if it was tracked, and release, each once.
  lemma EveryPathUndone(tracked: bool, ttl: int, compile: V.Exec, c: Id, k: nat)
    requires k < |RunEffects(tracked, ttl, compile, c)|
    ensures var log := RunEffects(tracked, ttl, compile, c);
      && (log[k] == Acquired(c) <==> k == 0)
      && (log[k] == Tracked(c) <==> tracked && k == 1)
      && (log[k] == RanCompile <==> k == if tracked then 2 else 1)
      && (log[k] == RanExecute <==> compile.Done? && compile.exitCode == 0 && k == if tracked then 3 else 2)
      && (log[k] == CleanedUp <==> k == |log| - if tracked then 3 else 2)
      && (log[k] == Untracked(c) <==> tracked && k == |log| - 2)
      && (log[k] == Released(c) <==> k == |log| - 1)
  {
    Unwinding(tracked, c);
    if compile.Done? && V.ExecTimedOut(compile, ttl) {
      S.TimedOutIsLate(compile.exitCode, ttl, compile.dur);
    }
    var log := RunEffects(tracked, ttl, compile, c);
    if tracked && |StagesEffects(ttl, compile)| == 2 {
      assert log == [Acquired(c), Tracked(c), RanCompile, RanExecute, CleanedUp, Untracked(c), Released(c)];
    } else if tracked {
      assert log == [Acquired(c), Tracked(c), RanCompile, CleanedUp, Untracked(c), Released(c)];
    } else if |StagesEffects(ttl, compile)| == 2 {
      assert log == [Acquired(c), RanCompile, RanExecute, CleanedUp, Released(c)];
    } else {
      assert log == [Acquired(c), RanCompile, CleanedUp, Released(c)];
    }
  }

  lemma Unwinding(tracked: bool, c: Id)
    ensures Unwound(Defers(tracked), c)
         == if tracked then [CleanedUp, Untracked(c), Released(c)] else [CleanedUp, Released(c)]
  {
    var ds := Defers(tracked);
    assert [DeferRelease][..0] == [];
    assert Unwound([DeferRelease], c) == [Released(c)];
    if tracked {
      assert [DeferRelease, DeferUntrack][..1] == [DeferRelease];
      assert Unwound([DeferRelease, DeferUntrack], c) == [Untracked(c), Released(c)];
      assert ds[..2] == [DeferRelease, DeferUntrack];
    } else {
      assert ds[..1] == [DeferRelease];
    }
  }

  class Runner {
    const pool: PoolObject
    const reaper: Manager?
    const grace: int
    var log: seq<Effect>

    constructor (pool: PoolObject, reaper: Manager?, grace: int)
      ensures this.pool == pool && this.reaper == reaper && this.grace == grace && log == []
    {
      this.pool, this.reaper, this.grace, log := pool, reaper, grace, [];
    }

    // Both stages, with the record filled field by field.
    method Stages(ttl: int, compile: V.Exec, execute: V.Exec) returns (r: Result<V.RunResult, RunError>)
      modifies this
      ensures r == StagesResult(ttl, compile, execute)
      ensures log == old(log) + StagesEffects(ttl, compile)
    {
      log := log + [RanCompile];
      if compile.Failed? {
        return Err(CompileStage);
      }
      var timedOut := V.ExecTimedOut(compile, ttl);
      var res := V.RunResult(V.Compile, false, false, 0, timedOut, false, compile.dur, 0, compile.dur,
                             compile.stdout, compile.stderr, "", "");
      if timedOut || compile.exitCode != 0 {
        return Ok(res);
      }
      res := res.(compiled := true);
      log := log + [RanExecute];
      if execute.Failed? {
        return Err(ExecuteStage);
      }
      res := res.(stage := V.Execute, stdout := execute.stdout, stderr := execute.stderr);
      res := res.(exitCode := execute.exitCode, timedOut := V.ExecTimedOut(execute, ttl));
      res := res.(crashed := V.IsCrash(execute.exitCode), passed := execute.exitCode == 0 && !res.timedOut);
      res := res.(executeTime := execute.dur, duration := compile.dur + execute.dur);
      return Ok(res);
    }

    // Everything deferred except the release, last in, first out.
    method UnwindJob(c: Id, ds: seq<Deferred>)
      requires ds == Defers(reaper != null)
      modifies this, reaper
      ensures log + [Released(c)] == old(log) + Unwound(ds, c)
      ensures reaper != null ==> reaper.deadlines == old(reaper.deadlines) - {c}
    {
      var i := |ds|;
      assert ds[..i] == ds;
      while i > 1
        invariant 1 <= i <= |ds|
        invariant log + Unwound(ds[..i], c) == old(log) + Unwound(ds, c)
        invariant reaper != null ==>
          reaper.deadlines == if i == 1 then old(reaper.deadlines) - {c} else old(reaper.deadlines)
      {
        i := i - 1;
        assert ds[..i + 1][..i] == ds[..i];
        if ds[i] == DeferUntrack {
          reaper.Untrack(c);
        }
        log := log + [EffectOf(ds[i], c)];
      }
      assert ds[..1] == [DeferRelease] && [DeferRelease][..0] == [];
    }

    // The job on container c, from registering it with the reaper to the last
    // deferred call before the release.
    method RunJob(c: Id, ttl: int, now: int, compile: V.Exec, execute: V.Exec)
      returns (r: Result<V.RunResult, RunError>, ghost watched: map<Id, int>)
      modifies this, reaper
      ensures r == StagesResult(ttl, compile, execute)
      ensures reaper != null ==> watched == old(reaper.deadlines)[c := now + ttl + grace]
      ensures log + [Released(c)] == old(log) + JobEffects(reaper != null, ttl, compile, c)
      ensures reaper != null ==> reaper.deadlines == old(reaper.deadlines) - {c}
    {
      hide StagesResult, StagesEffects, Unwound;
      ghost var start := log;
      var deferred := [DeferRelease];
      if reaper != null {
        reaper.Track(c, ttl + grace, now);
        log := log + [Tracked(c)];
        deferred := deferred + [DeferUntrack];
      }
      ghost var tracked := log;
      deferred := deferred + [DeferCleanup];
      watched := if reaper != null then reaper.deadlines else map[];
      r := Stages(ttl, compile, execute);
      UnwindJob(c, deferred);
      Chain(start, if reaper != null then [Tracked(c)] else [], StagesEffects(ttl, compile), Unwound(deferred, c));
    }

    // The job and the release of its container.
    method RunHeld(c: Container, ttl: int, now: int, compile: V.Exec, execute: V.Exec)
      returns (r: Result<V.RunResult, RunError>, ghost watched: map<Id, int>)
      requires pool.Valid() && pool.Owns(c)
      modifies this, pool`all, pool`count, pool`idle, pool.backend, c, reaper
      ensures pool.Valid() && pool.View() == ReleaseSpec(pool.cfg, old(pool.View()), c.id)
      ensures r == StagesResult(ttl, compile, execute)
      ensures log == old(log) + JobEffects(reaper != null, ttl, compile, c.id)
      ensures reaper != null ==> watched == old(reaper.deadlines)[c.id := now + ttl + grace]
      ensures reaper != null ==> reaper.deadlines == old(reaper.deadlines) - {c.id}
    {
      ghost var p := pool.View();
      hide PoolObject.View, ReleaseSpec, JobEffects, StagesResult;
      r, watched := RunJob(c.id, ttl, now, compile, execute);
      assert pool.View() == p;
      pool.Release(c);
      log := log + [Released(c.id)];
    }

    // `now` is the reaper's clock when it registers the job; `compile` and
    // `execute` are what the two sandbox runs would observe. While they run the
    // pool stands at `lent` and the reaper's deadlines are `watched`.
    method Run(ttl: int, now: int, compile: V.Exec, execute: V.Exec)
      returns (r: Result<V.RunResult, RunError>, ghost id: Id, ghost lent: Pool, ghost watched: map<Id, int>)
      requires pool.Valid()
      modifies this, pool, pool.backend, pool.made.Values, reaper
      ensures pool.Valid()
      ensures match r
        case Err(AcquireFailed(e)) =>
          && log == old(log) && (reaper != null ==> reaper.deadlines == old(reaper.deadlines))
          && AcquireSpec(pool.cfg, old(pool.View()), Err(e), pool.View())
        case _ =>
          && r == StagesResult(ttl, compile, execute)
          && log == old(log) + RunEffects(reaper != null, ttl, compile, id)
          && AcquireSpec(pool.cfg, old(pool.View()), Ok(id), lent) && id in lent.jobs
          && pool.View() == ReleaseSpec(pool.cfg, lent, id)
          && (reaper != null ==> watched == old(reaper.deadlines)[id := now + ttl + grace])
          && (reaper != null ==> reaper.deadlines == old(reaper.deadlines) - {id})
    {
      hide PoolObject.View, AcquireSpec, ReleaseSpec, JobEffects, StagesResult;
      NotAcquire(ttl, compile, execute);
      var c := pool.Acquire();
      lent := pool.View();
      if c.Err? {
        return Err(AcquireFailed(c.error)), 0, lent, map[];
      }
      id := c.value.id;
      log := log + [Acquired(c.value.id)];
      assert pool.View() == lent;
      r, watched := RunHeld(c.value, ttl, now, compile, execute);
    }
  }

  lemma Chain(a: seq<Effect>, b: seq<Effect>, c: seq<Effect>, d: seq<Effect>)
    ensures a + b + c + d == a + (b + c + d)
  {
  }

  lemma NotAcquire(ttl: int, compile: V.Exec, execute: V.Exec)
    ensures var r := StagesResult(ttl, compile, execute); r.Err? ==> !r.error.AcquireFailed?
  {
  }
}
