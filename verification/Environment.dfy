// The environment: a warm pool, the reaper whose kill removes containers from
// that pool, and the public Verify.
module Environment {
  import opened Prelude
  import opened PoolSpec
  import opened PoolObject
  import opened Pipeline
  import opened Reaper
  import opened Diagnostics
  import GoDiagnostics
  import Protocol
  import RustDiagnostics
  import Sandbox
  import Text
  import V = Verdict

  const DEFAULT_SWEEP: int := 5 * Sandbox.SECOND
  const DEFAULT_GRACE: int := 30 * Sandbox.SECOND

  // A configured duration, or the default when it is not positive.
  function OrDefault(configured: int, fallback: int): int {
    if configured <= 0 then fallback else configured
  }

  datatype Lang = Go | Rust

  // The answer for one submission; `assignment` is the time it took to get a
  // container.
  datatype Answer = Answer(
    outcome: V.Outcome, diagnostics: seq<Diagnostic>, compilerOutput: string, stdout: string, stderr: string,
    exitCode: int, timedOut: bool, duration: int, assignment: int, compile: int, execute: int)

  // The diagnostics in what the compile stage printed: Go's compiler reports on
  // stderr, Rust's on stdout. `decode` decodes one JSON line.
  function DiagnosticsIn(lang: Lang, decode: string -> Option<RustDiagnostics.RustLine>, compile: V.Exec)
    : seq<Diagnostic>
    requires compile.Done?
  {
    match lang
    case Go => GoDiagnostics.LinesDiagnostics(Text.SplitOn(compile.stderr, '\n'))
    case Rust => RustDiagnostics.ParseRustSpec(decode, compile.stdout)
  }

  // What the answer's outcome says about the two exit codes.
  predicate OutcomeFits(v: V.Outcome, compile: V.Exec, execute: V.Exec) {
    && compile.Done? && (compile.exitCode == 0 ==> execute.Done?)
    && (v == V.CompileError <==> compile.exitCode != 0)
    && (v == V.Passed <==> compile.exitCode == 0 && execute.exitCode == 0)
    && (v == V.RuntimeError <==> compile.exitCode == 0 && execute.exitCode >= 128)
  }

  // The rest of the answer comes from the stage that decided it: the compile
  // stage if that failed, the execute stage otherwise.
  predicate AnswerFits(a: Answer, ttl: int, compile: V.Exec, execute: V.Exec) {
    && OutcomeFits(a.outcome, compile, execute)
    && a.compilerOutput == compile.stderr && a.compile == compile.dur && a.duration == a.compile + a.execute
    && (if compile.exitCode != 0
        then a.stdout == a.stderr == "" && a.exitCode == a.execute == 0 && a.timedOut == V.ExecTimedOut(compile, ttl)
        else a.stdout == execute.stdout && a.stderr == execute.stderr && a.exitCode == execute.exitCode
             && a.execute == execute.dur && a.timedOut == V.ExecTimedOut(execute, ttl))
  }

  lemma Answered(ttl: int, compile: V.Exec, execute: V.Exec)
    requires V.Outcomes(ttl, compile, execute).Some?
    ensures var r := V.Outcomes(ttl, compile, execute).value;
      && r.compilerRaw == compile.stderr && r.compilerJson == compile.stdout
      && forall ds, assignment :: AnswerFits(AnswerOf(r, ds, assignment), ttl, compile, execute)
  {
    V.EndToEnd(ttl, compile, execute);
    V.Attribution(ttl, compile, execute);
  }

  function AnswerOf(r: V.RunResult, ds: seq<Diagnostic>, assignment: int): Answer {
    Answer(V.Classify(r), ds, r.compilerRaw, r.stdout, r.stderr,
           r.exitCode, r.timedOut, r.duration, assignment, r.compileTime, r.executeTime)
  }

  method DiagnosticsFor(lang: Lang, decode: string -> Option<RustDiagnostics.RustLine>, r: V.RunResult)
    returns (ds: seq<Diagnostic>)
    ensures forall c: V.Exec :: c.Done? && r.compilerRaw == c.stderr && r.compilerJson == c.stdout ==>
              ds == DiagnosticsIn(lang, decode, c)
  {
    match lang {
      case Go => ds := GoDiagnostics.ParseGo(r.compilerRaw);
      case Rust => ds := RustDiagnostics.ParseRust(decode, r.compilerJson);
    }
  }

  class Env {
    const pool: PoolObject
    const reaper: Manager
    const sweep: int
    const grace: int
    var cancelled: bool
    var reaperDone: bool

    constructor (pool: PoolObject, reaper: Manager, sweep: int, grace: int)
      ensures this.pool == pool && this.reaper == reaper && this.sweep == sweep && this.grace == grace
      ensures !cancelled && !reaperDone
    {
      this.pool, this.reaper, this.sweep, this.grace := pool, reaper, sweep, grace;
      cancelled, reaperDone := false, false;
    }

    ghost predicate Valid()
      reads this, pool, pool.backend
    {
      pool.Valid() && reaper.pool == pool && sweep > 0 && grace > 0
    }

    // The environment as the protocol sees it before anything has started.
    ghost function View(clock: int): Protocol.State
      reads this, pool, pool.backend, pool.made.Values, reaper
    {
      Protocol.State(
        Protocol.Shared(pool.View(), reaper.deadlines, clock, cancelled, reaperDone),
        map[Protocol.SWEEPER := Protocol.Sweeper(Protocol.SweepStage.Idle)])
    }

    // The verdict on one submission. `id` is the container it borrowed from the
    // pool, which then stood at `lent`; `assignment` is how long that took, and
    // `watched` are the reaper's deadlines while the stages run.
    method Verify(lang: Lang, decode: string -> Option<RustDiagnostics.RustLine>, ttl: int, now: int, assignment: int,
                  compile: V.Exec, execute: V.Exec)
      returns (r: Result<Answer, RunError>, ghost id: Id, ghost lent: Pool, ghost watched: map<Id, int>)
      requires Valid()
      modifies pool, pool.backend, pool.made.Values, reaper
      ensures Valid()
      ensures match r
        case Ok(v) =>
          && AnswerFits(v, ttl, compile, execute) && v.assignment == assignment
          && v.diagnostics == (if lang.Go? then GoDiagnostics.LinesDiagnostics(Text.SplitOn(compile.stderr, '\n'))
                               else RustDiagnostics.ParseRustSpec(decode, compile.stdout))
        case Err(e) => (e == CompileStage ==> compile.Failed?) && (e == ExecuteStage ==> execute.Failed?)
      ensures match r
        case Err(AcquireFailed(e)) =>
          && reaper.deadlines == old(reaper.deadlines)
          && AcquireSpec(pool.cfg, old(pool.View()), Err(e), pool.View())
        case _ =>
          && watched == old(reaper.deadlines)[id := now + ttl + grace]
          && reaper.deadlines == old(reaper.deadlines) - {id}
          && AcquireSpec(pool.cfg, old(pool.View()), Ok(id), lent) && id in lent.jobs
          && pool.View() == ReleaseSpec(pool.cfg, lent, id)
    {
      hide PoolObject.View, AcquireSpec, ReleaseSpec, RunEffects, V.Classify, AnswerFits;
      var runner := new Runner(pool, reaper, grace);
      var res;
      res, id, lent, watched := runner.Run(ttl, now, compile, execute);
      if res.Err? {
        return Err(res.error), id, lent, watched;
      }
      Answered(ttl, compile, execute);
      var v := res.value;
      var ds := DiagnosticsFor(lang, decode, v);
      var answer := Answer(V.Classify(v), ds, v.compilerRaw, v.stdout, v.stderr,
                           v.exitCode, v.timedOut, v.duration, assignment, v.compileTime, v.executeTime);
      assert answer == AnswerOf(v, ds, assignment);
      return Ok(answer), id, lent, watched;
    }

    // Stops the reaper, waits for it, and closes the pool.
    method Close() returns (firstErr: Option<Id>)
      requires Valid()
      modifies this, pool`all, pool`count, pool`closed, pool`done, pool.backend
      ensures Valid() && cancelled && reaperDone
      ensures pool.View() == CloseSpec(old(pool.View())) && reaper.deadlines == old(reaper.deadlines)
      ensures FirstFailure(old(pool.backend.failures), pool.backend.failures, firstErr)
    {
      cancelled := true;
      reaperDone := true;
      firstErr := pool.Close();
    }
  }

  // A new environment on a fresh runtime is where every run of the protocol starts.
  method NewEnv(backend: Backend, cfg: Config, sweepInterval: int, reaperGrace: int, ghost clock: int)
    returns (r: Result<Env, NewError>)
    requires backend.Valid()
    modifies backend
    ensures r == Err(InvalidConfig) <==> cfg.maxSize < 1 || cfg.minWarm > cfg.maxSize
    ensures r.Err? ==> backend.Valid() && backend.created - old(backend.created) <= backend.removed
    ensures r.Ok? ==> fresh(r.value) && r.value.Valid() && r.value.pool.backend == backend
    ensures r.Ok? ==> r.value.sweep == if sweepInterval > 0 then sweepInterval else 5_000_000_000
    ensures r.Ok? ==> r.value.grace == if reaperGrace > 0 then reaperGrace else 30_000_000_000
    ensures r.Ok? && old(backend.created) == {} && old(backend.removed) == {} ==>
              forall direct: bool :: Protocol.Init(Protocol.Setup(cfg, direct), r.value.View(clock))
  {
    hide PoolObject.View, Protocol.Prewarmed, Warmed;
    var p := New(backend, cfg);
    if p.Err? {
      return Err(p.error);
    }
    var reaper := new Manager(p.value);
    var env := new Env(p.value, reaper, OrDefault(sweepInterval, DEFAULT_SWEEP), OrDefault(reaperGrace, DEFAULT_GRACE));
    return Ok(env);
  }
}
