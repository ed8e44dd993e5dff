// From the outcomes of the two stages to the public verdict.
module Verdict {
  import opened Prelude
  import opened Sandbox

  // What sandbox.Run observed: an error, or an exit code, a duration and output.
  datatype Exec = Failed | Done(exitCode: int, dur: int, stdout: string, stderr: string)

  datatype Stage = Compile | Execute

  datatype RunResult = RunResult(
    stage: Stage, compiled: bool, passed: bool, exitCode: int,
    timedOut: bool, crashed: bool, compileTime: int, executeTime: int, duration: int,
    compilerJson: string, compilerRaw: string, stdout: string, stderr: string)

  predicate IsCrash(exitCode: int) { exitCode >= 128 }

  predicate ExecTimedOut(e: Exec, ttl: int)
    requires e.Done?
  {
    TimedOut(e.exitCode, Limit(ttl), e.dur)
  }

  // The record filled at the compile stage; execution runs only if it compiled.
  function CompileResult(ttl: int, compile: Exec): RunResult
    requires compile.Done?
  {
    var timedOut := ExecTimedOut(compile, ttl);
    RunResult(Compile, !timedOut && compile.exitCode == 0, false, 0, timedOut, false, compile.dur, 0, compile.dur,
              compile.stdout, compile.stderr, "", "")
  }

  function ExecuteResult(ttl: int, compile: Exec, execute: Exec): RunResult
    requires compile.Done? && execute.Done?
  {
    var timedOut := ExecTimedOut(execute, ttl);
    CompileResult(ttl, compile).(
      stage := Execute, exitCode := execute.exitCode, timedOut := timedOut,
      crashed := IsCrash(execute.exitCode), passed := execute.exitCode == 0 && !timedOut,
      executeTime := execute.dur, duration := compile.dur + execute.dur,
      stdout := execute.stdout, stderr := execute.stderr)
  }

  // The result of both stages; None stands for a stage error.
  function Outcomes(ttl: int, compile: Exec, execute: Exec): Option<RunResult> {
    if compile.Failed? then None
    else if !CompileResult(ttl, compile).compiled then Some(CompileResult(ttl, compile))
    else if execute.Failed? then None
    else Some(ExecuteResult(ttl, compile, execute))
  }

  datatype Outcome = Passed | CompileError | RuntimeError | TestFailed

  function Classify(r: RunResult): Outcome {
    if !r.compiled then CompileError
    else if r.passed then Passed
    else if r.timedOut || r.crashed then RuntimeError
    else TestFailed
  }

  // The verdict depends on the exit codes alone, for every TTL and duration.
  lemma EndToEnd(ttl: int, compile: Exec, execute: Exec)
    requires Outcomes(ttl, compile, execute).Some?
    ensures compile.Done? && (compile.exitCode == 0 ==> execute.Done?)
    ensures var v := Classify(Outcomes(ttl, compile, execute).value);
      && (v == CompileError <==> compile.exitCode != 0)
      && (v == Passed <==> compile.exitCode == 0 && execute.exitCode == 0)
      && (v == RuntimeError <==> compile.exitCode == 0 && execute.exitCode >= 128)
      && (v == TestFailed <==> compile.exitCode == 0 && execute.exitCode != 0 && execute.exitCode < 128)
    ensures var r := Outcomes(ttl, compile, execute).value; r.timedOut ==> !r.passed && Classify(r) != Passed
  {
    var r := Outcomes(ttl, compile, execute).value;
    if ExecTimedOut(compile, ttl) {
      TimedOutIsLate(compile.exitCode, ttl, compile.dur);
    }
    if r.stage.Execute? && ExecTimedOut(execute, ttl) {
      TimedOutIsLate(execute.exitCode, ttl, execute.dur);
    }
  }

  // What the two stages are blamed for: the record has reached the execute stage
  // exactly when it compiled, and only a compiled submission can pass, crash or
  // have run for any time.
  lemma Attribution(ttl: int, compile: Exec, execute: Exec)
    requires Outcomes(ttl, compile, execute).Some?
    ensures var r := Outcomes(ttl, compile, execute).value;
      && (r.compiled <==> r.stage.Execute?) && (r.passed || r.crashed || r.executeTime != 0 ==> r.compiled)
      && r.duration == r.compileTime + r.executeTime && r.compileTime == compile.dur
      && (r.compiled ==> r.exitCode == execute.exitCode && r.executeTime == execute.dur)
      && r.compilerJson == compile.stdout && r.compilerRaw == compile.stderr
      && (r.stdout, r.stderr) == (if r.compiled then (execute.stdout, execute.stderr) else ("", ""))
      && (r.timedOut <==> ExecTimedOut(if r.compiled then execute else compile, ttl))
  {
    if ExecTimedOut(compile, ttl) {
      TimedOutIsLate(compile.exitCode, ttl, compile.dur);
    }
  }
}
