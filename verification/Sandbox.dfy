// The in-container timeout. Durations are integer nanoseconds.
module Sandbox {
  const SECOND: int := 1_000_000_000

  // The command under `timeout -s KILL`, and the whole-second limit applied.
  function WrapWithTimeout(cmd: seq<string>, ttl: int, showSeconds: int -> string): (r: (seq<string>, int))
    ensures ttl <= 0 ==> r == (cmd, 0)
    ensures ttl > 0 ==> ttl <= r.1 * SECOND < ttl + SECOND && r.1 >= 1
    ensures ttl > 0 ==> r.0 == ["timeout", "-s", "KILL", showSeconds(r.1)] + cmd
  {
    if ttl <= 0 then (cmd, 0)
    else
      var secs := (ttl + SECOND - 1) / SECOND;
      (["timeout", "-s", "KILL", showSeconds(secs)] + cmd, secs)
  }

  // The limit alone.
  function Limit(ttl: int): int { WrapWithTimeout([], ttl, _ => "").1 }

  predicate TimedOut(exitCode: int, ttlSecs: int, dur: int) {
    && ttlSecs > 0
    && (exitCode == 137 || exitCode == 143)
    && dur >= ttlSecs * SECOND - SECOND / 2
  }

  // A death by SIGKILL (9) or SIGTERM (15), and no other end, is taken for a
  // timeout, exactly from half a second before the limit that was applied.
  lemma TimedOutIff(exitCode: int, ttl: int, dur: int)
    ensures TimedOut(exitCode, Limit(ttl), dur) <==>
      exitCode - 128 in {9, 15} && ttl > 0 && 2 * dur >= (2 * Limit(ttl) - 1) * SECOND
  {
  }

  // A job timed out only after all but half a second of its own TTL, and never
  // with exit code 0.
  lemma TimedOutIsLate(exitCode: int, ttl: int, dur: int)
    requires TimedOut(exitCode, Limit(ttl), dur)
    ensures exitCode >= 128 && ttl > 0 && dur >= ttl - SECOND / 2
  {
    TimedOutIff(exitCode, ttl, dur);
  }
}
