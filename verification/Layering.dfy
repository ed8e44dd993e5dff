// The in-container limits of a job's stages under the reaper's one deadline.
// Times and durations are integer nanoseconds.
module Layering {
  import opened PoolSpec
  import opened Sandbox
  import opened TtlSpec

  // What a job does between Track and Untrack: how long each stage runs, and
  // all the staging and cleaning up around them together.
  datatype Job = Job(stages: seq<int>, extra: int)

  function Sum(ds: seq<int>): int {
    if ds == [] then 0 else Sum(ds[..|ds| - 1]) + ds[|ds| - 1]
  }

  function Elapsed(job: Job): int { Sum(job.stages) + job.extra }

  // Every stage ends by the limit the wrapper applied to it, if it applied one.
  predicate WithinLimits(ttl: int, ds: seq<int>) {
    forall n :: 0 <= n < |ds| ==> 0 <= ds[n] && (ttl > 0 ==> ds[n] <= Limit(ttl) * SECOND)
  }

  predicate Healthy(ttl: int, overhead: int, job: Job) {
    WithinLimits(ttl, job.stages) && 0 <= job.extra <= overhead
  }

  // Operation n of the trace takes effect at clock[n]. Track reads the clock
  // then, a sweep read it some time before.
  predicate Timed(trace: seq<Op>, clock: seq<int>) {
    && |clock| == |trace|
    && (forall m, n :: 0 <= m <= n < |trace| ==> clock[m] <= clock[n])
    && forall n :: 0 <= n < |trace| ==>
         match trace[n]
         case Track(_, _, at) => at == clock[n]
         case Untrack(_) => true
         case Sweep(now) => now <= clock[n]
         case Kill(_) => true
  }

  // Operation i tracks the job's container and operation k untracks it when the
  // job is done; nobody else touches the id in between.
  predicate JobSpan(trace: seq<Op>, clock: seq<int>, i: nat, k: nat, id: Id, ttl: int, grace: int, job: Job) {
    && Timed(trace, clock) && i < k < |trace|
    && trace[i] == Track(id, ttl + grace, clock[i])
    && trace[k] == Untrack(id) && clock[k] == clock[i] + Elapsed(job)
    && forall n :: i < n < k ==>
         match trace[n]
         case Track(other, _, _) => other != id
         case Untrack(other) => other != id
         case _ => true
  }

  // A kill lands on the id while the job is tracked.
  predicate Hit(trace: seq<Op>, i: nat, k: nat, id: Id) {
    exists j :: i < j < k && j < |trace| && trace[j] == Kill(id)
  }

  // The trace is one of the manager's, and the job's Track finds no kill of its
  // container outstanding.
  predicate FreshSpan(trace: seq<Op>, clock: seq<int>, i: nat, k: nat, id: Id, ttl: int, grace: int, job: Job) {
    JobSpan(trace, clock, i, k, id, ttl, grace, job) && Legal(trace) && id !in Waiting(trace, i)
  }

  // No healthy job of that many stages is ever hit, whatever else is tracked,
  // swept and killed around it.
  ghost predicate NeverReaped(stages: nat, ttl: int, grace: int, overhead: int) {
    forall trace: seq<Op>, clock: seq<int>, i: nat, k: nat, id: Id, job: Job ::
      FreshSpan(trace, clock, i, k, id, ttl, grace, job) && |job.stages| == stages && Healthy(ttl, overhead, job) ==>
        !Hit(trace, i, k, id)
  }

  // There are limits, and they leave room for the deadline.
  predicate Layered(stages: nat, ttl: int, grace: int, overhead: int) {
    ttl > 0 && stages * (Limit(ttl) * SECOND) + overhead < ttl + grace
  }

  lemma {:induction false} SumBound(ds: seq<int>, limit: int)
    requires forall n :: 0 <= n < |ds| ==> ds[n] <= limit
    ensures Sum(ds) <= |ds| * limit
  {
    if ds != [] {
      SumBound(ds[..|ds| - 1], limit);
      assert |ds| * limit == (|ds| - 1) * limit + limit;
    }
  }

  // All stages run equally long.
  lemma {:induction false} SumEqual(count: nat, d: int)
    ensures Sum(seq(count, _ => d)) == count * d
  {
    if count > 0 {
      assert seq(count, _ => d)[..count - 1] == seq(count - 1, _ => d);
      SumEqual(count - 1, d);
      assert count * d == (count - 1) * d + d;
    }
  }

  // Only the first stage takes any time.
  lemma {:induction false} SumFirst(count: nat, d: int)
    requires count >= 1
    ensures Sum(seq(count, n => if n == 0 then d else 0)) == d
  {
    if count > 1 {
      assert seq(count, n => if n == 0 then d else 0)[..count - 1] == seq(count - 1, n => if n == 0 then d else 0);
      SumFirst(count - 1, d);
    }
  }

  // When the deadline lies behind the end of the job, no sweep takes its id.
  lemma SpanNotTaken(trace: seq<Op>, clock: seq<int>, i: nat, k: nat, id: Id, ttl: int, grace: int, job: Job, j: nat)
    requires JobSpan(trace, clock, i, k, id, ttl, grace, job) && Elapsed(job) < ttl + grace && i < j < k
    ensures id !in Taken(trace, j)
  {
    if trace[j].Sweep? {
      forall n | i < n < j && trace[n].Sweep? ensures trace[n].now < Due(trace[i]) {
        assert trace[n].now <= clock[n] <= clock[k];
      }
      assert Pending(trace, i, j, id);
      TrackedIffPending(trace, j, id);
      assert trace[j].now <= clock[j] <= clock[k];
    }
  }

  // So its id waits to be killed only if it did at the Track, and until a kill.
  lemma {:induction false} SpanWaiting(trace: seq<Op>, clock: seq<int>, i: nat, k: nat, id: Id,
                                     ttl: int, grace: int, job: Job, n: nat)
    requires JobSpan(trace, clock, i, k, id, ttl, grace, job) && Elapsed(job) < ttl + grace && i < n <= k
    ensures id in Waiting(trace, n) <==> id in Waiting(trace, i) && !Hit(trace, i, n, id)
  {
    if n > i + 1 {
      SpanWaiting(trace, clock, i, k, id, ttl, grace, job, n - 1);
      SpanNotTaken(trace, clock, i, k, id, ttl, grace, job, n - 1);
      assert Hit(trace, i, n, id) <==> Hit(trace, i, n - 1, id) || trace[n - 1] == Kill(id);
    }
  }

  // A job that ends before its deadline is hit if and only if a kill of its
  // container was outstanding when it was tracked and no longer is when it is
  // untracked.
  lemma HitIff(trace: seq<Op>, clock: seq<int>, i: nat, k: nat, id: Id, ttl: int, grace: int, job: Job)
    requires JobSpan(trace, clock, i, k, id, ttl, grace, job) && Legal(trace) && Elapsed(job) < ttl + grace
    ensures Hit(trace, i, k, id) <==> id in Waiting(trace, i) && id !in Waiting(trace, k)
  {
    SpanWaiting(trace, clock, i, k, id, ttl, grace, job, k);
    if Hit(trace, i, k, id) {
      var j :| i < j < k && trace[j] == Kill(id);
      SpanWaiting(trace, clock, i, k, id, ttl, grace, job, j);
    }
  }

  // A job that is done no earlier than its deadline can be hit at the last moment.
  lemma HitAtLast(ttl: int, grace: int, job: Job) returns (trace: seq<Op>, clock: seq<int>)
    requires 0 <= Elapsed(job) && ttl + grace <= Elapsed(job)
    ensures FreshSpan(trace, clock, 0, 3, 0, ttl, grace, job) && Hit(trace, 0, 3, 0)
  {
    trace := [Track(0, ttl + grace, 0), Sweep(Elapsed(job)), Kill(0), Untrack(0)];
    clock := [0, Elapsed(job), Elapsed(job), Elapsed(job)];
    assert DeadlinesAt(trace, 1) == map[0 := ttl + grace];
    assert 0 in Taken(trace, 1);
    assert 0 in Waiting(trace, 2);
    assert trace[2] == Kill(0);
  }

  // Without layered limits there is a healthy job that outlasts its deadline.
  lemma LongestJob(stages: nat, ttl: int, grace: int, overhead: nat) returns (job: Job)
    requires stages >= 1 && !Layered(stages, ttl, grace, overhead)
    ensures Healthy(ttl, overhead, job) && |job.stages| == stages
    ensures 0 <= Elapsed(job) && ttl + grace <= Elapsed(job)
  {
    if ttl > 0 {
      var d := Limit(ttl) * SECOND;
      job := Job(seq(stages, _ => d), overhead);
      SumEqual(stages, d);
    } else {
      var d := if ttl + grace > 0 then ttl + grace else 0;
      job := Job(seq(stages, n => if n == 0 then d else 0), 0);
      SumFirst(stages, d);
    }
  }

  // Jobs whose stages end by their limits, and whose containers are not still to
  // be killed for an earlier job, are never hit if and only if there are limits
  // and all of them together, with the overhead, end before the deadline. A TTL
  // of zero or less sets no limit.
  lemma NeverReapedIff(stages: nat, ttl: int, grace: int, overhead: nat)
    requires stages >= 1
    ensures NeverReaped(stages, ttl, grace, overhead) <==> Layered(stages, ttl, grace, overhead)
  {
    if Layered(stages, ttl, grace, overhead) {
      forall trace: seq<Op>, clock: seq<int>, i: nat, k: nat, id: Id, job: Job |
        FreshSpan(trace, clock, i, k, id, ttl, grace, job) && |job.stages| == stages && Healthy(ttl, overhead, job)
        ensures !Hit(trace, i, k, id)
      {
        SumBound(job.stages, Limit(ttl) * SECOND);
        HitIff(trace, clock, i, k, id, ttl, grace, job);
      }
    } else {
      var job := LongestJob(stages, ttl, grace, overhead);
      var trace, clock := HitAtLast(ttl, grace, job);
    }
  }

  // Whatever the settings, a healthy job can be hit by the kill of a sweep that
  // took its container from the job before it.
  lemma NoSettingProtects(stages: nat, ttl: int, grace: int, overhead: nat)
    returns (trace: seq<Op>, clock: seq<int>, job: Job)
    ensures Legal(trace) && JobSpan(trace, clock, 3, 5, 0, ttl, grace, job) && Hit(trace, 3, 5, 0)
    ensures Healthy(ttl, overhead, job) && |job.stages| == stages
  {
    job := Job(seq(stages, _ => 0), 0);
    SumEqual(stages, 0);
    trace := [Track(0, 1, 0), Sweep(1), Untrack(0), Track(0, ttl + grace, 1), Kill(0), Untrack(0)];
    clock := [0, 1, 1, 1, 1, 1];
    assert DeadlinesAt(trace, 1) == map[0 := 1];
    assert 0 in Waiting(trace, 2);
    assert Waiting(trace, 4) == Waiting(trace, 3) == Waiting(trace, 2);
    assert trace[4] == Kill(0);
  }

  // A grace of the TTL plus two seconds plus the overhead is enough for two stages.
  lemma GraceSuffices(ttl: int, grace: int, overhead: nat)
    requires ttl > 0 && ttl + 2 * SECOND + overhead <= grace
    ensures NeverReaped(2, ttl, grace, overhead)
  {
    NeverReapedIff(2, ttl, grace, overhead);
  }

  // The default grace of 30 s does not cover two full stages of the command
  // line's default TTL of 60 s, but it does cover one; with a TTL of zero no
  // grace covers anything.
  lemma DefaultsNotLayered(overhead: nat, grace: int)
    ensures !NeverReaped(2, 60 * SECOND, 30 * SECOND, overhead)
    ensures NeverReaped(1, 60 * SECOND, 30 * SECOND, overhead) <==> overhead < 30 * SECOND
    ensures !NeverReaped(1, 0, grace, overhead)
  {
    assert Limit(60 * SECOND) == 60;
    NeverReapedIff(2, 60 * SECOND, 30 * SECOND, overhead);
    NeverReapedIff(1, 60 * SECOND, 30 * SECOND, overhead);
    NeverReapedIff(1, 0, grace, overhead);
  }
}
