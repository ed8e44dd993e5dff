// When the reaper's sweeps happen. A ticker with a one-tick buffer drives the
// loop, and a sweep runs its kills before the loop looks at the ticker again.
module Schedule {
  import opened PoolSpec
  import opened TtlSpec
  import opened Layering

  // The ticker starts at `start`; sweep n keeps the loop busy for busy(n).
  datatype Ticker = Ticker(start: int, interval: int, busy: nat -> nat)

  predicate Ticking(t: Ticker) { t.interval > 0 }

  // The first tick after a moment.
  function NextTick(t: Ticker, now: int): (tick: int)
    requires Ticking(t) && now >= t.start
    ensures now < tick <= now + t.interval
  {
    t.start + ((now - t.start) / t.interval + 1) * t.interval
  }

  // When sweep n starts: at the tick after the start of the sweep before it, or
  // as soon as that sweep is over if the tick is already waiting by then.
  function SweepAt(t: Ticker, n: nat): (now: int)
    requires Ticking(t)
    ensures now >= t.start + t.interval
    ensures n > 0 ==> now >= SweepAt(t, n - 1) + t.busy(n - 1)
  {
    if n == 0 then t.start + t.interval
    else
      var last := SweepAt(t, n - 1);
      var tick, over := NextTick(t, last), last + t.busy(n - 1);
      if tick < over then over else tick
  }

  // Tick j of the ticker.
  function TickAt(t: Ticker, j: nat): int { t.start + j * t.interval }

  lemma NextTickIsTick(t: Ticker, now: int) returns (j: nat)
    requires Ticking(t) && now >= t.start
    ensures NextTick(t, now) == TickAt(t, j)
    ensures forall i: nat :: now < TickAt(t, i) ==> TickAt(t, j) <= TickAt(t, i)
  {
    j := (now - t.start) / t.interval + 1;
    forall i: nat | now < TickAt(t, i) ensures TickAt(t, j) <= TickAt(t, i) {
      if i < j {
        Multiples(i, j - 1, t.interval);
      } else {
        Multiples(j, i, t.interval);
      }
    }
  }

  lemma Multiples(a: nat, b: nat, factor: nat)
    requires a <= b
    ensures a * factor <= b * factor
  {
  }

  // The next sweep starts as soon as the last one is over and a tick has come
  // since it started: on that tick, or, if it waits already, at once.
  lemma SweepOnTick(t: Ticker, n: nat) returns (j: nat)
    requires Ticking(t)
    ensures var last, next := SweepAt(t, n), SweepAt(t, n + 1);
      && last < TickAt(t, j) <= next && (next == TickAt(t, j) || next == last + t.busy(n))
      && forall i: nat :: last < TickAt(t, i) ==> TickAt(t, j) <= TickAt(t, i)
  {
    j := NextTickIsTick(t, SweepAt(t, n));
  }

  function Max(a: int, b: int): int { if a < b then b else a }

  // How long the next sweep can be off when sweep n is the one before it.
  function Gap(t: Ticker, n: nat): int { Max(t.interval, t.busy(n)) }

  lemma NextWithinGap(t: Ticker, n: nat)
    requires Ticking(t)
    ensures SweepAt(t, n) < SweepAt(t, n + 1) <= SweepAt(t, n) + Gap(t, n)
    ensures SweepAt(t, n) + t.busy(n) <= SweepAt(t, n + 1)
  {
  }

  lemma {:induction false} SweepsInOrder(t: Ticker, m: nat, n: nat)
    requires Ticking(t) && m <= n
    ensures SweepAt(t, m) + (n - m) <= SweepAt(t, n)
  {
    hide SweepAt, Gap;
    if m < n {
      SweepsInOrder(t, m, n - 1);
      NextWithinGap(t, n - 1);
    }
  }

  // ---- the first sweep at or after a moment ----

  // Sweep n is the first that starts at or after `due`.
  predicate FirstSince(t: Ticker, due: int, n: nat)
    requires Ticking(t)
  {
    due <= SweepAt(t, n) && (n > 0 ==> SweepAt(t, n - 1) < due)
  }

  // There always is one.
  lemma FirstSinceExists(t: Ticker, due: int) returns (n: nat)
    requires Ticking(t)
    ensures FirstSince(t, due, n)
  {
    n := 0;
    while SweepAt(t, n) < due
      invariant n > 0 ==> SweepAt(t, n - 1) < due
      decreases due - SweepAt(t, n)
    {
      NextWithinGap(t, n);
      n := n + 1;
    }
  }

  // It starts within an interval, or within the time the sweep in progress takes
  // if that is longer.
  lemma FirstSinceBound(t: Ticker, due: int, n: nat)
    requires Ticking(t) && due > t.start && FirstSince(t, due, n)
    ensures SweepAt(t, n) < due + if n == 0 then t.interval else Gap(t, n - 1)
  {
    if n > 0 {
      NextWithinGap(t, n - 1);
    }
  }

  // Some sweep starts less than one interval after `due`.
  ghost predicate Prompt(t: Ticker, due: int)
    requires Ticking(t)
  {
    exists n: nat :: due <= SweepAt(t, n) < due + t.interval
  }

  // Every moment is followed by a sweep within one interval if and only if no
  // sweep takes longer than an interval.
  lemma PromptIff(t: Ticker)
    requires Ticking(t)
    ensures (forall due: int :: due > t.start ==> Prompt(t, due)) <==> (forall n: nat :: t.busy(n) <= t.interval)
  {
    if forall n: nat :: t.busy(n) <= t.interval {
      forall due: int | due > t.start ensures Prompt(t, due) {
        var n := FirstSinceExists(t, due);
        FirstSinceBound(t, due, n);
      }
    } else {
      var n: nat :| t.busy(n) > t.interval;
      LateSweep(t, n);
    }
  }

  // Just after the start of a sweep that outlasts the interval, one has to wait longer.
  lemma LateSweep(t: Ticker, n: nat)
    requires Ticking(t) && t.busy(n) > t.interval
    ensures SweepAt(t, n) + 1 > t.start && !Prompt(t, SweepAt(t, n) + 1)
  {
    hide SweepAt, Gap;
    var due := SweepAt(t, n) + 1;
    NextWithinGap(t, n);
    forall m: nat ensures !(due <= SweepAt(t, m) < due + t.interval) {
      if m <= n {
        SweepsInOrder(t, m, n);
      } else {
        SweepsInOrder(t, n + 1, m);
      }
    }
  }

  // ---- in a trace of the manager's operations ----

  function SweepCount(trace: seq<Op>, k: nat): nat
    requires k <= |trace|
  {
    if k == 0 then 0 else SweepCount(trace, k - 1) + if trace[k - 1].Sweep? then 1 else 0
  }

  // The sweeps of the trace are those of the ticker, in order.
  predicate Driven(trace: seq<Op>, t: Ticker)
    requires Ticking(t)
  {
    forall k :: 0 <= k < |trace| && trace[k].Sweep? ==> trace[k].now == SweepAt(t, SweepCount(trace, k))
  }

  lemma FirstSweepAt(t: Ticker)
    requires Ticking(t)
    ensures SweepAt(t, 0) == t.start + t.interval
  {
  }

  lemma {:induction false} SweepBefore(trace: seq<Op>, k: nat) returns (j: nat)
    requires k <= |trace| && SweepCount(trace, k) > 0
    ensures j < k && trace[j].Sweep? && SweepCount(trace, j) == SweepCount(trace, k) - 1
  {
    if trace[k - 1].Sweep? {
      j := k - 1;
    } else {
      j := SweepBefore(trace, k - 1);
    }
  }

  // A job still tracked when its deadline is past is taken by the next sweep.
  // That sweep starts within one interval of the moment the id is both tracked
  // and due, or, if the sweep in progress then takes longer, when that is over.
  lemma TakenByNextSweep(trace: seq<Op>, clock: seq<int>, t: Ticker, i: nat, k: nat, id: Id)
    requires Ticking(t) && Driven(trace, t) && Timed(trace, clock)
    requires k < |trace| && trace[k].Sweep? && Pending(trace, i, k, id) && Due(trace[i]) <= trace[k].now
    requires clock[i] >= t.start
    ensures id in Taken(trace, k)
    ensures var n := SweepCount(trace, k);
      trace[k].now <= Max(Due(trace[i]), clock[i]) + if n == 0 then t.interval else Gap(t, n - 1)
  {
    FirstSweepTakes(trace, i, k, id);
    hide SweepAt, Gap, Taken, DeadlinesAt, SweepCount;
    var n := SweepCount(trace, k);
    if n == 0 {
      FirstSweepAt(t);
    } else {
      var j := SweepBefore(trace, k);
      NextWithinGap(t, n - 1);
      assert trace[j].now <= Max(Due(trace[i]), clock[i]) by {
        if j <= i {
          assert trace[j].now <= clock[j] <= clock[i];
        }
      }
    }
  }
}
