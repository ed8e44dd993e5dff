// The bench runner: a dispatcher feeds job indices to workers over an
// unbuffered channel, and each worker writes its own result cells.
module Bench {
  import opened Prelude

  datatype Worker = Receiving | Verifying(i: nat) | Returned

  // `next` is the index the dispatcher sends next, `closed` whether it has
  // closed the channel, `writes` how often each result cell has been written.
  datatype State<R> = State(next: nat, closed: bool, workers: seq<Worker>, results: seq<Option<R>>, writes: seq<nat>)

  datatype Action = Handoff(w: nat) | Write(w: nat) | Close | Leave(w: nat)

  // At least one worker, whatever the caller asks for.
  function WorkerCount(workers: int): nat { if workers < 1 then 1 else workers }

  function Start<R>(n: nat, workers: int): State<R> {
    State(0, false, seq(WorkerCount(workers), _ => Receiving), seq(n, _ => None), seq(n, _ => 0))
  }

  predicate Enabled<R>(n: nat, s: State<R>, a: Action) {
    match a
    case Handoff(w) => s.next < n && w < |s.workers| && s.workers[w].Receiving?
    case Write(w) => w < |s.workers| && s.workers[w].Verifying? && s.workers[w].i < |s.results| == |s.writes|
    case Close => s.next >= n && !s.closed
    case Leave(w) => s.closed && w < |s.workers| && s.workers[w].Receiving?
  }

  // `verify` is what verifyOne returns for each index.
  function Step<R>(n: nat, verify: nat -> R, s: State<R>, a: Action): State<R>
    requires Enabled(n, s, a)
  {
    match a
    case Handoff(w) => s.(next := s.next + 1, workers := s.workers[w := Verifying(s.next)])
    case Write(w) =>
      var i := s.workers[w].i;
      s.(workers := s.workers[w := Receiving], results := s.results[i := Some(verify(i))],
         writes := s.writes[i := s.writes[i] + 1])
    case Close => s.(closed := true)
    case Leave(w) => s.(workers := s.workers[w := Returned])
  }

  // Every worker has returned: wg.Wait() lets runBench return.
  predicate Finished<R>(s: State<R>) {
    s.closed && forall w :: 0 <= w < |s.workers| ==> s.workers[w].Returned?
  }

  predicate InHand<R>(s: State<R>, i: nat) {
    exists w :: 0 <= w < |s.workers| && s.workers[w] == Verifying(i)
  }

  // Indices not yet sent are untouched; each sent index is with exactly one
  // worker and unwritten, or written once with its own result.
  ghost predicate Inv<R(!new)>(n: nat, verify: nat -> R, s: State<R>) {
    && s.next <= n == |s.results| == |s.writes| && (s.closed ==> s.next == n)
    && |s.workers| > 0
    && (forall w :: 0 <= w < |s.workers| && s.workers[w].Verifying? ==> s.workers[w].i < s.next)
    && (forall v, w :: 0 <= v < w < |s.workers| && s.workers[v].Verifying? ==> s.workers[v] != s.workers[w])
    && (forall w :: 0 <= w < |s.workers| && s.workers[w].Returned? ==> s.closed)
    && (forall i: nat :: i < n ==>
          if i >= s.next || InHand(s, i) then s.results[i] == None && s.writes[i] == 0
          else s.results[i] == Some(verify(i)) && s.writes[i] == 1)
  }

  lemma InvStart<R(!new)>(n: nat, verify: nat -> R, workers: int)
    ensures Inv(n, verify, Start<R>(n, workers))
  {
  }

  lemma HandsUpdate<R(!new)>(n: nat, verify: nat -> R, s: State<R>, a: Action, i: nat)
    requires Inv(n, verify, s) && Enabled(n, s, a)
    ensures InHand(Step(n, verify, s, a), i) <==>
      (a.Handoff? && i == s.next) || (InHand(s, i) && !(a.Write? && s.workers[a.w].i == i))
  {
    var s' := Step(n, verify, s, a);
    if InHand(s, i) && !(a.Write? && s.workers[a.w].i == i) {
      var w :| 0 <= w < |s.workers| && s.workers[w] == Verifying(i);
      assert s'.workers[w] == Verifying(i);
    }
    if a.Handoff? && i == s.next {
      assert s'.workers[a.w] == Verifying(i);
    }
  }

  lemma InvStep<R(!new)>(n: nat, verify: nat -> R, s: State<R>, a: Action)
    requires Inv(n, verify, s) && Enabled(n, s, a)
    ensures Inv(n, verify, Step(n, verify, s, a))
  {
    var s' := Step(n, verify, s, a);
    hide InHand;
    forall i: nat | i < n
      ensures if i >= s'.next || InHand(s', i) then s'.results[i] == None && s'.writes[i] == 0
              else s'.results[i] == Some(verify(i)) && s'.writes[i] == 1
    {
      HandsUpdate(n, verify, s, a, i);
      if a.Write? {
        InHandOf(s, a.w);
      }
    }
  }

  lemma InHandOf<R>(s: State<R>, w: nat)
    requires w < |s.workers| && s.workers[w].Verifying?
    ensures InHand(s, s.workers[w].i)
  {
  }

  // ---- termination ----

  function Weight(w: Worker): nat {
    match w case Receiving => 1 case Verifying(_) => 2 case Returned => 0
  }

  function TotalWeight(ws: seq<Worker>): nat {
    if ws == [] then 0 else TotalWeight(ws[..|ws| - 1]) + Weight(ws[|ws| - 1])
  }

  // How much is left to do.
  function Measure<R>(n: nat, s: State<R>): int {
    2 * (n - s.next) + (if s.closed then 0 else 1) + TotalWeight(s.workers)
  }

  lemma {:induction false} WeightUpdate(ws: seq<Worker>, w: nat, x: Worker)
    requires w < |ws|
    ensures TotalWeight(ws[w := x]) == TotalWeight(ws) - Weight(ws[w]) + Weight(x)
  {
    var last := |ws| - 1;
    if w < last {
      WeightUpdate(ws[..last], w, x);
      assert ws[w := x][..last] == ws[..last][w := x];
    } else {
      assert ws[w := x][..last] == ws[..last];
    }
  }

  // Every action, of the dispatcher or of any worker, makes progress.
  lemma MeasureDecreases<R(!new)>(n: nat, verify: nat -> R, s: State<R>, a: Action)
    requires Inv(n, verify, s) && Enabled(n, s, a)
    ensures 0 <= Measure(n, Step(n, verify, s, a)) < Measure(n, s)
  {
    hide TotalWeight;
    InvStep(n, verify, s, a);
    if !a.Close? {
      WeightUpdate(s.workers, a.w, Step(n, verify, s, a).workers[a.w]);
    }
  }

  // runBench cannot get stuck before every worker has returned.
  lemma NeverStuck<R(!new)>(n: nat, verify: nat -> R, s: State<R>)
    requires Inv(n, verify, s) && !Finished(s)
    ensures exists a :: Enabled(n, s, a)
  {
    if !s.closed && s.next >= n {
      assert Enabled(n, s, Close);
    } else {
      var w :| 0 <= w < |s.workers| && !s.workers[w].Returned?;
      var a := if s.workers[w].Verifying? then Write(w) else if s.closed then Leave(w) else Handoff(w);
      assert Enabled(n, s, a);
    }
  }

  // ---- runs ----

  predicate IsRun<R>(n: nat, verify: nat -> R, s: State<R>, run: seq<Action>)
    decreases |run|
  {
    run == [] || (Enabled(n, s, run[0]) && IsRun(n, verify, Step(n, verify, s, run[0]), run[1..]))
  }

  function After<R>(n: nat, verify: nat -> R, s: State<R>, run: seq<Action>): State<R>
    requires IsRun(n, verify, s, run)
    decreases |run|
  {
    if run == [] then s else After(n, verify, Step(n, verify, s, run[0]), run[1..])
  }

  lemma {:induction false} InvRun<R(!new)>(n: nat, verify: nat -> R, s: State<R>, run: seq<Action>)
    requires Inv(n, verify, s) && IsRun(n, verify, s, run)
    ensures Inv(n, verify, After(n, verify, s, run))
    ensures |run| <= Measure(n, s) - Measure(n, After(n, verify, s, run))
    decreases |run|
  {
    hide Inv, Enabled, Step, Measure;
    if run != [] {
      InvStep(n, verify, s, run[0]);
      MeasureDecreases(n, verify, s, run[0]);
      InvRun(n, verify, Step(n, verify, s, run[0]), run[1..]);
    }
  }

  lemma {:induction false} StartWeight(k: nat)
    ensures TotalWeight(seq(k, _ => Receiving)) == k
  {
    if k > 0 {
      assert seq(k, _ => Receiving)[..k - 1] == seq(k - 1, _ => Receiving);
      StartWeight(k - 1);
    }
  }

  // ---- how many are verified at once ----

  function Busy(ws: seq<Worker>): (r: nat)
    ensures r <= |ws|
  {
    if ws == [] then 0 else Busy(ws[..|ws| - 1]) + if ws[|ws| - 1].Verifying? then 1 else 0
  }

  lemma {:induction false} BusyUpdate(ws: seq<Worker>, w: nat, x: Worker)
    requires w < |ws|
    ensures Busy(ws[w := x]) + (if ws[w].Verifying? then 1 else 0) == Busy(ws) + if x.Verifying? then 1 else 0
  {
    var last := |ws| - 1;
    if w < last {
      BusyUpdate(ws[..last], w, x);
      assert ws[w := x][..last] == ws[..last][w := x];
    } else {
      assert ws[w := x][..last] == ws[..last];
    }
  }

  lemma {:induction false} BusyRun<R>(n: nat, verify: nat -> R, s: State<R>, run: seq<Action>)
    requires IsRun(n, verify, s, run) && Busy(s.workers) <= s.next <= n
    ensures var end := After(n, verify, s, run);
      Busy(end.workers) <= end.next <= n && |end.workers| == |s.workers|
    decreases |run|
  {
    if run != [] {
      var s' := Step(n, verify, s, run[0]);
      if !run[0].Close? {
        BusyUpdate(s.workers, run[0].w, s'.workers[run[0].w]);
      }
      hide Busy, Step, Enabled;
      BusyRun(n, verify, s', run[1..]);
    }
  }

  lemma {:induction false} NoneBusy(k: nat)
    ensures Busy(seq(k, _ => Receiving)) == 0
  {
    if k > 0 {
      assert seq(k, _ => Receiving)[..k - 1] == seq(k - 1, _ => Receiving);
      NoneBusy(k - 1);
    }
  }

  // With the first workers busy, the next ones can be given an index as well.
  lemma {:induction false} Spread<R>(n: nat, verify: nat -> R, s: State<R>, k: nat) returns (run: seq<Action>)
    requires Busy(s.workers) == s.next <= k <= |s.workers| && k <= n
    requires forall w :: s.next <= w < |s.workers| ==> s.workers[w].Receiving?
    ensures IsRun(n, verify, s, run) && Busy(After(n, verify, s, run).workers) == k
    decreases k - s.next
  {
    run := [];
    if s.next < k {
      var a := Handoff(s.next);
      BusyUpdate(s.workers, s.next, Verifying(s.next));
      var rest := Spread(n, verify, Step(n, verify, s, a), k);
      run := [a] + rest;
      assert run[1..] == rest;
    }
  }

  // As many results can be in the making at once as workers were asked for, one
  // at least, and no more, and no more than there are jobs.
  lemma AtOnceIff<R(!new)>(n: nat, verify: nat -> R, workers: int, k: nat)
    ensures (exists run :: IsRun(n, verify, Start<R>(n, workers), run)
                           && Busy(After(n, verify, Start<R>(n, workers), run).workers) == k)
      <==> k <= n && (k <= workers || k <= 1)
  {
    var s := Start<R>(n, workers);
    NoneBusy(|s.workers|);
    if k <= n && (k <= workers || k <= 1) {
      var run := Spread(n, verify, s, k);
    }
    forall run | IsRun(n, verify, s, run) && Busy(After(n, verify, s, run).workers) == k
      ensures k <= n && (k <= workers || k <= 1)
    {
      BusyRun(n, verify, s, run);
    }
  }

  // For every number of workers and every interleaving: a run is never longer
  // than 2n + workers + 1 actions, and when no action is left every worker has
  // returned, every cell was written exactly once, and the results are those
  // of the sequential loop.
  lemma RefinesSequentialMap<R(!new)>(n: nat, verify: nat -> R, workers: int, run: seq<Action>)
    requires IsRun(n, verify, Start<R>(n, workers), run)
    ensures |run| <= 2 * n + WorkerCount(workers) + 1
    ensures var end := After(n, verify, Start(n, workers), run);
      (forall a :: !Enabled(n, end, a)) ==>
        Finished(end) && end.results == seq(n, i requires 0 <= i < n => Some(verify(i)))
        && end.writes == seq(n, _ => 1)
  {
    var s := Start<R>(n, workers);
    InvStart(n, verify, workers);
    InvRun(n, verify, s, run);
    StartWeight(WorkerCount(workers));
    var end := After(n, verify, s, run);
    if !Finished(end) {
      NeverStuck(n, verify, end);
    } else {
      assert forall i: nat :: !InHand(end, i);
    }
  }
}
