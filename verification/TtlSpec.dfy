// Deadlines as the TTL manager keeps them, over any trace of its operations.
module TtlSpec {
  import opened PoolSpec

  function Expired(deadlines: map<Id, int>, now: int): set<Id> {
    set c | c in deadlines && deadlines[c] <= now
  }

  // A Sweep is the lock section in which sweepOnce takes the expired ids; each of
  // its kills, after unlocking, is a Kill of its own.
  datatype Op = Track(id: Id, ttl: int, at: int) | Untrack(id: Id) | Sweep(now: int) | Kill(id: Id)

  function Apply(deadlines: map<Id, int>, op: Op): map<Id, int> {
    match op
    case Track(id, ttl, at) => deadlines[id := at + ttl]
    case Untrack(id) => deadlines - {id}
    case Sweep(now) => deadlines - Expired(deadlines, now)
    case Kill(_) => deadlines
  }

  // The deadlines after the first k operations, none being tracked at first.
  function DeadlinesAt(trace: seq<Op>, k: nat): map<Id, int>
    requires k <= |trace|
  {
    if k == 0 then map[] else Apply(DeadlinesAt(trace, k - 1), trace[k - 1])
  }

  // The ids operation k takes to be killed.
  function Taken(trace: seq<Op>, k: nat): set<Id>
    requires k < |trace|
  {
    if trace[k].Sweep? then Expired(DeadlinesAt(trace, k), trace[k].now) else {}
  }

  // The ids taken and not yet killed before operation k.
  function Waiting(trace: seq<Op>, k: nat): set<Id>
    requires k <= |trace|
  {
    if k == 0 then {}
    else
      match trace[k - 1]
      case Sweep(_) => Waiting(trace, k - 1) + Taken(trace, k - 1)
      case Kill(id) => Waiting(trace, k - 1) - {id}
      case _ => Waiting(trace, k - 1)
  }

  // Only ids that were taken are killed, each once for each time.
  predicate Legal(trace: seq<Op>) {
    forall k :: 0 <= k < |trace| && trace[k].Kill? ==> trace[k].id in Waiting(trace, k)
  }

  predicate Tracks(op: Op, id: Id) { op.Track? && op.id == id }

  // The deadline a Track records.
  function Due(op: Op): int
    requires op.Track?
  {
    op.at + op.ttl
  }

  // Operation i tracks id, and up to k nothing tracks it again, untracks it,
  // or sweeps at or after that deadline.
  predicate Pending(trace: seq<Op>, i: nat, k: nat, id: Id)
    requires k <= |trace|
  {
    && i < k && Tracks(trace[i], id)
    && forall j :: i < j < k ==>
         match trace[j]
         case Track(other, _, _) => other != id
         case Untrack(other) => other != id
         case Sweep(now) => now < Due(trace[i])
         case Kill(_) => true
  }

  // An id is tracked exactly when some Track of it is pending, with its deadline.
  lemma {:induction false} TrackedIffPending(trace: seq<Op>, k: nat, id: Id)
    requires k <= |trace|
    ensures id in DeadlinesAt(trace, k) <==> exists i: nat :: Pending(trace, i, k, id)
    ensures forall i: nat :: Pending(trace, i, k, id) ==>
      id in DeadlinesAt(trace, k) && DeadlinesAt(trace, k)[id] == Due(trace[i])
  {
    if k > 0 {
      TrackedIffPending(trace, k - 1, id);
      if id in DeadlinesAt(trace, k) {
        if Tracks(trace[k - 1], id) {
          assert Pending(trace, k - 1, k, id);
        } else {
          var i: nat :| Pending(trace, i, k - 1, id);
          assert Pending(trace, i, k, id);
        }
      }
      forall i: nat | Pending(trace, i, k, id)
        ensures id in DeadlinesAt(trace, k) && DeadlinesAt(trace, k)[id] == Due(trace[i])
      {
        if i < k - 1 {
          assert Pending(trace, i, k - 1, id);
        }
      }
    }
  }

  // A sweep takes an id if and only if a Track of it is pending and due: never
  // before its latest recorded deadline, and no later than the first sweep
  // after it. The kill comes later, whoever has the container by then.
  lemma TakenExactly(trace: seq<Op>, k: nat, id: Id)
    requires k < |trace| && trace[k].Sweep?
    ensures id in Taken(trace, k) <==>
      exists i: nat :: Pending(trace, i, k, id) && Due(trace[i]) <= trace[k].now
  {
    TrackedIffPending(trace, k, id);
  }

  // Operation j takes id, and up to k it is not killed.
  predicate TakenSince(trace: seq<Op>, j: nat, k: nat, id: Id)
    requires k <= |trace|
  {
    j < k && id in Taken(trace, j) && forall n :: j < n < k ==> trace[n] != Kill(id)
  }

  lemma {:induction false} WaitingIffTaken(trace: seq<Op>, k: nat, id: Id)
    requires k <= |trace|
    ensures id in Waiting(trace, k) <==> exists j: nat :: TakenSince(trace, j, k, id)
  {
    if k > 0 {
      WaitingIffTaken(trace, k - 1, id);
      if id in Waiting(trace, k) {
        if id in Taken(trace, k - 1) {
          assert TakenSince(trace, k - 1, k, id);
        } else {
          var j: nat :| TakenSince(trace, j, k - 1, id);
          assert TakenSince(trace, j, k, id);
        }
      }
      forall j: nat | TakenSince(trace, j, k, id) ensures id in Waiting(trace, k) {
        if j < k - 1 {
          assert TakenSince(trace, j, k - 1, id);
        }
      }
    }
  }

  // Every kill goes back to a sweep that found a pending Track of the id due.
  lemma KilledAfterDue(trace: seq<Op>, k: nat) returns (i: nat, j: nat)
    requires Legal(trace) && k < |trace| && trace[k].Kill?
    ensures TakenSince(trace, j, k, trace[k].id) && trace[j].Sweep?
    ensures Pending(trace, i, j, trace[k].id) && Due(trace[i]) <= trace[j].now
  {
    WaitingIffTaken(trace, k, trace[k].id);
    j :| TakenSince(trace, j, k, trace[k].id);
    TakenExactly(trace, j, trace[k].id);
    i :| Pending(trace, i, j, trace[k].id) && Due(trace[i]) <= trace[j].now;
  }

  // What a sweep does not take keeps its deadline; what it takes is forgotten.
  lemma SweepKeepsTheRest(trace: seq<Op>, k: nat, id: Id)
    requires k < |trace| && trace[k].Sweep?
    ensures var before, after := DeadlinesAt(trace, k), DeadlinesAt(trace, k + 1);
      && (id in after <==> id in before && id !in Taken(trace, k))
      && (id in after ==> after[id] == before[id])
  {
  }

  function KillCount(trace: seq<Op>, k: nat, id: Id): nat
    requires k <= |trace|
  {
    if k == 0 then 0 else KillCount(trace, k - 1, id) + if trace[k - 1] == Kill(id) then 1 else 0
  }

  function TrackCount(trace: seq<Op>, k: nat, id: Id): nat
    requires k <= |trace|
  {
    if k == 0 then 0 else TrackCount(trace, k - 1, id) + if Tracks(trace[k - 1], id) then 1 else 0
  }

  // Every kill, waiting to be killed, and being tracked now is paid for by a
  // Track of its own.
  lemma {:induction false} KillsBounded(trace: seq<Op>, k: nat, id: Id)
    requires Legal(trace) && k <= |trace|
    ensures KillCount(trace, k, id) + (if id in Waiting(trace, k) then 1 else 0)
          + (if id in DeadlinesAt(trace, k) then 1 else 0) <= TrackCount(trace, k, id)
  {
    if k > 0 {
      KillsBounded(trace, k - 1, id);
    }
  }

  // An id left tracked is taken by the first sweep at or after its deadline, and
  // by none before it.
  lemma FirstSweepTakes(trace: seq<Op>, i: nat, k: nat, id: Id)
    requires k < |trace| && trace[k].Sweep? && Pending(trace, i, k, id)
    ensures id in Taken(trace, k) <==> Due(trace[i]) <= trace[k].now
    ensures forall j :: i < j < k ==> id !in Taken(trace, j)
    ensures var after := DeadlinesAt(trace, k + 1);
      if Due(trace[i]) <= trace[k].now then id !in after else id in after && after[id] == Due(trace[i])
  {
    SweepKeepsTheRest(trace, k, id);
    TrackedIffPending(trace, k, id);
    forall j | i < j < k ensures id !in Taken(trace, j) {
      assert Pending(trace, i, j, id);
      TrackedIffPending(trace, j, id);
    }
  }
}
