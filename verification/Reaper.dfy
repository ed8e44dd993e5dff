// The TTL manager with its kill function wired to the pool, as the environment
// sets it up.
module Reaper {
  import opened Prelude
  import opened PoolSpec
  import opened PoolObject
  import opened TtlSpec

  // The pool after killing the ids in order.
  function KillAll(p: Pool, ids: seq<Id>): Pool {
    if ids == [] then p else KillSpec(KillAll(p, ids[..|ids| - 1]), ids[|ids| - 1])
  }

  class Manager {
    const pool: PoolObject
    var deadlines: map<Id, int>

    constructor (pool: PoolObject)
      ensures this.pool == pool && deadlines == map[]
    {
      this.pool, deadlines := pool, map[];
    }

    method Track(id: Id, ttl: int, now: int)
      modifies this
      ensures deadlines == Apply(old(deadlines), Op.Track(id, ttl, now))
    {
      deadlines := deadlines[id := now + ttl];
    }

    method Untrack(id: Id)
      modifies this
      ensures deadlines == Apply(old(deadlines), Op.Untrack(id))
    {
      deadlines := deadlines - {id};
    }

    method Tracked() returns (n: nat)
      ensures n == |deadlines.Keys|
    {
      n := |deadlines|;
    }

    // Returns the ids kill was called on, in order: every expired id once.
    method SweepOnce(now: int) returns (killed: seq<Id>)
      requires pool.Valid()
      modifies this, pool`all, pool`count, pool.backend
      ensures pool.Valid()
      ensures NoDuplicates(killed) && Elements(killed) == Expired(old(deadlines), now)
      ensures deadlines == Apply(old(deadlines), Sweep(now))
      ensures pool.View() == KillAll(old(pool.View()), killed)
    {
      killed := CollectExpired(now);
      Forget(killed);
      KillEach(killed);
    }

    method Forget(ids: seq<Id>)
      modifies this
      ensures deadlines == old(deadlines) - Elements(ids)
    {
      var i := 0;
      while i < |ids|
        invariant 0 <= i <= |ids|
        invariant deadlines == old(deadlines) - Elements(ids[..i])
      {
        deadlines := deadlines - {ids[i]};
        assert Elements(ids[..i + 1]) == Elements(ids[..i]) + {ids[i]};
        i := i + 1;
      }
      assert ids[..i] == ids;
    }

    method KillEach(ids: seq<Id>)
      requires pool.Valid()
      modifies pool`all, pool`count, pool.backend
      ensures pool.Valid() && pool.View() == KillAll(old(pool.View()), ids)
    {
      var i := 0;
      ghost var p := pool.View();
      assert KillAll(p, ids[..0]) == p;
      hide PoolObject.View;
      while i < |ids|
        invariant 0 <= i <= |ids|
        invariant pool.Valid() && pool.View() == KillAll(p, ids[..i])
      {
        pool.RemoveByID(ids[i]);
        assert ids[..i + 1][..i] == ids[..i];
        i := i + 1;
      }
      assert ids[..i] == ids;
    }

    method CollectExpired(now: int) returns (expired: seq<Id>)
      ensures NoDuplicates(expired) && Elements(expired) == Expired(deadlines, now)
    {
      expired := [];
      var todo := deadlines.Keys;
      while todo != {}
        invariant todo <= deadlines.Keys
        invariant NoDuplicates(expired)
        invariant Elements(expired) == Expired(deadlines, now) - todo
        decreases todo
      {
        var id :| id in todo;
        if now >= deadlines[id] {
          assert id !in Elements(expired);
          assert Elements(expired + [id]) == Elements(expired) + {id};
          expired := expired + [id];
        }
        todo := todo - {id};
      }
    }
  }
}
