// The shared memory of a container pool, and the effect of each of its lock
// sections, channel operations and backend calls as a function on that memory.
// The protocol interleaves these functions; the class in PoolObject.dfy
// implements them.
module PoolSpec {

  // A container is identified by the id the runtime gave it.
  type Id = nat

  // Only the fields of the configuration that decide control flow.
  datatype Config = Config(minWarm: int, maxSize: int, maxJobs: int)

  predicate ValidConfig(cfg: Config) {
    cfg.maxSize >= 1 && cfg.minWarm <= cfg.maxSize
  }

  // `all`, `count` and `closed` are the ledger under the mutex, `idle` the
  // buffered channel, `done` says whether the done channel is closed, `jobs`
  // holds the job counter of every container record ever registered, and
  // `created` and `removed` are the ids the runtime handed out and the ids
  // Remove was called on.
  datatype Pool = Pool(
    all: set<Id>, count: int, closed: bool, done: bool,
    idle: seq<Id>, jobs: map<Id, nat>,
    created: set<Id>, removed: set<Id>)

  const EMPTY: Pool := Pool({}, 0, false, false, [], map[], {}, {})

  function Reserve(p: Pool): Pool { p.(count := p.count + 1) }

  function Unreserve(p: Pool): Pool { p.(count := p.count - 1) }

  function Create(p: Pool, c: Id): Pool { p.(created := p.created + {c}) }

  function Register(p: Pool, c: Id): Pool { p.(all := p.all + {c}, jobs := p.jobs[c := 0]) }

  function TakeIdle(p: Pool): Pool
    requires p.idle != []
  {
    p.(idle := p.idle[1..])
  }

  function CountJob(p: Pool, c: Id): Pool
    requires c in p.jobs
  {
    p.(jobs := p.jobs[c := p.jobs[c] + 1])
  }

  function Park(p: Pool, c: Id): Pool { p.(idle := p.idle + [c]) }

  function Deregister(p: Pool, c: Id): Pool {
    if c in p.all then p.(all := p.all - {c}, count := p.count - 1) else p
  }

  function Remove(p: Pool, c: Id): Pool { p.(removed := p.removed + {c}) }

  function CloseOff(p: Pool): Pool { p.(closed := true, all := {}, count := 0) }

  function Signal(p: Pool): Pool { p.(done := true) }

  // Whether a container that has served `served` jobs is to be recycled.
  predicate AtLimit(cfg: Config, served: nat) {
    cfg.maxJobs > 0 && served >= cfg.maxJobs
  }
}
