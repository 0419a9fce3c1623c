/** The API server as far as the controller can see it: one FaultInjection and the keyed
    objects of its namespace. `Server` is the mutable store the controller works on;
    `World` is its value, on which runs are reasoned about. */
module Cluster {
  import opened Wrappers
  import opened Api
  import LeaseProtocol
  import VirtualServices

  type Key = (string, string)

  /** A podfault Job: what it will delete, and whether it has finished. The owner, action
      and tick are its labels and annotations. */
  datatype Job = Job(owner: LeaseProtocol.Owner, action: string, tick: string, pods: seq<string>, complete: bool, failed: bool)

  /** One Job creation; the log of them is a history variable no code reads. */
  datatype Creation = Creation(action: string, tick: string, pods: seq<string>)

  datatype World = World(
    fi: FaultInjection,
    vss: map<Key, VirtualServices.VirtualService>,
    jobs: map<string, Job>,
    leases: map<string, LeaseProtocol.Lease>,
    log: seq<Creation>)
  {
    function WithTicks(ticks: seq<Tick>): World {
      this.(fi := fi.(status := fi.status.(ticks := ticks)))
    }

    function WithPhase(phase: Phase): World {
      this.(fi := fi.(status := fi.status.(phase := phase)))
    }
  }

  class Server {
    var fi: FaultInjection
    var vss: map<Key, VirtualServices.VirtualService>
    var jobs: map<string, Job>
    var leases: map<string, LeaseProtocol.Lease>
    ghost var log: seq<Creation>

    constructor (w: World)
      ensures Snapshot() == w
    {
      fi, vss, jobs, leases, log := w.fi, w.vss, w.jobs, w.leases, w.log;
    }

    ghost function Snapshot(): World
      reads this
    {
      World(fi, vss, jobs, leases, log)
    }
  }

  function Lookup<K, V>(m: map<K, V>, k: K): Option<V> {
    if k in m then Some(m[k]) else None
  }
}
