/**
  Distributed locks on several lock servers, with stale lock maintenance running beside
  them (vendor/github.com/minio/dsync/drwmutex.go on top of cmd/lock-rpc-server.go).

  A step is one handler run at one server, one decision of a client, or one of the three
  moves of maintenance: pick a lock, ask the server it came from, purge it.
 */
module Dsync {
  import opened LockRpc

  datatype Phase = Trying | Holding | Over

  /** One attempt to lock a resource: `granted` is the client's `locks` array. */
  datatype Attempt = Attempt(name: string, read: bool, own: Endpoint, asked: set<Endpoint>,
                             granted: map<Endpoint, string>, phase: Phase)

  /** A release on its way. It may arrive late, more than once, or never. */
  datatype Msg = Msg(to: Endpoint, name: string, uid: string, read: bool)

  /** A lock that maintenance at server `at` picked. */
  datatype Job = Job(at: Endpoint, name: string, lri: Requester, expired: bool)

  /** To whom and for whom a uid was last sent. */
  datatype Sent = Sent(attempt: nat, to: Endpoint)

  /** `robbed` holds the attempts that lost a granted lock to a purge or a forced release. */
  datatype Cluster = Cluster(servers: map<Endpoint, Locks>, attempts: map<nat, Attempt>, releases: set<Msg>,
                             jobs: map<nat, Job>, used: map<string, Sent>, robbed: set<nat>)

  datatype Step =
    | Begin(a: nat, name: string, read: bool, own: Endpoint)
    | Send(a: nat, to: Endpoint, uid: string, now: int, lost: bool)
    | Decide(a: nat)
    | Finish(a: nat)
    | Deliver(msg: Msg)
    | Pick(j: nat, at: Endpoint, name: string, k: nat)
    | Probe(j: nat)
    | PurgeStep(j: nat)
    | ForceAt(at: Endpoint, name: string)

  /** A majority for writers, half for readers. */
  function Quorum(s: Cluster, read: bool): nat {
    if read then |s.servers.Keys| / 2 else |s.servers.Keys| / 2 + 1
  }

  function ReleaseAll(at: Attempt): set<Msg> {
    set i | i in at.granted :: Msg(i, at.name, at.granted[i], at.read)
  }

  predicate Enabled(s: Cluster, step: Step) {
    match step
    case Begin(a, name, read, own) => a !in s.attempts && own in s.servers
    case Send(a, to, uid, _, _) => && a in s.attempts && to in s.servers && to !in s.attempts[a].asked && uid != ""
                                && (uid in s.used ==> s.used[uid].attempt == a)
    case Decide(a) => a in s.attempts && s.attempts[a].phase == Trying
    case Finish(a) => a in s.attempts && s.attempts[a].phase == Holding
    case Deliver(msg) => msg in s.releases && msg.to in s.servers
    case Pick(j, at, name, k) => j !in s.jobs && at in s.servers && name in s.servers[at] && k < |s.servers[at][name]|
    case Probe(j) => j in s.jobs && s.jobs[j].lri.origin in s.servers
    case PurgeStep(j) => j in s.jobs && s.jobs[j].at in s.servers
    case ForceAt(at, _) => at in s.servers
  }

  /** The client has its quorum, and its own server is part of it. */
  predicate Succeeds(s: Cluster, at: Attempt) {
    |at.granted.Keys| >= Quorum(s, at.read) && at.own in at.granted
  }

  /** The attempts a removal at a server takes a lock from. */
  function Victims(s: Cluster, at: Endpoint, name: string, uids: set<string>): set<nat> {
    set a | a in s.attempts && s.attempts[a].phase != Over && s.attempts[a].name == name
            && at in s.attempts[a].granted && s.attempts[a].granted[at] in uids
  }

  function DoSend(s: Cluster, a: nat, to: Endpoint, uid: string, now: int, lost: bool): Cluster
    requires Enabled(s, Send(a, to, uid, now, lost))
  {
    var at := s.attempts[a];
    var got := Granted(s.servers[to], at.name, at.read) && !lost;
    var late := got && at.phase != Trying;
    var granted := if got && !late then at.granted[to := uid] else at.granted;
    s.(servers := s.servers[to := AfterLock(s.servers[to], LockArgs(uid, at.name, at.own), at.read, now)],
       attempts := s.attempts[a := at.(asked := at.asked + {to}, granted := granted)],
       releases := if late then s.releases + {Msg(to, at.name, uid, at.read)} else s.releases,
       used := s.used[uid := Sent(a, to)])
  }

  function Do(s: Cluster, step: Step): Cluster
    requires Enabled(s, step)
  {
    match step
    case Begin(a, name, read, own) =>
      s.(attempts := s.attempts[a := Attempt(name, read, own, {}, map[], Trying)])
    case Send(a, to, uid, now, lost) =>
      DoSend(s, a, to, uid, now, lost)
    case Decide(a) =>
      var at := s.attempts[a];
      if Succeeds(s, at) then s.(attempts := s.attempts[a := at.(phase := Holding)])
      else s.(attempts := s.attempts[a := at.(phase := Over, granted := map[])],
              releases := s.releases + ReleaseAll(at))
    case Finish(a) =>
      var at := s.attempts[a];
      s.(attempts := s.attempts[a := at.(phase := Over, granted := map[])], releases := s.releases + ReleaseAll(at))
    case Deliver(msg) =>
      s.(servers := s.servers[msg.to := AfterRelease(s.servers[msg.to], msg.name, msg.uid, msg.read)])
    case Pick(j, at, name, k) =>
      s.(jobs := s.jobs[j := Job(at, name, s.servers[at][name][k], false)])
    case Probe(j) =>
      var job := s.jobs[j];
      s.(jobs := s.jobs[j := job.(expired := !Has(s.servers[job.lri.origin], job.name, job.lri.uid))])
    case PurgeStep(j) =>
      var job := s.jobs[j];
      if !job.expired then s.(jobs := s.jobs - {j})
      else s.(servers := s.servers[job.at := Remove(s.servers[job.at], job.name, job.lri.uid)],
              jobs := s.jobs - {j},
              robbed := s.robbed + Victims(s, job.at, job.name, {job.lri.uid}))
    case ForceAt(at, name) =>
      s.(servers := s.servers[at := s.servers[at] - {name}],
         robbed := s.robbed + set a | a in s.attempts && s.attempts[a].name == name && at in s.attempts[a].granted)
  }

  ghost predicate Run(s: Cluster, steps: seq<Step>, end: Cluster)
    decreases |steps|
  {
    if steps == [] then s == end
    else Enabled(s, steps[0]) && Run(Do(s, steps[0]), steps[1..], end)
  }

  /** Servers with empty lock maps and no client yet; the client library takes an even number of at least four. */
  ghost predicate Start(s: Cluster) {
    && |s.servers.Keys| >= 4 && |s.servers.Keys| % 2 == 0
    && (forall i | i in s.servers :: s.servers[i] == map[])
    && s.attempts == map[] && s.releases == {} && s.jobs == map[] && s.used == map[] && s.robbed == {}
  }
}
