/**
  What every run of the distributed lock keeps: entries can be traced to the attempts
  they were granted to, and attempts keep what they were granted unless robbed.
 */
module DsyncSafety {
  import opened LockRpc
  import opened LockRpcSafety
  import opened Dsync

  predicate Entry(m: Locks, name: string, e: Requester) {
    name in m && e in m[name]
  }

  // ------------------------------------------------------------ one lock map

  lemma HadIsEntry(m: Locks, name: string, uid: string) returns (e: Requester)
    requires Has(m, name, uid)
    ensures Entry(m, name, e) && e.uid == uid
  {
    e := m[name][Find(m[name], uid, 0)];
  }

  lemma RemoveEntries(m: Locks, name: string, uid: string, n: string, e: Requester)
    requires Entry(Remove(m, name, uid), n, e)
    ensures Entry(m, n, e)
  {
  }

  lemma RemoveKeepsOther(m: Locks, name: string, uid: string, n: string, u: string)
    requires Has(m, n, u) && !(n == name && u == uid)
    ensures Has(Remove(m, name, uid), n, u)
  {
    HasIsHeld(m, n, u);
    RemoveTakesOne(m, name, uid, n, u);
    HasIsHeld(Remove(m, name, uid), n, u);
  }

  lemma LockEntries(m: Locks, args: LockArgs, read: bool, now: int, n: string, e: Requester)
    requires Entry(AfterLock(m, args, read, now), n, e)
    ensures Entry(m, n, e) || (n == args.resource && e == Request(args, !read, now))
  {
  }

  lemma LockKeepsOther(m: Locks, args: LockArgs, read: bool, now: int, n: string, u: string)
    ensures Has(m, n, u) ==> Has(AfterLock(m, args, read, now), n, u)
    ensures Granted(m, args.resource, read) ==> Has(AfterLock(m, args, read, now), args.resource, args.uid)
  {
    HasIsHeld(m, n, u);
    LockAddsOne(m, args, read, now, n, u);
    HasIsHeld(AfterLock(m, args, read, now), n, u);
    LockAddsOne(m, args, read, now, args.resource, args.uid);
    HasIsHeld(AfterLock(m, args, read, now), args.resource, args.uid);
  }

  /** Two different uids share a name only as readers. */
  lemma TwoAreReaders(m: Locks, name: string, e: Requester, f: Requester)
    requires Safe(m) && Entry(m, name, e) && Entry(m, name, f) && e.uid != f.uid
    ensures !e.writer && !f.writer
  {
    assert OneWriterOrReaders(m[name]);
  }

  // ------------------------------------------------------------ the invariant

  ghost predicate AllSafe(s: Cluster) {
    forall i | i in s.servers :: Safe(s.servers[i])
  }

  /** An entry was requested by the attempt its uid belongs to. */
  ghost predicate Traced(s: Cluster, name: string, e: Requester) {
    && e.uid in s.used && s.used[e.uid].attempt in s.attempts
    && var at := s.attempts[s.used[e.uid].attempt];
       at.name == name && e.writer == !at.read && e.origin == at.own
  }

  ghost predicate AllTraced(s: Cluster) {
    forall i, name, e | i in s.servers && Entry(s.servers[i], name, e) :: Traced(s, name, e)
  }

  /** What a client thinks it was granted belongs to it and nothing on the way takes it back. */
  ghost predicate Owns(s: Cluster, a: nat, i: Endpoint)
    requires a in s.attempts && i in s.attempts[a].granted
  {
    var at := s.attempts[a];
    && i in s.servers && i in at.asked
    && at.granted[i] in s.used && s.used[at.granted[i]].attempt == a
    && forall msg | msg in s.releases :: !(msg.to == i && msg.uid == at.granted[i])
  }

  ghost predicate AllOwned(s: Cluster) {
    forall a, i | a in s.attempts && i in s.attempts[a].granted :: Owns(s, a, i)
  }

  /** Releases are sent only to servers that were asked. */
  ghost predicate AllAsked(s: Cluster) {
    forall msg | msg in s.releases ::
      msg.uid in s.used && s.used[msg.uid].attempt in s.attempts && msg.to in s.attempts[s.used[msg.uid].attempt].asked
  }

  ghost predicate Stands(s: Cluster, a: nat, i: Endpoint)
    requires a in s.attempts && i in s.attempts[a].granted
  {
    i in s.servers && Has(s.servers[i], s.attempts[a].name, s.attempts[a].granted[i])
  }

  ghost predicate AllStand(s: Cluster) {
    forall a, i | a in s.attempts && a !in s.robbed && i in s.attempts[a].granted :: Stands(s, a, i)
  }

  ghost predicate Inv(s: Cluster) {
    AllSafe(s) && AllTraced(s) && AllOwned(s) && AllAsked(s) && AllOver(s) && AllStand(s) && AllQuorum(s) && AllJobs(s)
  }

  // ------------------------------------------------------------ steps

  lemma SafeKept(s: Cluster, step: Step)
    requires Enabled(s, step) && AllSafe(s)
    ensures AllSafe(Do(s, step))
  {
    match step
    case Send(a, to, uid, now, lost) =>
      var at := s.attempts[a];
      LockKeepsSafe(s.servers[to], LockArgs(uid, at.name, at.own), at.read, now);
    case Deliver(msg) => RemoveKeepsSafe(s.servers[msg.to], msg.name, msg.uid);
    case PurgeStep(j) => RemoveKeepsSafe(s.servers[s.jobs[j].at], s.jobs[j].name, s.jobs[j].lri.uid);
    case _ =>
  }

  /** Steps other than `Send` change no uid's attempt, and no attempt's name, mode, owner. */
  ghost predicate SameAttempts(s: Cluster, s': Cluster) {
    && (forall u | u in s.used :: u in s'.used && s'.used[u].attempt == s.used[u].attempt)
    && (forall a | a in s.attempts :: && a in s'.attempts && s'.attempts[a].name == s.attempts[a].name
                                     && s'.attempts[a].read == s.attempts[a].read
                                     && s'.attempts[a].own == s.attempts[a].own
                                     && s.attempts[a].asked <= s'.attempts[a].asked)
  }

  lemma StepSameAttempts(s: Cluster, step: Step)
    requires Enabled(s, step)
    ensures SameAttempts(s, Do(s, step))
  {
    var s' := Do(s, step);
    forall a | a in s.attempts
      ensures a in s'.attempts && s'.attempts[a].name == s.attempts[a].name && s'.attempts[a].read == s.attempts[a].read
      ensures s'.attempts[a].own == s.attempts[a].own && s.attempts[a].asked <= s'.attempts[a].asked
    {
      SameAttempt(s, step, a);
    }
  }

  lemma SameAttempt(s: Cluster, step: Step, a: nat)
    requires Enabled(s, step) && a in s.attempts
    ensures var s' := Do(s, step);
            && a in s'.attempts && s'.attempts[a].name == s.attempts[a].name
            && s'.attempts[a].read == s.attempts[a].read
            && s'.attempts[a].own == s.attempts[a].own && s.attempts[a].asked <= s'.attempts[a].asked
  {
  }

  /** Every entry after a step was there before, or was just granted. */
  lemma StepEntries(s: Cluster, step: Step, i: Endpoint, name: string, e: Requester)
    requires Enabled(s, step) && i in Do(s, step).servers && Entry(Do(s, step).servers[i], name, e)
    ensures i in s.servers
    ensures Entry(s.servers[i], name, e)
            || (step.Send? && i == step.to && name == s.attempts[step.a].name
                && e == Request(LockArgs(step.uid, name, s.attempts[step.a].own), !s.attempts[step.a].read, step.now))
  {
    match step
    case Send(a, to, uid, now, lost) =>
      var at := s.attempts[a];
      if i == to { LockEntries(s.servers[to], LockArgs(uid, at.name, at.own), at.read, now, name, e); }
    case Deliver(msg) =>
      if i == msg.to && ReleaseError(s.servers[i], msg.name, msg.uid, msg.read).None? {
        RemoveEntries(s.servers[i], msg.name, msg.uid, name, e);
      }
    case PurgeStep(j) =>
      if i == s.jobs[j].at && s.jobs[j].expired {
        RemoveEntries(s.servers[i], s.jobs[j].name, s.jobs[j].lri.uid, name, e);
      }
    case _ =>
  }

  lemma TracedKept(s: Cluster, step: Step)
    requires Enabled(s, step) && AllTraced(s)
    ensures AllTraced(Do(s, step))
  {
    var s' := Do(s, step);
    StepSameAttempts(s, step);
    forall i, name, e | i in s'.servers && Entry(s'.servers[i], name, e) ensures Traced(s', name, e) {
      StepEntries(s, step, i, name, e);
      if Entry(s.servers[i], name, e) { assert Traced(s, name, e); }
    }
  }

  lemma AskedKept(s: Cluster, step: Step)
    requires Enabled(s, step) && AllAsked(s) && AllOwned(s)
    ensures AllAsked(Do(s, step))
  {
  }

  /** What an attempt is granted after a step it was granted before, or by this step. */
  lemma StepGrants(s: Cluster, step: Step, a: nat, i: Endpoint)
    requires Enabled(s, step) && a in Do(s, step).attempts && i in Do(s, step).attempts[a].granted
    ensures a in s.attempts
    ensures || (i in s.attempts[a].granted && Do(s, step).attempts[a].granted[i] == s.attempts[a].granted[i])
            || (step.Send? && step.a == a && step.to == i && Do(s, step).attempts[a].granted[i] == step.uid
                && Granted(s.servers[i], s.attempts[a].name, s.attempts[a].read) && s.attempts[a].phase == Trying)
  {
  }

  lemma OwnedKept(s: Cluster, step: Step)
    requires Enabled(s, step) && AllOwned(s) && AllAsked(s)
    ensures AllOwned(Do(s, step))
  {
    var s' := Do(s, step);
    forall a, i | a in s'.attempts && i in s'.attempts[a].granted ensures Owns(s', a, i) {
      StepGrants(s, step, a, i);
      if i in s.attempts[a].granted { StillOwned(s, step, a, i); } else { NewlyOwned(s, step, i); }
    }
  }

  lemma NewlyOwned(s: Cluster, step: Step, i: Endpoint)
    requires Enabled(s, step) && AllAsked(s) && step.Send? && step.to == i && i in Do(s, step).attempts[step.a].granted
    requires Do(s, step).attempts[step.a].granted[i] == step.uid && s.attempts[step.a].phase == Trying
    ensures Owns(Do(s, step), step.a, i)
  {
  }

  lemma StillOwned(s: Cluster, step: Step, a: nat, i: Endpoint)
    requires Enabled(s, step) && AllOwned(s) && AllAsked(s) && a in s.attempts && i in s.attempts[a].granted
    requires a in Do(s, step).attempts && i in Do(s, step).attempts[a].granted
    ensures Owns(Do(s, step), a, i)
  {
    var s' := Do(s, step);
    assert Owns(s, a, i);
    StepSameAttempts(s, step);
    ServersKept(s, step);
    StepGrants(s, step, a, i);
    forall msg | msg in s'.releases ensures !(msg.to == i && msg.uid == s'.attempts[a].granted[i]) {
      NotReleased(s, step, a, i, msg);
    }
  }

  lemma NotReleased(s: Cluster, step: Step, a: nat, i: Endpoint, msg: Msg)
    requires Enabled(s, step) && AllOwned(s) && a in s.attempts && i in s.attempts[a].granted
    requires a in Do(s, step).attempts && i in Do(s, step).attempts[a].granted && msg in Do(s, step).releases
    ensures !(msg.to == i && msg.uid == s.attempts[a].granted[i])
  {
    StepReleases(s, step, msg);
    assert Owns(s, a, i);
    if msg !in s.releases && !step.Send? && msg.to == i {
      assert Owns(s, step.a, i);
    }
  }

  /** A release is sent for what its own attempt was granted, or was granted too late. */
  lemma StepReleases(s: Cluster, step: Step, msg: Msg)
    requires Enabled(s, step) && msg in Do(s, step).releases
    ensures || msg in s.releases
            || (step.Send? && msg.to == step.to && msg.uid == step.uid)
            || ((step.Decide? || step.Finish?) && msg in ReleaseAll(s.attempts[step.a])
                && Do(s, step).attempts[step.a].granted == map[])
  {
  }

  /** A lock stays until it is released, purged or forced; only the last two rob. */
  lemma StepStands(s: Cluster, step: Step, a: nat, i: Endpoint)
    requires Enabled(s, step) && a in s.attempts && i in s.attempts[a].granted && Owns(s, a, i) && Stands(s, a, i)
    requires a !in Do(s, step).robbed && s.attempts[a].phase != Over
    ensures Has(Do(s, step).servers[i], s.attempts[a].name, s.attempts[a].granted[i])
  {
    var name, u := s.attempts[a].name, s.attempts[a].granted[i];
    match step
    case Send(b, to, uid, now, lost) =>
      var at := s.attempts[b];
      if i == to { LockKeepsOther(s.servers[to], LockArgs(uid, at.name, at.own), at.read, now, name, u); }
    case Deliver(msg) =>
      if i == msg.to { RemoveKeepsOther(s.servers[i], msg.name, msg.uid, name, u); }
    case PurgeStep(j) =>
      if i == s.jobs[j].at && s.jobs[j].expired {
        assert a !in Victims(s, i, s.jobs[j].name, {s.jobs[j].lri.uid});
        RemoveKeepsOther(s.servers[i], s.jobs[j].name, s.jobs[j].lri.uid, name, u);
      }
    case _ =>
  }

  /** Attempts that are over hold nothing. */
  ghost predicate AllOver(s: Cluster) {
    forall a | a in s.attempts && s.attempts[a].phase == Over :: s.attempts[a].granted == map[]
  }

  lemma OverKept(s: Cluster, step: Step)
    requires Enabled(s, step) && AllOver(s)
    ensures AllOver(Do(s, step))
  {
  }

  lemma StandKept(s: Cluster, step: Step)
    requires Enabled(s, step) && AllStand(s) && AllOwned(s) && AllOver(s)
    ensures AllStand(Do(s, step))
  {
    var s' := Do(s, step);
    StepSameAttempts(s, step);
    forall a, i | a in s'.attempts && a !in s'.robbed && i in s'.attempts[a].granted ensures Stands(s', a, i) {
      StepGrants(s, step, a, i);
      if i in s.attempts[a].granted && s'.attempts[a].granted[i] == s.attempts[a].granted[i] {
        assert Owns(s, a, i) && Stands(s, a, i);
        StepStands(s, step, a, i);
      } else {
        var at := s.attempts[a];
        LockKeepsOther(s.servers[i], LockArgs(step.uid, at.name, at.own), at.read, step.now, at.name, step.uid);
      }
    }
  }

  /** Whoever holds has its quorum, its own server included. */
  ghost predicate AllQuorum(s: Cluster) {
    forall a | a in s.attempts && s.attempts[a].phase == Holding :: Succeeds(s, s.attempts[a])
  }

  lemma QuorumKept(s: Cluster, step: Step)
    requires Enabled(s, step) && AllQuorum(s)
    ensures AllQuorum(Do(s, step))
  {
    ServersKept(s, step);
    forall a | a in Do(s, step).attempts && Do(s, step).attempts[a].phase == Holding
      ensures Succeeds(Do(s, step), Do(s, step).attempts[a])
    {
      StepHolds(s, step, a);
    }
  }

  /** Whoever holds after a step held before, or just found its quorum. */
  lemma StepHolds(s: Cluster, step: Step, a: nat)
    requires Enabled(s, step) && a in Do(s, step).attempts && Do(s, step).attempts[a].phase == Holding
    ensures a in s.attempts && Do(s, step).attempts[a].granted == s.attempts[a].granted
    ensures Do(s, step).attempts[a].own == s.attempts[a].own && Do(s, step).attempts[a].read == s.attempts[a].read
    ensures s.attempts[a].phase == Holding || Succeeds(s, s.attempts[a])
  {
  }

  lemma ServersKept(s: Cluster, step: Step)
    requires Enabled(s, step)
    ensures Do(s, step).servers.Keys == s.servers.Keys
  {
  }

  /** Maintenance asks about locks that were granted. */
  ghost predicate AllJobs(s: Cluster) {
    forall j | j in s.jobs :: Traced(s, s.jobs[j].name, s.jobs[j].lri)
  }

  lemma JobsKept(s: Cluster, step: Step)
    requires Enabled(s, step) && AllJobs(s) && AllTraced(s)
    ensures AllJobs(Do(s, step))
  {
    var s' := Do(s, step);
    StepSameAttempts(s, step);
    forall j | j in s'.jobs ensures Traced(s', s'.jobs[j].name, s'.jobs[j].lri) {
      StepJobs(s, step, j);
      if j in s.jobs { assert Traced(s, s.jobs[j].name, s.jobs[j].lri); }
      TracedStays(s, s', s'.jobs[j].name, s'.jobs[j].lri);
    }
  }

  lemma TracedStays(s: Cluster, s': Cluster, name: string, e: Requester)
    requires SameAttempts(s, s') && Traced(s, name, e)
    ensures Traced(s', name, e)
  {
  }

  lemma StepJobs(s: Cluster, step: Step, j: nat)
    requires Enabled(s, step) && j in Do(s, step).jobs
    ensures var job := Do(s, step).jobs[j];
            || (j in s.jobs && s.jobs[j].name == job.name && s.jobs[j].lri == job.lri && s.jobs[j].at == job.at)
            || (j !in s.jobs && job.at in s.servers && Entry(s.servers[job.at], job.name, job.lri) && !job.expired)
  {
  }

  lemma StepKeeps(s: Cluster, step: Step)
    requires Enabled(s, step) && Inv(s)
    ensures Inv(Do(s, step))
  {
    SafeKept(s, step);
    TracedKept(s, step);
    OwnedKept(s, step);
    AskedKept(s, step);
    OverKept(s, step);
    StandKept(s, step);
    QuorumKept(s, step);
    JobsKept(s, step);
  }

  lemma {:induction false} RunKeeps(s: Cluster, steps: seq<Step>, end: Cluster)
    requires Inv(s) && Run(s, steps, end)
    ensures Inv(end) && end.servers.Keys == s.servers.Keys
    decreases |steps|
  {
    if steps != [] {
      StepKeeps(s, steps[0]);
      ServersKept(s, steps[0]);
      RunKeeps(Do(s, steps[0]), steps[1..], end);
    }
  }

  lemma {:induction false} Reachable(s: Cluster, steps: seq<Step>, end: Cluster)
    requires Start(s) && Run(s, steps, end)
    ensures Inv(end) && end.servers.Keys == s.servers.Keys
  {
    RunKeeps(s, steps, end);
  }
}
