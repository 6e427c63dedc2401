/**
  What is left on the servers by attempts that are over: as long as no answer is lost, every such
  lock has its release on its way.
 */
module DsyncReleases {
  import opened LockRpc
  import opened LockRpcSafety
  import opened Dsync
  import opened DsyncSafety

  /** No answer of a server was lost on its way to the client. */
  predicate NoneLost(steps: seq<Step>) {
    forall k | 0 <= k < |steps| && steps[k].Send? :: !steps[k].lost
  }

  /** The attempt the uid of an entry belongs to. */
  predicate KnownUid(s: Cluster, uid: string) {
    uid in s.used && s.used[uid].attempt in s.attempts
  }

  function Whose(s: Cluster, uid: string): Attempt
    requires KnownUid(s, uid)
  {
    s.attempts[s.used[uid].attempt]
  }

  /** The client knows of the lock it has at server `i`, or has sent its release. */
  ghost predicate Minded(s: Cluster, i: Endpoint, name: string, uid: string) {
    && KnownUid(s, uid) && i in Whose(s, uid).asked && Whose(s, uid).name == name
    && (|| (i in Whose(s, uid).granted && Whose(s, uid).granted[i] == uid)
        || Msg(i, name, uid, Whose(s, uid).read) in s.releases)
  }

  ghost predicate AllMinded(s: Cluster) {
    forall i, name, e | i in s.servers && Entry(s.servers[i], name, e) :: Minded(s, i, name, e.uid)
  }

  /** Another request does not touch the lock: no server is asked twice. */
  lemma SendMinds(s: Cluster, step: Step, i: Endpoint, name: string, uid: string)
    requires Enabled(s, step) && step.Send? && Minded(s, i, name, uid)
    ensures Minded(Do(s, step), i, name, uid)
  {
    assert step.a == s.used[uid].attempt ==> step.to != i;
  }

  /** An attempt that ends sends back what it was granted. */
  lemma EndMinds(s: Cluster, step: Step, i: Endpoint, name: string, uid: string)
    requires Enabled(s, step) && (step.Decide? || step.Finish?) && Minded(s, i, name, uid)
    ensures Minded(Do(s, step), i, name, uid)
  {
    var at := Whose(s, uid);
    if step.a == s.used[uid].attempt && i in at.granted && at.granted[i] == uid {
      assert Msg(i, name, uid, at.read) in ReleaseAll(at);
    }
  }

  /** A lock that stays is still minded. */
  lemma StaysMinded(s: Cluster, step: Step, i: Endpoint, name: string, uid: string)
    requires Enabled(s, step) && Minded(s, i, name, uid)
    ensures Minded(Do(s, step), i, name, uid)
  {
    match step
    case Send(_, _, _, _, _) => SendMinds(s, step, i, name, uid);
    case Decide(_) => EndMinds(s, step, i, name, uid);
    case Finish(_) => EndMinds(s, step, i, name, uid);
    case _ =>
  }

  /** The lock a request was granted is minded, as its answer arrives. */
  lemma GrantIsMinded(s: Cluster, step: Step)
    requires Enabled(s, step) && step.Send? && !step.lost && Granted(s.servers[step.to], s.attempts[step.a].name,
                                                                     s.attempts[step.a].read)
    ensures Minded(Do(s, step), step.to, s.attempts[step.a].name, step.uid)
  {
  }

  /** An entry that was not there before is that of a request just granted. */
  lemma EntryWasThere(s: Cluster, step: Step, i: Endpoint, name: string, e: Requester)
    requires Enabled(s, step) && i in Do(s, step).servers && Entry(Do(s, step).servers[i], name, e)
    ensures i in s.servers
    ensures Entry(s.servers[i], name, e)
            || (step.Send? && step.to == i && s.attempts[step.a].name == name && step.uid == e.uid
                && Granted(s.servers[i], name, s.attempts[step.a].read))
  {
    ServersKept(s, step);
    match step
    case Send(a, to, uid, now, lost) =>
      var at := s.attempts[a];
      if i == to && !Entry(s.servers[i], name, e) {
        LockEntries(s.servers[to], LockArgs(uid, at.name, at.own), at.read, now, name, e);
      }
    case Deliver(msg) =>
      if i == msg.to && !Entry(s.servers[i], name, e) { RemoveEntries(s.servers[i], msg.name, msg.uid, name, e); }
    case PurgeStep(j) =>
      var job := s.jobs[j];
      if i == job.at && job.expired && !Entry(s.servers[i], name, e) {
        RemoveEntries(s.servers[i], job.name, job.lri.uid, name, e);
      }
    case _ =>
  }

  lemma MindedKept(s: Cluster, step: Step)
    requires Enabled(s, step) && AllMinded(s) && (step.Send? ==> !step.lost)
    ensures AllMinded(Do(s, step))
  {
    var s' := Do(s, step);
    forall i, name, e | i in s'.servers && Entry(s'.servers[i], name, e) ensures Minded(s', i, name, e.uid) {
      EntryWasThere(s, step, i, name, e);
      if Entry(s.servers[i], name, e) {
        StaysMinded(s, step, i, name, e.uid);
      } else {
        GrantIsMinded(s, step);
      }
    }
  }

  lemma {:induction false} AlwaysMinded(s: Cluster, steps: seq<Step>, end: Cluster)
    requires AllMinded(s) && Run(s, steps, end) && NoneLost(steps)
    ensures AllMinded(end)
    decreases |steps|
  {
    if steps != [] {
      assert steps[0].Send? ==> !steps[0].lost;
      MindedKept(s, steps[0]);
      assert forall k | 0 <= k < |steps[1..]| :: steps[1..][k] == steps[k + 1];
      AlwaysMinded(Do(s, steps[0]), steps[1..], end);
    }
  }

  /** A release of the right kind takes one lock with its uid away. */
  lemma DeliveryFrees(s: Cluster, i: Endpoint, name: string, e: Requester)
    requires Inv(s) && i in s.servers && Entry(s.servers[i], name, e) && Msg(i, name, e.uid, !e.writer) in s.releases
    ensures var s' := Do(s, Deliver(Msg(i, name, e.uid, !e.writer)));
            Held(s'.servers[i], name, e.uid) == Held(s.servers[i], name, e.uid) - 1
  {
    var m := s.servers[i];
    assert OneWriterOrReaders(m[name]);
    var k :| 0 <= k < |m[name]| && m[name][k] == e;
    assert Find(m[name], e.uid, 0) <= k;
    HasIsHeld(m, name, e.uid);
    RemoveTakesOne(m, name, e.uid, name, e.uid);
  }

  /**
    In every run in which no answer is lost, a lock of an attempt that is over has its release on its way, and
    delivering that takes the lock away.
   */
  lemma {:induction false} NothingLeaks(start: Cluster, steps: seq<Step>, end: Cluster, i: Endpoint, name: string,
                                        e: Requester)
    requires Start(start) && Run(start, steps, end) && NoneLost(steps)
    requires i in end.servers && Entry(end.servers[i], name, e)
    ensures KnownUid(end, e.uid)
    ensures Whose(end, e.uid).phase == Over ==>
              var release := Msg(i, name, e.uid, !e.writer);
              && Enabled(end, Deliver(release))
              && Held(Do(end, Deliver(release)).servers[i], name, e.uid) == Held(end.servers[i], name, e.uid) - 1
  {
    Reachable(start, steps, end);
    AlwaysMinded(start, steps, end);
    assert Minded(end, i, name, e.uid) && Traced(end, name, e);
    if Whose(end, e.uid).phase == Over { DeliveryFrees(end, i, name, e); }
  }

  /** A lost answer leaves a lock behind that only maintenance can find, in every cluster and for every name. */
  lemma LostAnswerLeaks(start: Cluster, name: string, read: bool, own: Endpoint, to: Endpoint)
    returns (steps: seq<Step>, end: Cluster, e: Requester)
    requires Start(start) && own in start.servers && to in start.servers
    ensures Run(start, steps, end) && to in end.servers && Entry(end.servers[to], name, e) && KnownUid(end, e.uid)
    ensures Whose(end, e.uid).phase == Over && end.releases == {}
  {
    var begin, send, decide := Begin(0, name, read, own), Send(0, to, "u", 0, true), Decide(0);
    steps := [begin, send, decide];
    var s1 := Do(start, begin);
    var s2 := Do(s1, send);
    end := Do(s2, decide);
    e := Request(LockArgs("u", name, own), !read, 0);
    assert s2.servers[to][name] == [e];
    assert Run(s2, [decide], end) by { assert [decide][1..] == []; }
    assert Run(s1, [send, decide], end) by { assert [send, decide][1..] == [decide]; }
    assert steps[1..] == [send, decide];
  }
}
