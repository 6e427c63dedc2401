/**
  What distributed locks promise, what maintenance may and may not do to them, and what
  it does do when every server is sent a uid of its own.
 */
module DsyncTheorems {
  import opened Sets
  import opened LockRpc
  import opened LockRpcSafety
  import opened Dsync
  import opened DsyncSafety

  // ------------------------------------------------------------ quorums exclude

  /**
    A quorum is the own server and half of the servers, more than half for a writer: no more and no less. A write
    quorum meets every other quorum, because the number of servers is even.
   */
  lemma QuorumsMeet(s: Cluster, a: Attempt, b: Attempt)
    requires |s.servers.Keys| % 2 == 0
    ensures var k, n := |a.granted.Keys|, |s.servers.Keys|;
            Succeeds(s, a) <==> a.own in a.granted && if a.read then 2 * k >= n else 2 * k > n
    ensures Succeeds(s, a) && Succeeds(s, b) && (!a.read || !b.read) ==>
              |a.granted.Keys| + |b.granted.Keys| > |s.servers.Keys|
  {
  }

  /** Two attempts that hold one resource, and were not robbed, are both readers. */
  lemma {:induction false} QuorumExclusion(start: Cluster, steps: seq<Step>, end: Cluster, a: nat, b: nat)
    requires Start(start) && Run(start, steps, end)
    requires a in end.attempts && b in end.attempts && a != b && a !in end.robbed && b !in end.robbed
    requires end.attempts[a].phase == Holding && end.attempts[b].phase == Holding
             && end.attempts[a].name == end.attempts[b].name
    ensures end.attempts[a].read && end.attempts[b].read
  {
    Reachable(start, steps, end);
    if !end.attempts[a].read || !end.attempts[b].read {
      HoldersMeet(end, a, b);
    }
  }

  lemma HoldersMeet(s: Cluster, a: nat, b: nat)
    requires Inv(s) && |s.servers.Keys| % 2 == 0
    requires a in s.attempts && b in s.attempts && a != b && a !in s.robbed && b !in s.robbed
    requires s.attempts[a].phase == Holding && s.attempts[b].phase == Holding
             && s.attempts[a].name == s.attempts[b].name
    ensures s.attempts[a].read && s.attempts[b].read
  {
    if !s.attempts[a].read || !s.attempts[b].read {
      QuorumsMeet(s, s.attempts[a], s.attempts[b]);
      GrantedAreServers(s, a);
      GrantedAreServers(s, b);
      var i := Meet(s.servers.Keys, s.attempts[a].granted.Keys, s.attempts[b].granted.Keys);
      ShareServer(s, a, b, i);
    }
  }

  lemma GrantedAreServers(s: Cluster, a: nat)
    requires AllOwned(s) && a in s.attempts
    ensures s.attempts[a].granted.Keys <= s.servers.Keys
  {
    forall i | i in s.attempts[a].granted ensures i in s.servers { assert Owns(s, a, i); }
  }

  /** Where both were granted, both are readers. */
  lemma ShareServer(s: Cluster, a: nat, b: nat, i: Endpoint)
    requires Inv(s) && a in s.attempts && b in s.attempts && a != b && a !in s.robbed && b !in s.robbed
    requires i in s.attempts[a].granted && i in s.attempts[b].granted && s.attempts[a].name == s.attempts[b].name
    ensures s.attempts[a].read && s.attempts[b].read
  {
    assert Owns(s, a, i) && Owns(s, b, i) && Stands(s, a, i) && Stands(s, b, i);
    var name := s.attempts[a].name;
    var e := HadIsEntry(s.servers[i], name, s.attempts[a].granted[i]);
    var f := HadIsEntry(s.servers[i], name, s.attempts[b].granted[i]);
    assert Traced(s, name, e) && Traced(s, name, f);
    TwoAreReaders(s.servers[i], name, e, f);
  }

  // ------------------------------------------------------------ what a decision takes

  /**
    An attempt holds after its decision exactly if its own server and half of the servers granted it, more than
    half for a writer; otherwise it is over and gives back every lock it was granted.
   */
  lemma DecideExactly(start: Cluster, steps: seq<Step>, s: Cluster, a: nat)
    requires Start(start) && Run(start, steps, s) && a in s.attempts && s.attempts[a].phase == Trying
    ensures Enabled(s, Decide(a))
    ensures var at, n, k := s.attempts[a], |s.servers.Keys|, |s.attempts[a].granted.Keys|;
            var end := Do(s, Decide(a));
            if at.own in at.granted && (if at.read then 2 * k >= n else 2 * k > n)
            then end == s.(attempts := s.attempts[a := at.(phase := Holding)])
            else && end.servers == s.servers && end.attempts == s.attempts[a := at.(phase := Over, granted := map[])]
                 && forall msg :: msg in end.releases
                      <==> msg in s.releases || (msg.to in at.granted && msg == Msg(msg.to, at.name, at.granted[msg.to],
                                                                                    at.read))
  {
    Reachable(start, steps, s);
  }

  /** Whatever was done, who holds a lock was granted it by its own server and by half, or more than half. */
  lemma HoldersHaveQuorum(start: Cluster, steps: seq<Step>, end: Cluster, a: nat)
    requires Start(start) && Run(start, steps, end) && a in end.attempts && end.attempts[a].phase == Holding
    ensures var at, n, k := end.attempts[a], |end.servers.Keys|, |end.attempts[a].granted.Keys|;
            at.own in at.granted && at.granted.Keys <= end.servers.Keys && if at.read then 2 * k >= n else 2 * k > n
  {
    Reachable(start, steps, end);
    GrantedAreServers(end, a);
  }

  // ------------------------------------------------------------ maintenance

  /** The lock is in a server's table in every state of the run. */
  ghost predicate Throughout(s: Cluster, steps: seq<Step>, at: Endpoint, name: string, uid: string)
    decreases |steps|
  {
    && at in s.servers && Has(s.servers[at], name, uid)
    && (steps == [] || (Enabled(s, steps[0]) && Throughout(Do(s, steps[0]), steps[1..], at, name, uid)))
  }

  predicate Purges(steps: seq<Step>, j: nat) {
    steps != [] && (steps[0] == PurgeStep(j) || Purges(steps[1..], j))
  }

  /**
    While a lock stays in the table of the server it came from, no pick of it is ever found expired
    and its purge does nothing.
   */
  lemma {:induction false} LiveLockIsNotPurged(s: Cluster, steps: seq<Step>, end: Cluster, j: nat)
    requires Run(s, steps, end) && j in s.jobs && !s.jobs[j].expired && !Purges(steps, j)
    requires Throughout(s, steps, s.jobs[j].lri.origin, s.jobs[j].name, s.jobs[j].lri.uid)
    ensures j in end.jobs && end.jobs[j] == s.jobs[j]
    ensures Enabled(end, PurgeStep(j)) ==>
                Do(end, PurgeStep(j)).servers == end.servers && Do(end, PurgeStep(j)).robbed == end.robbed
    decreases |steps|
  {
    if steps != [] {
      assert Do(s, steps[0]).jobs[j] == s.jobs[j];
      LiveLockIsNotPurged(Do(s, steps[0]), steps[1..], end, j);
    }
  }

  /** A purge takes out at most one lock, and one with the uid it was picked for. */
  lemma PurgeTakesItsUid(s: Cluster, j: nat, i: Endpoint, name: string, uid: string)
    requires Enabled(s, PurgeStep(j)) && i in s.servers
    ensures var job := s.jobs[j];
            Held(Do(s, PurgeStep(j)).servers[i], name, uid)
            == Held(s.servers[i], name, uid)
               - (if job.expired && i == job.at && name == job.name && uid == job.lri.uid
                  && Held(s.servers[i], name, uid) > 0 then 1 else 0)
  {
    RemoveTakesOne(s.servers[s.jobs[j].at], s.jobs[j].name, s.jobs[j].lri.uid, name, uid);
  }
}
