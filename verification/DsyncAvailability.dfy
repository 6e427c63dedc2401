/**
  How many servers may be silent: the exact number of servers that a reader and a writer
  need, in every state that a run leads to.
 */
module DsyncAvailability {
  import opened Sets
  import opened LockRpc
  import opened Dsync
  import opened DsyncSafety
  import opened DsyncTheorems
  import opened DsyncUids
  import opened DsyncTwoWriters

  /** The run goes on until attempt `b` holds the name, granted by no server outside `up`. */
  ghost predicate GetsLock(s: Cluster, b: nat, name: string, read: bool, own: Endpoint, up: set<Endpoint>) {
    exists more, end, from :: Run(s, more, end) && from <= up && Holds(end, b, name, read, own, from)
  }

  lemma {:induction false} RunJoins(s: Cluster, a: seq<Step>, mid: Cluster, b: seq<Step>, end: Cluster)
    requires Run(s, a, mid) && Run(mid, b, end)
    ensures Run(s, a + b, end)
    decreases |a|
  {
    if a == [] {
      assert a + b == b;
    } else {
      assert (a + b)[1..] == a[1..] + b;
      RunJoins(Do(s, a[0]), a[1..], mid, b, end);
    }
  }

  lemma {:induction false} BegunThroughout(s: Cluster, steps: seq<Step>, end: Cluster)
    requires Inv(s) && AllBegun(s) && Run(s, steps, end)
    ensures AllBegun(end)
    decreases |steps|
  {
    if steps != [] {
      StepKeeps(s, steps[0]);
      BegunKept(s, steps[0]);
      BegunThroughout(Do(s, steps[0]), steps[1..], end);
    }
  }

  /** Enough servers that would grant the lock do, and the attempt holds. */
  lemma EnoughIsEnough(s: Cluster, b: nat, name: string, read: bool, own: Endpoint, up: set<Endpoint>)
    requires AllBegun(s) && b !in s.attempts && own in up && up <= s.servers.Keys
    requires Suffice(|up|, |s.servers.Keys|, read) && forall i | i in up :: Granted(s.servers[i], name, read)
    ensures GetsLock(s, b, name, read, own, up)
  {
    var p := Policy(false, true, false);
    var end := Win(p, s, b, name, read, own, up);
    var more :| PolicyRun(p, s, more, end);
    PolicyRunIsRun(p, s, more, end);
    assert up <= up;
  }

  /** Fewer never are, whatever else is done. */
  lemma FewerAreNot(start: Cluster, steps: seq<Step>, s: Cluster, b: nat, name: string, read: bool, own: Endpoint,
                    up: set<Endpoint>)
    requires Start(start) && Run(start, steps, s) && GetsLock(s, b, name, read, own, up)
    ensures own in up && Suffice(|up|, |s.servers.Keys|, read)
  {
    var more, end, from :| Run(s, more, end) && from <= up && Holds(end, b, name, read, own, from);
    RunJoins(start, steps, s, more, end);
    HoldersHaveQuorum(start, steps + more, end, b);
    Reachable(start, steps, s);
    Reachable(start, steps + more, end);
    Smaller(from, up);
  }

  /**
    In every state, an attempt that only the servers `up` answer, each of which would grant it, can get the lock
    exactly if its own server is among them and they are half of the servers, or for a writer more than half. So a
    reader gets by with half of the servers silent, and a writer does not.
   */
  lemma GetsLockIff(start: Cluster, steps: seq<Step>, s: Cluster, b: nat, name: string, read: bool, own: Endpoint,
                    up: set<Endpoint>)
    requires Start(start) && Run(start, steps, s) && b !in s.attempts && up <= s.servers.Keys
    requires forall i | i in up :: Granted(s.servers[i], name, read)
    ensures GetsLock(s, b, name, read, own, up)
            <==> own in up && if read then 2 * |up| >= |s.servers.Keys| else 2 * |up| > |s.servers.Keys|
  {
    if GetsLock(s, b, name, read, own, up) { FewerAreNot(start, steps, s, b, name, read, own, up); }
    if own in up && Suffice(|up|, |s.servers.Keys|, read) {
      BegunThroughout(start, steps, s);
      EnoughIsEnough(s, b, name, read, own, up);
    }
  }
}
