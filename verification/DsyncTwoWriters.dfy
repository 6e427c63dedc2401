/**
  Two writers: which policies let maintenance admit a second writer beside a first one
  that still holds its lock, in every cluster and for every name.
 */
module DsyncTwoWriters {
  import opened Sets
  import opened LockRpc
  import opened LockRpcSafety
  import opened Dsync
  import opened DsyncSafety
  import opened DsyncTheorems
  import opened DsyncUids

  // ------------------------------------------------------------ runs by a policy

  lemma {:induction false} PolicyRunJoins(p: Policy, s: Cluster, a: seq<Step>, mid: Cluster, b: seq<Step>, end: Cluster)
    requires PolicyRun(p, s, a, mid) && PolicyRun(p, mid, b, end)
    ensures PolicyRun(p, s, a + b, end)
    decreases |a|
  {
    if a == [] {
      assert a + b == b;
    } else {
      assert (a + b)[1..] == a[1..] + b;
      PolicyRunJoins(p, Do(s, a[0]), a[1..], mid, b, end);
    }
  }

  ghost predicate Leads(p: Policy, s: Cluster, end: Cluster) {
    exists steps :: PolicyRun(p, s, steps, end)
  }

  lemma LeadsJoin(p: Policy, s: Cluster, mid: Cluster, end: Cluster)
    requires Leads(p, s, mid) && Leads(p, mid, end)
    ensures Leads(p, s, end)
  {
    var a :| PolicyRun(p, s, a, mid);
    var b :| PolicyRun(p, mid, b, end);
    PolicyRunJoins(p, s, a, mid, b, end);
  }

  lemma LeadsOne(p: Policy, s: Cluster, step: Step)
    requires Enabled(s, step) && Follows(p, s, step)
    ensures Leads(p, s, Do(s, step))
  {
    assert [step][1..] == [];
    assert PolicyRun(p, s, [step], Do(s, step));
  }

  lemma LeadsNowhere(p: Policy, s: Cluster)
    ensures Leads(p, s, s)
  {
    assert PolicyRun(p, s, [], s);
  }

  /** What holds in all states that runs by the policy lead to. */
  ghost predicate Sound(p: Policy, s: Cluster) {
    Inv(s) && AllBegun(s) && (!p.oneUid ==> AtHome(s))
  }

  lemma {:induction false} RunBegun(p: Policy, s: Cluster, steps: seq<Step>, end: Cluster)
    requires Inv(s) && AllBegun(s) && PolicyRun(p, s, steps, end)
    ensures AllBegun(end)
    decreases |steps|
  {
    if steps != [] {
      StepKeeps(s, steps[0]);
      BegunKept(s, steps[0]);
      RunBegun(p, Do(s, steps[0]), steps[1..], end);
    }
  }

  lemma LeadsKeeps(p: Policy, s: Cluster, end: Cluster)
    requires Sound(p, s) && Leads(p, s, end)
    ensures Sound(p, end) && end.servers.Keys == s.servers.Keys
  {
    var steps :| PolicyRun(p, s, steps, end);
    PolicyRunKeeps(p, s, steps, end);
    RunBegun(p, s, steps, end);
  }

  // ------------------------------------------------------------ maintenance picks and probes

  ghost predicate DoomedSomehow(s: Cluster, a: nat, i: Endpoint)
    requires a in s.attempts
  {
    exists j :: DoomedAt(s, a, i, j)
  }

  /** A write lock stands at these servers, and the attempt's own server knows none of its uids. */
  ghost predicate CanDoom(p: Policy, s: Cluster, a: nat, todo: set<Endpoint>) {
    && Inv(s) && a in s.attempts && !s.attempts[a].read && s.attempts[a].own in s.servers
    && (p.aged ==> s.attempts[a].phase != Trying)
    && todo <= s.attempts[a].granted.Keys && todo <= s.servers.Keys
    && forall i | i in todo :: Has(s.servers[i], s.attempts[a].name, s.attempts[a].granted[i])
                               && !Has(s.servers[s.attempts[a].own], s.attempts[a].name, s.attempts[a].granted[i])
  }

  /** Only picks were added. */
  ghost predicate MoreJobs(s: Cluster, s': Cluster) {
    s' == s.(jobs := s'.jobs) && forall j | j in s.jobs :: j in s'.jobs && s'.jobs[j] == s.jobs[j]
  }

  /** It is the only entry of its name there. */
  lemma WriteEntry(s: Cluster, a: nat, i: Endpoint)
    requires Inv(s) && a in s.attempts && !s.attempts[a].read && i in s.attempts[a].granted && i in s.servers
    requires Has(s.servers[i], s.attempts[a].name, s.attempts[a].granted[i])
    ensures var at := s.attempts[a]; var lri := s.servers[i][at.name];
            |lri| == 1 && lri[0].uid == at.granted[i] && lri[0].origin == at.own && UsedBy(s, at.granted[i], a)
  {
    var at := s.attempts[a];
    assert Owns(s, a, i);
    var e := HadIsEntry(s.servers[i], at.name, at.granted[i]);
    assert Traced(s, at.name, e) && OneWriterOrReaders(s.servers[i][at.name]);
  }

  lemma DoomOne(p: Policy, s: Cluster, a: nat, todo: set<Endpoint>, i: Endpoint) returns (end: Cluster)
    requires CanDoom(p, s, a, todo) && i in todo
    ensures Leads(p, s, end) && MoreJobs(s, end) && DoomedSomehow(end, a, i) && Inv(end)
  {
    WriteEntry(s, a, i);
    var j := SomeNat(s.jobs.Keys);
    var pick, probe := Pick(j, i, s.attempts[a].name, 0), Probe(j);
    LeadsOne(p, s, pick);
    var s1 := Do(s, pick);
    LeadsOne(p, s1, probe);
    end := Do(s1, probe);
    LeadsJoin(p, s, s1, end);
    StepKeeps(s, pick);
    StepKeeps(s1, probe);
    assert DoomedAt(end, a, i, j);
  }

  lemma DoomedStays(s: Cluster, s': Cluster, a: nat, i: Endpoint)
    requires MoreJobs(s, s') && a in s.attempts && DoomedSomehow(s, a, i)
    ensures DoomedSomehow(s', a, i)
  {
    var j :| DoomedAt(s, a, i, j);
    assert DoomedAt(s', a, i, j);
  }

  lemma {:induction false} DoomAll(p: Policy, s: Cluster, a: nat, todo: set<Endpoint>) returns (end: Cluster)
    requires CanDoom(p, s, a, todo)
    ensures Leads(p, s, end) && MoreJobs(s, end) && forall i | i in todo :: DoomedSomehow(end, a, i)
    decreases |todo|
  {
    if todo == {} {
      end := s;
      LeadsNowhere(p, s);
    } else {
      var i :| i in todo;
      var s1 := DoomOne(p, s, a, todo, i);
      end := DoomAll(p, s1, a, todo - {i});
      LeadsJoin(p, s, s1, end);
      DoomedStays(s1, end, a, i);
    }
  }

  // ------------------------------------------------------------ maintenance purges

  /** The attempt's write lock still stands at servers where a pick of it was found expired. */
  ghost predicate Evictable(s: Cluster, a: nat, todo: set<Endpoint>) {
    && Inv(s) && a in s.attempts && !s.attempts[a].read && todo <= s.servers.Keys
    && forall i | i in todo :: DoomedSomehow(s, a, i) && Has(s.servers[i], s.attempts[a].name, s.attempts[a].granted[i])
  }

  /** A name was dropped at some servers and nothing else changed there or in the attempts. */
  ghost predicate Emptied(s: Cluster, s': Cluster, name: string, at: set<Endpoint>) {
    && s'.attempts == s.attempts && s'.servers.Keys == s.servers.Keys
    && forall i | i in s.servers :: s'.servers[i] == if i in at then s.servers[i] - {name} else s.servers[i]
  }

  lemma EvictOne(p: Policy, s: Cluster, a: nat, todo: set<Endpoint>, i: Endpoint) returns (end: Cluster)
    requires Evictable(s, a, todo) && i in todo
    ensures Leads(p, s, end) && Emptied(s, end, s.attempts[a].name, {i}) && Evictable(end, a, todo - {i})
  {
    var j :| DoomedAt(s, a, i, j);
    PurgeEmpties(s, a, i, j);
    LeadsOne(p, s, PurgeStep(j));
    end := Do(s, PurgeStep(j));
    StepKeeps(s, PurgeStep(j));
    forall k | k in todo - {i} ensures DoomedSomehow(end, a, k) { PurgeLeavesOthers(s, a, i, j, k); }
  }

  lemma PurgeLeavesOthers(s: Cluster, a: nat, i: Endpoint, j: nat, k: Endpoint)
    requires Enabled(s, PurgeStep(j)) && a in s.attempts && DoomedAt(s, a, i, j) && k != i && DoomedSomehow(s, a, k)
    ensures a in Do(s, PurgeStep(j)).attempts && DoomedSomehow(Do(s, PurgeStep(j)), a, k)
  {
    var l :| DoomedAt(s, a, k, l);
    assert DoomedAt(Do(s, PurgeStep(j)), a, k, l);
  }

  /** The purge drops the name at its server and changes nothing else there or in the attempts. */
  lemma PurgeEmpties(s: Cluster, a: nat, i: Endpoint, j: nat)
    requires Inv(s) && a in s.attempts && !s.attempts[a].read && i in s.servers && DoomedAt(s, a, i, j)
    requires Has(s.servers[i], s.attempts[a].name, s.attempts[a].granted[i])
    ensures Emptied(s, Do(s, PurgeStep(j)), s.attempts[a].name, {i})
  {
    WriteEntry(s, a, i);
  }

  lemma EmptiedMore(s: Cluster, s1: Cluster, s2: Cluster, name: string, i: Endpoint, todo: set<Endpoint>)
    requires i in todo && Emptied(s, s1, name, {i}) && Emptied(s1, s2, name, todo - {i})
    ensures Emptied(s, s2, name, todo)
  {
  }

  /** Maintenance clears a set of servers of the lock, one after the other. */
  lemma {:induction false} EvictAll(p: Policy, s: Cluster, a: nat, todo: set<Endpoint>) returns (end: Cluster)
    requires Evictable(s, a, todo)
    ensures Leads(p, s, end) && Emptied(s, end, s.attempts[a].name, todo)
    decreases |todo|
  {
    if todo == {} {
      end := s;
      LeadsNowhere(p, s);
    } else {
      var i :| i in todo;
      var s1 := EvictOne(p, s, a, todo, i);
      end := EvictAll(p, s1, a, todo - {i});
      LeadsJoin(p, s, s1, end);
      EmptiedMore(s, s1, end, s.attempts[a].name, i, todo);
    }
  }

  // ------------------------------------------------------------ a client asks

  ghost predicate Others(s: Cluster, s': Cluster, b: nat) {
    forall c | c != b :: (c in s'.attempts <==> c in s.attempts)
                         && (c in s.attempts ==> s'.attempts[c] == s.attempts[c])
  }

  /** Attempt `b` was granted more servers and kept what it had; nothing else changed. */
  ghost predicate Gained(s: Cluster, s': Cluster, b: nat, more: set<Endpoint>) {
    && s'.servers.Keys == s.servers.Keys && s'.robbed == s.robbed && s'.jobs == s.jobs
    && (forall i | i in s.servers && i !in more :: s'.servers[i] == s.servers[i])
    && Others(s, s', b)
    && b in s.attempts && b in s'.attempts
    && s'.attempts[b] == s.attempts[b].(asked := s.attempts[b].asked + more, granted := s'.attempts[b].granted)
    && s'.attempts[b].granted.Keys == s.attempts[b].granted.Keys + more
    && (forall i | i in s.attempts[b].granted && i !in more :: s'.attempts[b].granted[i] == s.attempts[b].granted[i])
  }

  ghost predicate UsesOne(s: Cluster, b: nat) {
    forall u, v | UsedBy(s, u, b) && UsedBy(s, v, b) :: u == v && u != ""
  }

  ghost predicate CanGrab(p: Policy, s: Cluster, b: nat, todo: set<Endpoint>) {
    && b in s.attempts && s.attempts[b].phase == Trying && (p.oneUid ==> UsesOne(s, b))
    && todo <= s.servers.Keys && todo !! s.attempts[b].asked
    && forall i | i in todo :: Granted(s.servers[i], s.attempts[b].name, s.attempts[b].read)
  }

  /** A uid the policy lets the attempt send. */
  lemma NextUid(p: Policy, s: Cluster, b: nat) returns (uid: string)
    requires p.oneUid ==> UsesOne(s, b)
    ensures uid != "" && (uid in s.used ==> UsedBy(s, uid, b))
    ensures if p.oneUid then forall u | UsedBy(s, u, b) :: u == uid else uid !in s.used
  {
    if p.oneUid && exists u :: UsedBy(s, u, b) {
      uid :| UsedBy(s, uid, b);
    } else {
      uid := SomeString(s.used.Keys);
    }
  }

  /** One more server grants the lock. */
  lemma Grab(p: Policy, s: Cluster, b: nat, todo: set<Endpoint>, i: Endpoint) returns (end: Cluster)
    requires CanGrab(p, s, b, todo) && i in todo
    requires p.ownFirst ==> i == s.attempts[b].own || s.attempts[b].own in s.attempts[b].asked
    ensures Leads(p, s, end) && Gained(s, end, b, {i}) && CanGrab(p, end, b, todo - {i})
  {
    var uid := NextUid(p, s, b);
    var step := Send(b, i, uid, 0, false);
    LeadsOne(p, s, step);
    end := Do(s, step);
    if p.oneUid { GrabUses(s, b, step); }
  }

  lemma GrabUses(s: Cluster, b: nat, step: Step)
    requires UsesOne(s, b) && Enabled(s, step) && step.Send? && step.a == b
             && forall u | UsedBy(s, u, b) :: u == step.uid
    ensures UsesOne(Do(s, step), b)
  {
    var s' := Do(s, step);
    forall u | UsedBy(s', u, b) ensures u == step.uid { assert u == step.uid || UsedBy(s, u, b); }
  }

  lemma GainedMore(s: Cluster, s1: Cluster, s2: Cluster, b: nat, i: Endpoint, todo: set<Endpoint>)
    requires i in todo && Gained(s, s1, b, {i}) && Gained(s1, s2, b, todo - {i})
    ensures Gained(s, s2, b, todo)
  {
    assert {i} + (todo - {i}) == todo;
    assert s.attempts[b].asked + {i} + (todo - {i}) == s.attempts[b].asked + todo;
  }

  lemma {:induction false} GrabAll(p: Policy, s: Cluster, b: nat, todo: set<Endpoint>) returns (end: Cluster)
    requires CanGrab(p, s, b, todo) && (p.ownFirst ==> s.attempts[b].own in s.attempts[b].asked)
    ensures Leads(p, s, end) && Gained(s, end, b, todo) && CanGrab(p, end, b, {})
    decreases |todo|
  {
    if todo == {} {
      end := s;
      LeadsNowhere(p, s);
    } else {
      var i :| i in todo;
      var s1 := Grab(p, s, b, todo, i);
      end := GrabAll(p, s1, b, todo - {i});
      LeadsJoin(p, s, s1, end);
      GainedMore(s, s1, end, b, i, todo);
    }
  }

  lemma Open(p: Policy, s: Cluster, b: nat, name: string, read: bool, own: Endpoint, from: set<Endpoint>)
    returns (end: Cluster)
    requires AllBegun(s) && b !in s.attempts && own in s.servers && from <= s.servers.Keys
             && forall i | i in from :: Granted(s.servers[i], name, read)
    ensures Leads(p, s, end) && end == s.(attempts := end.attempts) && Others(s, end, b) && CanGrab(p, end, b, from)
    ensures end.attempts[b] == Attempt(name, read, own, {}, map[], Trying)
  {
    LeadsOne(p, s, Begin(b, name, read, own));
    end := Do(s, Begin(b, name, read, own));
  }

  /** The attempt holds the name, granted by the servers `from`. */
  ghost predicate Holds(s: Cluster, b: nat, name: string, read: bool, own: Endpoint, from: set<Endpoint>) {
    && b in s.attempts
    && var at := s.attempts[b];
       at.name == name && at.read == read && at.own == own && at.phase == Holding && at.granted.Keys == from
  }

  /** Half of `n` servers for a reader, more than half for a writer. */
  predicate Suffice(k: nat, n: nat, read: bool) {
    if read then 2 * k >= n else 2 * k > n
  }

  lemma Settle(p: Policy, s: Cluster, b: nat, from: set<Endpoint>) returns (end: Cluster)
    requires b in s.attempts && s.attempts[b].phase == Trying && s.attempts[b].own in from
    requires s.attempts[b].granted.Keys == from && Suffice(|from|, |s.servers.Keys|, s.attempts[b].read)
    ensures Leads(p, s, end) && end == s.(attempts := s.attempts[b := s.attempts[b].(phase := Holding)])
    ensures Others(s, end, b) && Holds(end, b, s.attempts[b].name, s.attempts[b].read, s.attempts[b].own, from)
  {
    LeadsOne(p, s, Decide(b));
    end := Do(s, Decide(b));
  }

  /** An attempt that the given servers can grant gets them, its own server first, and holds. */
  lemma Win(p: Policy, s: Cluster, b: nat, name: string, read: bool, own: Endpoint, from: set<Endpoint>)
    returns (end: Cluster)
    requires AllBegun(s) && b !in s.attempts && own in from && from <= s.servers.Keys
             && Suffice(|from|, |s.servers.Keys|, read)
    requires forall i | i in from :: Granted(s.servers[i], name, read)
    ensures Leads(p, s, end) && end.servers.Keys == s.servers.Keys && end.robbed == s.robbed
    ensures Others(s, end, b) && Holds(end, b, name, read, own, from)
  {
    var s1 := Open(p, s, b, name, read, own, from);
    var s2 := Grab(p, s1, b, from, own);
    var s3 := GrabAll(p, s2, b, from - {own});
    GainedMore(s1, s2, s3, b, own, from);
    end := Settle(p, s3, b, from);
    LeadsJoin(p, s, s1, s2);
    LeadsJoin(p, s, s2, s3);
    LeadsJoin(p, s, s3, end);
  }

  // ------------------------------------------------------------ two writers

  ghost predicate Writes(s: Cluster, a: nat, name: string) {
    a in s.attempts && s.attempts[a].phase == Holding && !s.attempts[a].read && s.attempts[a].name == name
  }

  ghost predicate TwoWriters(s: Cluster, name: string) {
    exists a, b :: a != b && Writes(s, a, name) && Writes(s, b, name)
  }

  /** The first writer holds everywhere, and picks of its lock were found expired at all servers but its own. */
  ghost predicate Exposed(s: Cluster, name: string, x: Endpoint) {
    && x in s.servers && s.robbed == {} && s.attempts.Keys == {0} && Holds(s, 0, name, false, x, s.servers.Keys)
    && forall i | i in s.servers.Keys - {x} :: DoomedSomehow(s, 0, i)
  }

  lemma ExposedIsEvictable(s: Cluster, name: string, x: Endpoint)
    requires Inv(s) && Exposed(s, name, x)
    ensures Evictable(s, 0, s.servers.Keys - {x})
  {
    forall i | i in s.servers && i != x
      ensures Has(s.servers[i], name, s.attempts[0].granted[i])
    {
      assert Stands(s, 0, i);
    }
  }

  lemma Cleared(p: Policy, s: Cluster, name: string, x: Endpoint) returns (end: Cluster)
    requires Inv(s) && Exposed(s, name, x)
    ensures Leads(p, s, end) && end.attempts == s.attempts && end.servers.Keys == s.servers.Keys
    ensures forall i | i in s.servers.Keys - {x} :: name !in end.servers[i]
  {
    var rest := s.servers.Keys - {x};
    ExposedIsEvictable(s, name, x);
    end := EvictAll(p, s, 0, rest);
    forall i | i in rest ensures name !in end.servers[i] { assert end.servers[i] == s.servers[i] - {name}; }
  }

  /** A second attempt gets the servers that were cleared. */
  lemma SecondWins(p: Policy, s: Cluster, name: string, x: Endpoint) returns (end: Cluster)
    requires AllBegun(s) && |s.servers.Keys| >= 4 && x in s.servers && s.attempts.Keys == {0}
             && Holds(s, 0, name, false, x, s.servers.Keys)
    requires forall i | i in s.servers.Keys - {x} :: name !in s.servers[i]
    ensures Leads(p, s, end) && TwoWriters(end, name)
  {
    var rest := s.servers.Keys - {x};
    OneLess(s.servers.Keys, x);
    var y :| y in rest;
    end := Win(p, s, 1, name, false, y, rest);
    BothWrite(s, end, name, x, s.servers.Keys, y, rest);
  }

  /** Then maintenance makes room for a second writer. */
  lemma SecondWriter(p: Policy, s: Cluster, name: string, x: Endpoint) returns (end: Cluster)
    requires Sound(p, s) && |s.servers.Keys| >= 4 && Exposed(s, name, x)
    ensures Leads(p, s, end) && TwoWriters(end, name)
  {
    var s1 := Cleared(p, s, name, x);
    LeadsKeeps(p, s, s1);
    end := SecondWins(p, s1, name, x);
    LeadsJoin(p, s, s1, end);
  }

  lemma BothWrite(s: Cluster, end: Cluster, name: string, x: Endpoint, all: set<Endpoint>, y: Endpoint,
                  rest: set<Endpoint>)
    requires Holds(s, 0, name, false, x, all) && Others(s, end, 1) && Holds(end, 1, name, false, y, rest)
    ensures TwoWriters(end, name)
  {
    assert Writes(end, 0, name) && Writes(end, 1, name);
  }

  lemma StartIsSound(p: Policy, s: Cluster)
    requires Start(s)
    ensures Sound(p, s)
  {
  }

  /** Attempt 0 holds, or tries, and was granted every server in `from`, as the only attempt. */
  ghost predicate First(s: Cluster, name: string, x: Endpoint, phase: Phase, from: set<Endpoint>) {
    && x in s.servers && s.robbed == {} && s.attempts.Keys == {0}
    && var at := s.attempts[0];
       at.name == name && !at.read && at.own == x && at.phase == phase && at.granted.Keys == from
  }

  lemma FirstCanDoom(p: Policy, s: Cluster, name: string, x: Endpoint, phase: Phase, from: set<Endpoint>)
    requires Inv(s) && First(s, name, x, phase, from) && (p.aged ==> phase != Trying) && from <= s.servers.Keys
    requires forall i | i in from - {x} :: !Has(s.servers[x], name, s.attempts[0].granted[i])
    ensures CanDoom(p, s, 0, from - {x})
  {
    forall i | i in from ensures Has(s.servers[i], name, s.attempts[0].granted[i]) { assert Stands(s, 0, i); }
  }

  lemma DoomedIsExposed(s: Cluster, end: Cluster, name: string, x: Endpoint)
    requires First(s, name, x, Holding, s.servers.Keys) && MoreJobs(s, end)
    requires forall i | i in s.servers.Keys - {x} :: DoomedSomehow(end, 0, i)
    ensures Exposed(end, name, x)
  {
  }

  lemma FirstHolds(p: Policy, start: Cluster, name: string, x: Endpoint) returns (end: Cluster)
    requires start.attempts == map[] && start.used == map[] && start.robbed == {} && |start.servers.Keys| >= 4
    requires x in start.servers && forall i | i in start.servers :: name !in start.servers[i]
    ensures Leads(p, start, end) && end.servers.Keys == start.servers.Keys
            && First(end, name, x, Holding, start.servers.Keys)
  {
    end := Win(p, start, 0, name, false, x, start.servers.Keys);
  }

  lemma FirstWins(p: Policy, start: Cluster, name: string, x: Endpoint) returns (end: Cluster)
    requires Start(start) && x in start.servers
    ensures Leads(p, start, end) && Sound(p, end) && end.servers.Keys == start.servers.Keys
    ensures First(end, name, x, Holding, start.servers.Keys)
  {
    StartIsSound(p, start);
    end := FirstHolds(p, start, name, x);
    LeadsKeeps(p, start, end);
  }

  /** A new uid with each request: the first writer is exposed, whatever the order and the age. */
  lemma ExposedByUids(p: Policy, start: Cluster, name: string, x: Endpoint) returns (end: Cluster)
    requires !p.oneUid && Start(start) && x in start.servers
    ensures Leads(p, start, end) && Exposed(end, name, x)
  {
    var s := FirstWins(p, start, name, x);
    end := ExposedLater(p, s, name, x);
    LeadsJoin(p, start, s, end);
  }

  lemma ExposedLater(p: Policy, s: Cluster, name: string, x: Endpoint) returns (end: Cluster)
    requires !p.oneUid && Sound(p, s) && First(s, name, x, Holding, s.servers.Keys)
    ensures Leads(p, s, end) && Exposed(end, name, x)
  {
    var rest := s.servers.Keys - {x};
    forall i | i in rest ensures !Has(s.servers[x], name, s.attempts[0].granted[i]) { NotAtOwn(s, 0, i); }
    FirstCanDoom(p, s, name, x, Holding, s.servers.Keys);
    end := DoomAll(p, s, 0, rest);
    DoomedIsExposed(s, end, name, x);
  }

  /** All servers but its own granted the first attempt. */
  lemma AllButOwn(p: Policy, start: Cluster, name: string, x: Endpoint) returns (end: Cluster)
    requires !p.ownFirst && Start(start) && x in start.servers
    ensures Leads(p, start, end) && First(end, name, x, Trying, start.servers.Keys - {x})
    ensures x !in end.attempts[0].asked && end.servers.Keys == start.servers.Keys && end.servers[x] == map[]
    ensures p.oneUid ==> UsesOne(end, 0)
  {
    StartIsSound(p, start);
    var s1 := Open(p, start, 0, name, false, x, start.servers.Keys);
    end := GrabAll(p, s1, 0, start.servers.Keys - {x});
    LeadsJoin(p, start, s1, end);
  }

  lemma DoomedCanGrab(p: Policy, s: Cluster, end: Cluster, name: string, x: Endpoint, from: set<Endpoint>)
    requires First(s, name, x, Trying, from) && MoreJobs(s, end)
    requires x !in s.attempts[0].asked && s.servers[x] == map[] && (p.oneUid ==> UsesOne(s, 0))
    ensures First(end, name, x, Trying, from) && CanGrab(p, end, 0, {x})
  {
    forall u | UsedBy(end, u, 0) ensures UsedBy(s, u, 0) {}
  }

  /** Picks of the first attempt's lock were found expired before its own server was asked. */
  lemma DoomedEarly(p: Policy, start: Cluster, name: string, x: Endpoint) returns (end: Cluster)
    requires !p.ownFirst && !p.aged && Start(start) && x in start.servers
    ensures Leads(p, start, end) && First(end, name, x, Trying, start.servers.Keys - {x})
    ensures end.servers.Keys == start.servers.Keys && CanGrab(p, end, 0, {x})
    ensures forall i | i in start.servers.Keys - {x} :: DoomedSomehow(end, 0, i)
  {
    var rest := start.servers.Keys - {x};
    StartIsSound(p, start);
    var s := AllButOwn(p, start, name, x);
    LeadsKeeps(p, start, s);
    FirstCanDoom(p, s, name, x, Trying, rest);
    assert rest - {x} == rest;
    end := DoomAll(p, s, 0, rest);
    LeadsJoin(p, start, s, end);
    DoomedCanGrab(p, s, end, name, x, rest);
  }

  /** One uid, but the own server asked last and picks made before: the same. */
  lemma ExposedByOrder(p: Policy, start: Cluster, name: string, x: Endpoint) returns (end: Cluster)
    requires !p.ownFirst && !p.aged && Start(start) && x in start.servers
    ensures Leads(p, start, end) && Exposed(end, name, x)
  {
    var s := DoomedEarly(p, start, name, x);
    end := OwnLast(p, s, name, x);
    LeadsJoin(p, start, s, end);
  }

  /** The own server grants at last, and the attempt holds. */
  lemma OwnLast(p: Policy, s: Cluster, name: string, x: Endpoint) returns (end: Cluster)
    requires !p.ownFirst && |s.servers.Keys| >= 4 && First(s, name, x, Trying, s.servers.Keys - {x})
             && CanGrab(p, s, 0, {x})
    requires forall i | i in s.servers.Keys - {x} :: DoomedSomehow(s, 0, i)
    ensures Leads(p, s, end) && Exposed(end, name, x)
  {
    var all := s.servers.Keys;
    var s1 := Grab(p, s, 0, {x}, x);
    assert all - {x} + {x} == all;
    end := Settle(p, s1, 0, all);
    LeadsJoin(p, s, s1, end);
    SettledIsExposed(s, s1, end, name, x);
  }

  lemma SettledIsExposed(s: Cluster, s1: Cluster, end: Cluster, name: string, x: Endpoint)
    requires First(s, name, x, Trying, s.servers.Keys - {x}) && Gained(s, s1, 0, {x})
    requires forall i | i in s.servers.Keys - {x} :: DoomedSomehow(s, 0, i)
    requires end == s1.(attempts := s1.attempts[0 := s1.attempts[0].(phase := Holding)])
    ensures Exposed(end, name, x)
  {
    assert s.servers.Keys - {x} + {x} == s.servers.Keys;
    forall i | i in s.servers.Keys - {x} ensures DoomedSomehow(end, 0, i) { StillDoomed(s, s1, end, i, x); }
  }

  lemma StillDoomed(s: Cluster, s1: Cluster, end: Cluster, i: Endpoint, x: Endpoint)
    requires 0 in s.attempts && DoomedSomehow(s, 0, i) && i != x && Gained(s, s1, 0, {x})
    requires end == s1.(attempts := s1.attempts[0 := s1.attempts[0].(phase := Holding)])
    ensures DoomedSomehow(end, 0, i)
  {
    var j :| DoomedAt(s, 0, i, j);
    assert DoomedAt(end, 0, i, j);
  }

  lemma {:induction false} SafeExcludes(p: Policy, start: Cluster, steps: seq<Step>, end: Cluster, name: string)
    requires SafePolicy(p) && Start(start) && PolicyRun(p, start, steps, end)
    ensures !TwoWriters(end, name)
  {
    PolicyRunIsRun(p, start, steps, end);
    forall a, b | a != b && Writes(end, a, name) ensures !Writes(end, b, name) {
      HeldIsNeverRobbed(p, start, steps, end, a);
      if Writes(end, b, name) {
        HeldIsNeverRobbed(p, start, steps, end, b);
        QuorumExclusion(start, steps, end, a, b);
        assert false;
      }
    }
  }

  /**
    In every cluster and for every name: without forced releases, two writers can come to
    hold the name exactly if attempts do not use one uid each, or neither ask their own
    server first nor are left alone by maintenance until they are decided.
   */
  lemma TwoWritersIff(p: Policy, start: Cluster, name: string)
    requires Start(start)
    ensures (exists end :: Leads(p, start, end) && TwoWriters(end, name)) <==> !SafePolicy(p)
  {
    if SafePolicy(p) {
      forall end | Leads(p, start, end) ensures !TwoWriters(end, name) {
        var steps :| PolicyRun(p, start, steps, end);
        SafeExcludes(p, start, steps, end, name);
      }
    } else {
      var x :| x in start.servers;
      var s;
      if p.oneUid { s := ExposedByOrder(p, start, name, x); } else { s := ExposedByUids(p, start, name, x); }
      StartIsSound(p, start);
      LeadsKeeps(p, start, s);
      var end := SecondWriter(p, s, name, x);
      LeadsJoin(p, start, s, end);
    }
  }
}
