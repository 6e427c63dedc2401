/**
  Maintenance asks the server a lock came from about the uid that the asking server knows.
  Whether that finds every live lock depends on how clients draw uids, in which order they
  ask the servers, and how old a lock is when maintenance picks it.
 */
module DsyncUids {
  import opened LockRpc
  import opened Dsync
  import opened DsyncSafety

  // ------------------------------------------------------------ one held lock

  /** The attempt uses the uid it sent to its own server everywhere. */
  ghost predicate OneUid(at: Attempt) {
    at.own in at.granted && forall i | i in at.granted :: at.granted[i] == at.granted[at.own]
  }

  /** A pick of the attempt's lock at server `i` was found expired. */
  ghost predicate DoomedAt(s: Cluster, a: nat, i: Endpoint, j: nat)
    requires a in s.attempts
  {
    && i in s.attempts[a].granted && j in s.jobs
    && s.jobs[j] == Job(i, s.attempts[a].name, s.jobs[j].lri, true) && s.jobs[j].lri.uid == s.attempts[a].granted[i]
  }

  ghost predicate Doomed(s: Cluster, a: nat)
    requires a in s.attempts
  {
    exists i, j :: DoomedAt(s, a, i, j)
  }

  ghost predicate Secure(s: Cluster, a: nat) {
    && a in s.attempts && s.attempts[a].phase == Holding && a !in s.robbed
    && OneUid(s.attempts[a]) && !Doomed(s, a)
  }

  lemma HoldingStays(s: Cluster, step: Step, a: nat)
    requires Enabled(s, step) && a in s.attempts && s.attempts[a].phase == Holding && step != Finish(a)
    ensures a in Do(s, step).attempts && Do(s, step).attempts[a].phase == Holding
    ensures Do(s, step).attempts[a].name == s.attempts[a].name && Do(s, step).attempts[a].own == s.attempts[a].own
    ensures Do(s, step).attempts[a].granted == s.attempts[a].granted
  {
  }

  lemma NotRobbed(s: Cluster, step: Step, a: nat)
    requires Enabled(s, step) && Secure(s, a) && !step.ForceAt?
    ensures a !in Do(s, step).robbed
  {
    if step.PurgeStep? && a in Do(s, step).robbed { assert DoomedAt(s, a, s.jobs[step.j].at, step.j); }
  }

  /** Only a probe that does not find the lock makes a pick expired. */
  lemma StepExpires(s: Cluster, step: Step, j: nat)
    requires Enabled(s, step) && j in Do(s, step).jobs && Do(s, step).jobs[j].expired
    ensures j in s.jobs && s.jobs[j].(expired := true) == Do(s, step).jobs[j]
    ensures s.jobs[j].expired
            || (s.jobs[j].lri.origin in s.servers
                && !Has(s.servers[s.jobs[j].lri.origin], s.jobs[j].name, s.jobs[j].lri.uid))
  {
  }

  lemma StaysUndoomed(s: Cluster, step: Step, a: nat)
    requires Enabled(s, step) && Inv(s) && Secure(s, a) && step != Finish(a)
    ensures a in Do(s, step).attempts && !Doomed(Do(s, step), a)
  {
    var at, s' := s.attempts[a], Do(s, step);
    HoldingStays(s, step, a);
    assert Stands(s, a, at.own);
    forall i, j ensures !DoomedAt(s', a, i, j) {
      if j in s'.jobs && s'.jobs[j].expired && i in at.granted {
        StepExpires(s, step, j);
        assert !DoomedAt(s, a, i, j) && Owns(s, a, i) && Traced(s, s.jobs[j].name, s.jobs[j].lri);
      }
    }
  }

  lemma SecureStep(s: Cluster, step: Step, a: nat)
    requires Enabled(s, step) && Inv(s) && Secure(s, a) && !step.ForceAt? && step != Finish(a)
    ensures Secure(Do(s, step), a)
  {
    HoldingStays(s, step, a);
    NotRobbed(s, step, a);
    StaysUndoomed(s, step, a);
  }

  predicate Undisturbed(steps: seq<Step>, a: nat) {
    steps == [] || (!steps[0].ForceAt? && steps[0] != Finish(a) && Undisturbed(steps[1..], a))
  }

  lemma {:induction false} SecureRun(s: Cluster, steps: seq<Step>, end: Cluster, a: nat)
    requires Inv(s) && Secure(s, a) && Run(s, steps, end) && Undisturbed(steps, a)
    ensures Secure(end, a)
    decreases |steps|
  {
    if steps != [] {
      SecureStep(s, steps[0], a);
      StepKeeps(s, steps[0]);
      SecureRun(Do(s, steps[0]), steps[1..], end, a);
    }
  }

  /** Some run in which the attempt keeps its lock, and nothing is forced, robs it. */
  ghost predicate CanBeRobbed(s: Cluster, a: nat) {
    exists steps, end :: Run(s, steps, end) && Undisturbed(steps, a) && a in end.robbed
  }

  lemma DoomedIsRobbed(s: Cluster, a: nat)
    requires AllOwned(s) && a in s.attempts && s.attempts[a].phase == Holding && Doomed(s, a)
    ensures CanBeRobbed(s, a)
  {
    var i, j :| DoomedAt(s, a, i, j);
    assert Owns(s, a, i);
    var steps := [PurgeStep(j)];
    assert steps[1..] == [];
    assert Run(s, steps, Do(s, PurgeStep(j))) && Undisturbed(steps, a);
  }

  lemma SecureIsNotRobbed(s: Cluster, a: nat)
    requires Inv(s) && Secure(s, a)
    ensures !CanBeRobbed(s, a)
  {
    forall steps, end | Run(s, steps, end) && Undisturbed(steps, a)
      ensures a !in end.robbed
    {
      SecureRun(s, steps, end, a);
    }
  }

  /** A lock held under one uid can be lost to maintenance exactly if a pick of it was found expired already. */
  lemma {:induction false} RobbedIffDoomed(start: Cluster, steps: seq<Step>, s: Cluster, a: nat)
    requires Start(start) && Run(start, steps, s)
    requires a in s.attempts && s.attempts[a].phase == Holding && a !in s.robbed && OneUid(s.attempts[a])
    ensures CanBeRobbed(s, a) <==> Doomed(s, a)
  {
    Reachable(start, steps, s);
    if Doomed(s, a) { DoomedIsRobbed(s, a); } else { SecureIsNotRobbed(s, a); }
  }

  // ------------------------------------------------------------ policies

  /**
    How locks are asked for and picked. `oneUid`: an attempt sends one uid to all servers,
    instead of a new one with each request. `ownFirst`: it asks its own server before the
    others. `aged`: maintenance picks a lock only when its attempt is decided.
   */
  datatype Policy = Policy(oneUid: bool, ownFirst: bool, aged: bool)

  predicate UsedBy(s: Cluster, uid: string, a: nat) {
    uid in s.used && s.used[uid].attempt == a
  }

  ghost predicate Follows(p: Policy, s: Cluster, step: Step)
    requires Enabled(s, step)
  {
    match step
    case Send(a, to, uid, _, _) =>
      && (if p.oneUid then forall u | UsedBy(s, u, a) :: u == uid else uid !in s.used)
      && (p.ownFirst ==> to == s.attempts[a].own || s.attempts[a].own in s.attempts[a].asked)
    case Pick(_, at, name, k) =>
      p.aged ==> forall a | a in s.attempts && UsedBy(s, s.servers[at][name][k].uid, a) :: s.attempts[a].phase != Trying
    case ForceAt(_, _) => false
    case _ => true
  }

  /** A run by the policy, without forced releases. */
  ghost predicate PolicyRun(p: Policy, s: Cluster, steps: seq<Step>, end: Cluster)
    decreases |steps|
  {
    if steps == [] then s == end
    else Enabled(s, steps[0]) && Follows(p, s, steps[0]) && PolicyRun(p, Do(s, steps[0]), steps[1..], end)
  }

  lemma {:induction false} PolicyRunIsRun(p: Policy, s: Cluster, steps: seq<Step>, end: Cluster)
    requires PolicyRun(p, s, steps, end)
    ensures Run(s, steps, end)
    decreases |steps|
  {
    if steps != [] { PolicyRunIsRun(p, Do(s, steps[0]), steps[1..], end); }
  }

  // ------------------------------------------------------------ a uid per request

  /** Every uid lives at one server only. */
  ghost predicate AtHome(s: Cluster) {
    && (forall i, name, e | i in s.servers && Entry(s.servers[i], name, e) :: e.uid in s.used && s.used[e.uid].to == i)
    && (forall a, i | a in s.attempts && i in s.attempts[a].granted ::
        s.attempts[a].granted[i] in s.used
        && s.used[s.attempts[a].granted[i]].to == i)
  }

  lemma HomesKept(p: Policy, s: Cluster, step: Step)
    requires !p.oneUid && Enabled(s, step) && Follows(p, s, step) && AtHome(s)
    ensures AtHome(Do(s, step))
  {
    var s' := Do(s, step);
    SameHomes(p, s, step);
    forall i, name, e | i in s'.servers && Entry(s'.servers[i], name, e)
      ensures e.uid in s'.used && s'.used[e.uid].to == i
    {
      StepEntries(s, step, i, name, e);
    }
    forall a, i | a in s'.attempts && i in s'.attempts[a].granted
      ensures s'.attempts[a].granted[i] in s'.used && s'.used[s'.attempts[a].granted[i]].to == i
    {
      StepGrants(s, step, a, i);
    }
  }

  lemma SameHomes(p: Policy, s: Cluster, step: Step)
    requires !p.oneUid && Enabled(s, step) && Follows(p, s, step)
    ensures forall u | u in s.used :: u in Do(s, step).used && Do(s, step).used[u] == s.used[u]
    ensures step.Send? ==> step.uid in Do(s, step).used && Do(s, step).used[step.uid].to == step.to
  {
  }

  lemma {:induction false} PolicyRunKeeps(p: Policy, s: Cluster, steps: seq<Step>, end: Cluster)
    requires Inv(s) && (!p.oneUid ==> AtHome(s)) && PolicyRun(p, s, steps, end)
    ensures Inv(end) && (!p.oneUid ==> AtHome(end)) && end.servers.Keys == s.servers.Keys
    decreases |steps|
  {
    if steps != [] {
      StepKeeps(s, steps[0]);
      if !p.oneUid { HomesKept(p, s, steps[0]); }
      ServersKept(s, steps[0]);
      PolicyRunKeeps(p, Do(s, steps[0]), steps[1..], end);
    }
  }

  /** What a probe of a granted lock says: a live lock is found only where it came from. */
  lemma {:induction false} ProbeVerdict(p: Policy, start: Cluster, steps: seq<Step>, end: Cluster, a: nat, i: Endpoint)
    requires !p.oneUid && Start(start) && PolicyRun(p, start, steps, end)
    requires a in end.attempts && end.attempts[a].phase == Holding && a !in end.robbed && i in end.attempts[a].granted
    ensures var at := end.attempts[a];
            && at.own in end.servers
            && (!Has(end.servers[at.own], at.name, at.granted[i]) <==> i != at.own)
  {
    PolicyRunKeeps(p, start, steps, end);
    var at := end.attempts[a];
    assert Owns(end, a, at.own) && Stands(end, a, at.own);
    if i != at.own { NotAtOwn(end, a, i); }
  }

  lemma NotAtOwn(s: Cluster, a: nat, i: Endpoint)
    requires AtHome(s) && a in s.attempts && i in s.attempts[a].granted && i != s.attempts[a].own
             && s.attempts[a].own in s.servers
    ensures !Has(s.servers[s.attempts[a].own], s.attempts[a].name, s.attempts[a].granted[i])
  {
    var at := s.attempts[a];
    if Has(s.servers[at.own], at.name, at.granted[i]) {
      var e := HadIsEntry(s.servers[at.own], at.name, at.granted[i]);
      assert false;
    }
  }

  // ------------------------------------------------------------ one uid, asked or picked in order

  /** Uids and lost locks belong to attempts that asked some server. */
  ghost predicate AllBegun(s: Cluster) {
    && (forall u | u in s.used :: s.used[u].attempt in s.attempts && s.attempts[s.used[u].attempt].asked != {})
    && (forall a | a in s.robbed :: a in s.attempts && s.attempts[a].asked != {})
  }

  ghost predicate AllOneUid(s: Cluster) {
    forall u, v | u in s.used && v in s.used && s.used[u].attempt == s.used[v].attempt :: u == v
  }

  /** Maintenance never picked a lock of the attempt and took none from it. */
  ghost predicate Untouched(s: Cluster, a: nat) {
    a !in s.robbed && forall j | j in s.jobs :: !UsedBy(s, s.jobs[j].lri.uid, a)
  }

  /** Maintenance may have picked locks of the attempt; it took none and will take none. */
  ghost predicate Live(s: Cluster, a: nat) {
    a !in s.robbed && forall j | j in s.jobs && UsedBy(s, s.jobs[j].lri.uid, a) :: !s.jobs[j].expired
  }

  ghost predicate AllLive(s: Cluster) {
    forall a | a in s.attempts && s.attempts[a].own in s.attempts[a].granted :: Live(s, a)
  }

  ghost predicate AllOrdered(p: Policy, s: Cluster) {
    forall a | a in s.attempts ::
      && (p.ownFirst ==> s.attempts[a].asked == {} || s.attempts[a].own in s.attempts[a].asked)
      && (p.aged && s.attempts[a].phase == Trying ==> Untouched(s, a))
  }

  ghost predicate Steady(p: Policy, s: Cluster) {
    Inv(s) && AllBegun(s) && AllOneUid(s) && AllOrdered(p, s) && AllLive(s)
  }

  predicate SafePolicy(p: Policy) {
    p.oneUid && (p.ownFirst || p.aged)
  }

  lemma BegunKept(s: Cluster, step: Step)
    requires Enabled(s, step) && Inv(s) && AllBegun(s)
    ensures AllBegun(Do(s, step))
  {
    var s' := Do(s, step);
    StepSameAttempts(s, step);
    forall a | a in s'.robbed ensures a in s'.attempts && s'.attempts[a].asked != {} {
      if a !in s.robbed { RobbedAsked(s, step, a); }
    }
  }

  lemma RobbedAsked(s: Cluster, step: Step, a: nat)
    requires Enabled(s, step) && AllOwned(s) && a in Do(s, step).robbed && a !in s.robbed
    ensures a in s.attempts && s.attempts[a].asked != {}
  {
    var i := if step.PurgeStep? then s.jobs[step.j].at else step.at;
    assert Owns(s, a, i);
  }

  lemma OneUidKept(p: Policy, s: Cluster, step: Step)
    requires p.oneUid && Enabled(s, step) && Follows(p, s, step) && AllOneUid(s)
    ensures AllOneUid(Do(s, step))
  {
    if step.Send? {
      forall u | u in s.used && s.used[u].attempt == step.a ensures u == step.uid { assert UsedBy(s, u, step.a); }
    }
  }

  /** A step picks only locks of attempts the policy lets it pick. */
  lemma StepTouches(p: Policy, s: Cluster, step: Step, a: nat)
    requires Enabled(s, step) && Follows(p, s, step) && Inv(s) && AllBegun(s)
    requires a in s.attempts && Untouched(s, a)
             && (s.attempts[a].asked == {} || (p.aged && s.attempts[a].phase == Trying))
    ensures Untouched(Do(s, step), a)
  {
    var s' := Do(s, step);
    forall i, j | i in s.attempts[a].granted && j in s.jobs
      ensures s.attempts[a].granted[i] != s.jobs[j].lri.uid
    {
      assert Owns(s, a, i);
    }
    forall j | j in s'.jobs ensures !UsedBy(s', s'.jobs[j].lri.uid, a) {
      StepJobs(s, step, j);
      if j in s.jobs {
        assert Traced(s, s.jobs[j].name, s.jobs[j].lri);
      } else {
        assert Traced(s, s'.jobs[j].name, s'.jobs[j].lri);
      }
    }
  }

  /** An attempt that has just begun was not touched. */
  lemma NewIsUntouched(s: Cluster, step: Step, a: nat)
    requires Enabled(s, step) && Inv(s) && AllBegun(s) && a !in s.attempts && a in Do(s, step).attempts
    ensures Untouched(Do(s, step), a) && Do(s, step).attempts[a].asked == {}
  {
    forall j | j in s.jobs ensures !UsedBy(s, s.jobs[j].lri.uid, a) { assert Traced(s, s.jobs[j].name, s.jobs[j].lri); }
  }

  lemma OwnFirstKept(p: Policy, s: Cluster, step: Step, a: nat)
    requires Enabled(s, step) && Follows(p, s, step) && p.ownFirst && a in s.attempts
    requires s.attempts[a].asked == {} || s.attempts[a].own in s.attempts[a].asked
    ensures a in Do(s, step).attempts
    ensures Do(s, step).attempts[a].asked == {} || Do(s, step).attempts[a].own in Do(s, step).attempts[a].asked
  {
  }

  lemma OrderedKept(p: Policy, s: Cluster, step: Step)
    requires Enabled(s, step) && Follows(p, s, step) && Inv(s) && AllBegun(s) && AllOrdered(p, s)
    ensures AllOrdered(p, Do(s, step))
  {
    var s' := Do(s, step);
    forall a | a in s'.attempts
      ensures p.ownFirst ==> s'.attempts[a].asked == {} || s'.attempts[a].own in s'.attempts[a].asked
      ensures p.aged && s'.attempts[a].phase == Trying ==> Untouched(s', a)
    {
      if a !in s.attempts {
        NewIsUntouched(s, step, a);
      } else {
        if p.ownFirst { OwnFirstKept(p, s, step, a); }
        if p.aged && s'.attempts[a].phase == Trying { StaysUntouched(p, s, step, a); }
      }
    }
  }

  lemma StaysUntouched(p: Policy, s: Cluster, step: Step, a: nat)
    requires Enabled(s, step) && Follows(p, s, step) && Inv(s) && AllBegun(s) && p.aged
    requires a in s.attempts && (s.attempts[a].phase == Trying ==> Untouched(s, a))
             && Do(s, step).attempts[a].phase == Trying
    ensures Untouched(Do(s, step), a)
  {
    StillTrying(s, step, a);
    StepTouches(p, s, step, a);
  }

  lemma StillTrying(s: Cluster, step: Step, a: nat)
    requires Enabled(s, step) && a in s.attempts && Do(s, step).attempts[a].phase == Trying
    ensures s.attempts[a].phase == Trying
  {
  }

  /** An attempt without uids was not touched. */
  lemma UnusedIsUntouched(s: Cluster, a: nat)
    requires AllBegun(s) && a in s.attempts && s.attempts[a].asked == {}
    ensures Untouched(s, a)
  {
  }

  /** The own server knows every uid of an attempt it granted. */
  lemma KnownAtOwn(s: Cluster, a: nat, uid: string)
    requires AllOwned(s) && AllStand(s) && AllOneUid(s) && UsedBy(s, uid, a)
    requires a in s.attempts && a !in s.robbed && s.attempts[a].own in s.attempts[a].granted
    ensures s.attempts[a].own in s.servers && Has(s.servers[s.attempts[a].own], s.attempts[a].name, uid)
  {
    assert Owns(s, a, s.attempts[a].own) && Stands(s, a, s.attempts[a].own);
  }

  /** A pick of a lock that stands at its own server is not found expired. */
  lemma PickStaysFresh(s: Cluster, step: Step, a: nat, j: nat)
    requires Enabled(s, step) && AllJobs(s) && a in s.attempts && Live(s, a) && s.attempts[a].own in s.servers
    requires j in s.jobs && UsedBy(s, s.jobs[j].lri.uid, a) ==>
                 Has(s.servers[s.attempts[a].own], s.attempts[a].name, s.jobs[j].lri.uid)
    requires j in Do(s, step).jobs && UsedBy(Do(s, step), Do(s, step).jobs[j].lri.uid, a)
    ensures !Do(s, step).jobs[j].expired
  {
    if Do(s, step).jobs[j].expired {
      StepExpires(s, step, j);
    }
  }

  lemma LiveIsNotRobbed(s: Cluster, step: Step, a: nat)
    requires Enabled(s, step) && AllOwned(s) && a in s.attempts && Live(s, a) && !step.ForceAt?
    ensures a !in Do(s, step).robbed
  {
    forall i | i in s.attempts[a].granted ensures UsedBy(s, s.attempts[a].granted[i], a) { assert Owns(s, a, i); }
  }

  /** A lock that stands at its own server stays live. */
  lemma LiveStays(p: Policy, s: Cluster, step: Step, a: nat)
    requires Enabled(s, step) && Follows(p, s, step) && Inv(s) && AllOneUid(s)
    requires a in s.attempts && s.attempts[a].own in s.attempts[a].granted && Live(s, a)
    ensures Live(Do(s, step), a)
  {
    LiveIsNotRobbed(s, step, a);
    assert Owns(s, a, s.attempts[a].own);
    forall j | j in Do(s, step).jobs && UsedBy(Do(s, step), Do(s, step).jobs[j].lri.uid, a)
      ensures !Do(s, step).jobs[j].expired
    {
      if j in s.jobs && UsedBy(s, s.jobs[j].lri.uid, a) { KnownAtOwn(s, a, s.jobs[j].lri.uid); }
      PickStaysFresh(s, step, a, j);
    }
  }

  /** A lock its own server has just granted is live. */
  lemma NewlyLive(p: Policy, s: Cluster, step: Step, a: nat)
    requires SafePolicy(p) && Enabled(s, step) && Follows(p, s, step) && Inv(s) && AllBegun(s) && AllOrdered(p, s)
    requires step.Send? && step.a == a && step.to == s.attempts[a].own && s.attempts[a].phase == Trying
    ensures Live(Do(s, step), a)
  {
    if s.attempts[a].asked == {} { UnusedIsUntouched(s, a); }
    assert Untouched(s, a);
    forall j | j in s.jobs
      ensures !UsedBy(Do(s, step), s.jobs[j].lri.uid, a)
    {
      assert Traced(s, s.jobs[j].name, s.jobs[j].lri);
    }
  }

  lemma LiveKept(p: Policy, s: Cluster, step: Step)
    requires SafePolicy(p) && Enabled(s, step) && Follows(p, s, step) && Steady(p, s)
    ensures AllLive(Do(s, step))
  {
    var s' := Do(s, step);
    forall a | a in s'.attempts && s'.attempts[a].own in s'.attempts[a].granted ensures Live(s', a) {
      StepGrants(s, step, a, s'.attempts[a].own);
      StepSameAttempts(s, step);
      if s.attempts[a].own in s.attempts[a].granted { LiveStays(p, s, step, a); } else { NewlyLive(p, s, step, a); }
    }
  }

  lemma SteadyStep(p: Policy, s: Cluster, step: Step)
    requires SafePolicy(p) && Enabled(s, step) && Follows(p, s, step) && Steady(p, s)
    ensures Steady(p, Do(s, step))
  {
    StepKeeps(s, step);
    BegunKept(s, step);
    OneUidKept(p, s, step);
    OrderedKept(p, s, step);
    LiveKept(p, s, step);
  }

  lemma {:induction false} SteadyRun(p: Policy, s: Cluster, steps: seq<Step>, end: Cluster)
    requires SafePolicy(p) && Steady(p, s) && PolicyRun(p, s, steps, end)
    ensures Steady(p, end)
    decreases |steps|
  {
    if steps != [] {
      SteadyStep(p, s, steps[0]);
      SteadyRun(p, Do(s, steps[0]), steps[1..], end);
    }
  }

  /** With one uid, and the own server first or decided locks only, maintenance takes no lock from whoever holds one. */
  lemma {:induction false} HeldIsNeverRobbed(p: Policy, start: Cluster, steps: seq<Step>, end: Cluster, a: nat)
    requires SafePolicy(p) && Start(start) && PolicyRun(p, start, steps, end)
    requires a in end.attempts && end.attempts[a].phase == Holding
    ensures a !in end.robbed && !Doomed(end, a)
  {
    SteadyRun(p, start, steps, end);
    assert Succeeds(end, end.attempts[a]) && Live(end, a);
    forall i, j ensures !DoomedAt(end, a, i, j) {
      if i in end.attempts[a].granted { assert Owns(end, a, i); }
    }
  }
}
