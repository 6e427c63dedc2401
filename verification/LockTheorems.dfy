/**
  What the lock table promises over whole runs, and what a forced removal breaks.
 */
module LockTheorems {
  import opened Wrappers
  import opened LockTable
  import opened Sets
  import opened LockProtocol
  import opened LockSafety

  lemma ExclusionHere(s: State, p: Param, a: OpsID, b: OpsID)
    requires CleanAt(s, p) && a in s.clients && b in s.clients && a != b
             && s.clients[a].param == p == s.clients[b].param
    ensures s.clients[a].lock == s.clients[b].lock
    ensures s.clients[a].phase != Waiting && s.clients[b].phase != Waiting ==> s.clients[a].read && s.clients[b].read
  {
    var mine := At(s.clients, p);
    assert a in mine && b in mine;
    var m := SlotAt(s.table, p).value.mutex;
    if s.clients[a].phase != Waiting && !s.clients[a].read { WriterAlone(m, mine, a, b); }
    if s.clients[b].phase != Waiting && !s.clients[b].read { WriterAlone(m, mine, b, a); }
  }

  /** A writer never overlaps another holder of a path that was not forced while in use. */
  lemma MutualExclusion(steps: seq<Step>, end: State, a: OpsID, b: OpsID)
    requires Run(START, steps, end)
    requires a in end.clients && b in end.clients && a != b
    requires end.clients[a].param == end.clients[b].param && end.clients[a].param !in end.tainted
    ensures end.clients[a].lock == end.clients[b].lock
    ensures end.clients[a].phase != Waiting && end.clients[b].phase != Waiting ==>
                end.clients[a].read && end.clients[b].read
  {
    CleanEverywhere(steps, end, end.clients[a].param);
    ExclusionHere(end, end.clients[a].param, a, b);
  }

  lemma WriterAlone(m: RWMutex, mine: map<OpsID, Client>, w: OpsID, x: OpsID)
    requires HeldBy(m, mine) && w in mine && x in mine && w != x
    requires mine[w].phase != Waiting && !mine[w].read
    ensures mine[x].phase == Waiting
  {
    assert w in Holders(mine, false);
    OneLess(Holders(mine, false), w);
    assert x !in Holders(mine, false) - {w};
    assert x !in Holders(mine, true);
  }

  /** The entry stays while anyone is in flight, with their number as its reference count and them as its lock info. */
  lemma EntryCountsOperations(steps: seq<Step>, end: State, p: Param)
    requires Run(START, steps, end) && p !in end.tainted
    ensures p in end.table.lockMap <==> At(end.clients, p).Keys != {}
    ensures p in end.table.lockMap ==>
              && end.table.lockMap[p].ref == |At(end.clients, p).Keys|
              && InfoAt(end.table.debug, p).Keys == At(end.clients, p).Keys
              && forall o | o in At(end.clients, p) :: InfoAt(end.table.debug, p)[o] == InfoOf(end.clients[o])
  {
    Reachable(steps, end);
    assert CleanAt(end, p) && (p in end.table.lockMap ==> p in end.table.debug);
  }

  /** The mutex of a path whose operations all wait is free. */
  lemma AllWaitIsFree(m: RWMutex, mine: map<OpsID, Client>, read: bool)
    requires HeldBy(m, mine) && forall o | o in mine :: mine[o].phase == Waiting
    ensures m.CanLock(read)
  {
    assert Holders(mine, true) == {} == Holders(mine, false);
  }

  /** An operation on a clean path has the path's mutex, and its lock info describes it. */
  lemma CleanClient(s: State, o: OpsID)
    requires o in s.clients && CleanAt(s, s.clients[o].param)
    ensures s.clients[o].lock in s.table.mutexes
    ensures HeldBy(s.table.mutexes[s.clients[o].lock], At(s.clients, s.clients[o].param))
    ensures var info := InfoAt(s.table.debug, s.clients[o].param); o in info && info[o] == InfoOf(s.clients[o])
  {
    assert o in At(s.clients, s.clients[o].param);
  }

  lemma CleanEverywhere(steps: seq<Step>, end: State, p: Param)
    requires Run(START, steps, end) && p !in end.tainted
    ensures CleanAt(end, p)
  {
    Reachable(steps, end);
  }

  /** Nobody but waiting operations is at the path. */
  ghost predicate OnlyWaiting(s: State, p: Param) {
    forall q | q in At(s.clients, p) :: s.clients[q].phase == Waiting
  }

  lemma CleanCanGet(s: State, o: OpsID)
    requires !s.dead && o in s.clients && s.clients[o].phase == Waiting
    requires CleanAt(s, s.clients[o].param) && OnlyWaiting(s, s.clients[o].param)
    ensures Enabled(s, Get(o))
  {
    CleanClient(s, o);
    AllWaitIsFree(s.table.mutexes[s.clients[o].lock], At(s.clients, s.clients[o].param), s.clients[o].read);
  }

  /** An operation waiting for a path that nobody holds can have it: no reference is ever stuck on a lost mutex. */
  lemma WaitingCanGet(steps: seq<Step>, end: State, o: OpsID)
    requires Run(START, steps, end) && !end.dead && o in end.clients && end.clients[o].phase == Waiting
    requires end.clients[o].param !in end.tainted && OnlyWaiting(end, end.clients[o].param)
    ensures Enabled(end, Get(o))
  {
    CleanEverywhere(steps, end, end.clients[o].param);
    CleanCanGet(end, o);
  }

  lemma CleanConfirms(s: State, o: OpsID)
    requires o in s.clients && s.clients[o].phase != Active && CleanAt(s, s.clients[o].param)
    ensures RunningError(s.table, s.clients[o].param, s.clients[o].source, o) == None
  {
    CleanClient(s, o);
  }

  /** Marking an operation running never fails on such a path. */
  lemma ConfirmSucceeds(steps: seq<Step>, end: State, o: OpsID)
    requires Run(START, steps, end) && o in end.clients && end.clients[o].phase != Active
    requires end.clients[o].param !in end.tainted
    ensures RunningError(end.table, end.clients[o].param, end.clients[o].source, o) == None
  {
    CleanEverywhere(steps, end, end.clients[o].param);
    CleanConfirms(end, o);
  }

  /** When nothing is in flight the table is empty and its counters are zero, even after forced removals. */
  lemma IdleIsEmpty(steps: seq<Step>, end: State)
    requires Run(START, steps, end) && end.clients == map[]
    ensures end.table.lockMap == map[] && end.table.debug == map[] && end.table.counters == ZERO
  {
    Reachable(steps, end);
    forall p ensures p !in end.table.lockMap {
      assert At(end.clients, p).Keys == {};
    }
    assert end.table.debug.Keys == {};
    assert Recorded(end.table.debug, Blocked) == {} == Recorded(end.table.debug, Running);
  }

  /** Counters are conserved in every run, forced removals included. */
  lemma CountersConserved(steps: seq<Step>, end: State)
    requires Run(START, steps, end)
    ensures end.table.lockMap.Keys == end.table.debug.Keys
    ensures forall p | p in end.table.debug :: end.table.debug[p].counters == Stat(end.table.debug[p].info)
    ensures TotalsOk(end.table.debug, end.table.counters)
  {
    Reachable(steps, end);
  }

  // ------------------------------------------------------------ runs without ForceUnlock

  predicate Unforced(steps: seq<Step>) {
    steps == [] || (!steps[0].ForceStep? && Unforced(steps[1..]))
  }

  ghost predicate AllClean(s: State) {
    forall p {:trigger CleanAt(s, p)} :: CleanAt(s, p)
  }

  lemma {:induction false} UnforcedRun(s: State, steps: seq<Step>, end: State)
    requires Inv(s) && s.tainted == {} && !s.dead && Run(s, steps, end) && Unforced(steps)
    ensures !end.dead && Inv(end) && AllClean(end)
    decreases |steps|
  {
    if steps == [] {
      forall p ensures CleanAt(end, p) { assert p !in end.tainted; }
    } else {
      UnforcedStep(s, steps[0]);
      UnforcedRun(Do(s, steps[0]), steps[1..], end);
    }
  }

  lemma UnforcedStep(s: State, step: Step)
    requires Inv(s) && s.tainted == {} && Enabled(s, step) && !step.ForceStep?
    ensures Inv(Do(s, step)) && Do(s, step).tainted == {} && !Do(s, step).dead
  {
    StepKeeps(s, step);
    StillUntainted(s, step);
  }

  lemma StillUntainted(s: State, step: Step)
    requires s.tainted == {} && Enabled(s, step) && !step.ForceStep?
    ensures Do(s, step).tainted == {}
  {
  }

  /** Without forced removals no path is tainted and no unlock stops the process. */
  lemma {:induction false} UnforcedIsSafe(steps: seq<Step>, end: State)
    requires Run(START, steps, end) && Unforced(steps)
    ensures !end.dead && Inv(end) && AllClean(end)
  {
    StartIsClean();
    UnforcedRun(START, steps, end);
  }

  function InPhase(clients: map<OpsID, Client>, st: Status): set<OpsID> {
    set o | o in clients && InfoOf(clients[o]).status == st
  }

  function Tagged(clients: map<OpsID, Client>, ops: set<OpsID>): set<(Param, OpsID)>
    requires ops <= clients.Keys
  {
    set o | o in ops :: (clients[o].param, o)
  }

  lemma {:induction false} TaggedCount(clients: map<OpsID, Client>, ops: set<OpsID>)
    requires ops <= clients.Keys
    ensures |Tagged(clients, ops)| == |ops|
  {
    if ops != {} {
      var o :| o in ops;
      TaggedCount(clients, ops - {o});
      assert Tagged(clients, ops) == Tagged(clients, ops - {o}) + {(clients[o].param, o)};
    }
  }

  /** Then the global counters are the numbers of operations that still wait, that run, and of both. */
  lemma {:induction false} CountersCountOperations(steps: seq<Step>, end: State)
    requires Run(START, steps, end) && Unforced(steps)
    ensures end.table.counters.blocked == |InPhase(end.clients, Blocked)|
    ensures end.table.counters.granted == |InPhase(end.clients, Running)|
    ensures end.table.counters.total == |end.clients.Keys|
  {
    UnforcedIsSafe(steps, end);
    CleanCounters(end);
  }

  lemma CleanCounters(s: State)
    requires Inv(s) && AllClean(s)
    ensures s.table.counters.blocked == |InPhase(s.clients, Blocked)|
    ensures s.table.counters.granted == |InPhase(s.clients, Running)|
    ensures s.table.counters.total == |s.clients.Keys|
  {
    RecordedCount(s, Blocked);
    RecordedCount(s, Running);
    Parts(s.clients.Keys, InPhase(s.clients, Blocked), InPhase(s.clients, Running));
  }

  lemma RecordedCount(s: State, st: Status)
    requires Inv(s) && AllClean(s)
    ensures |Recorded(s.table.debug, st)| == |InPhase(s.clients, st)|
  {
    forall x ensures x in Recorded(s.table.debug, st) <==> x in Tagged(s.clients, InPhase(s.clients, st)) {
      RecordedIsTagged(s, st, x);
    }
    assert Recorded(s.table.debug, st) == Tagged(s.clients, InPhase(s.clients, st));
    TaggedCount(s.clients, InPhase(s.clients, st));
  }

  lemma RecordedIsTagged(s: State, st: Status, x: (Param, OpsID))
    requires Inv(s) && AllClean(s)
    ensures x in Recorded(s.table.debug, st) <==> x in Tagged(s.clients, InPhase(s.clients, st))
  {
    var (p, o) := x;
    assert CleanAt(s, p) && BackedAt(s, p);
    if o in s.clients && s.clients[o].param == p {
      assert o in At(s.clients, p);
    }
  }

  // ------------------------------------------------------------ what a forced removal breaks

  lemma {:induction false} RunSplits(s: State, a: seq<Step>, b: seq<Step>, mid: State, end: State)
    requires Run(s, a, mid) && Run(mid, b, end)
    ensures Run(s, a + b, end)
    decreases |a|
  {
    if a == [] {
      assert a + b == b;
    } else {
      RunSplits(Do(s, a[0]), a[1..], b, mid, end);
      assert (a + b)[1..] == a[1..] + b;
    }
  }

  lemma {:induction false} UnforcedJoins(a: seq<Step>, b: seq<Step>)
    requires Unforced(a) && Unforced(b)
    ensures Unforced(a + b)
  {
    if a == [] {
      assert a + b == b;
    } else {
      UnforcedJoins(a[1..], b);
      assert (a + b)[1..] == a[1..] + b;
    }
  }

  /** Some run without forced removals gets there. */
  ghost predicate Leads(s: State, end: State) {
    exists steps :: Run(s, steps, end) && Unforced(steps)
  }

  lemma LeadsNowhere(s: State)
    ensures Leads(s, s)
  {
    assert Run(s, [], s) && Unforced([]);
  }

  lemma LeadsOn(s: State, mid: State, step: Step)
    requires Leads(s, mid) && Enabled(mid, step) && !step.ForceStep?
    ensures Leads(s, Do(mid, step))
  {
    var steps :| Run(s, steps, mid) && Unforced(steps);
    var end := Do(mid, step);
    assert [step][1..] == [];
    assert Run(end, [step][1..], end);
    RunSplits(s, steps, [step], mid, end);
    UnforcedJoins(steps, [step]);
  }

  predicate HoldsPath(s: State, o: OpsID, p: Param) {
    o in s.clients && s.clients[o].param == p && s.clients[o].phase != Waiting
  }

  /** A writer shares the path with another holder. */
  ghost predicate Overlap(s: State, p: Param) {
    exists a, b :: a != b && HoldsPath(s, a, p) && HoldsPath(s, b, p) && !s.clients[a].read
  }

  /** The path was forgotten while an operation that knows it goes on. */
  ghost predicate Orphaned(s: State, p: Param, o: OpsID) {
    !s.dead && p !in s.table.lockMap && HoldsPath(s, o, p) && s.clients[o].phase == Active
  }

  lemma ConfirmOrphan(f: State, s: State, p: Param, o: OpsID)
    requires Leads(f, s) && !s.dead && p !in s.table.lockMap && HoldsPath(s, o, p)
    ensures exists end :: Leads(f, end) && Orphaned(end, p, o)
  {
    if s.clients[o].phase == Holding {
      LeadsOn(f, s, Confirm(o));
      assert Orphaned(Do(s, Confirm(o)), p, o);
    } else {
      assert Orphaned(s, p, o);
    }
  }

  /** An operation at the path holds it, or can get it. */
  ghost predicate Live(s: State, p: Param, o: OpsID) {
    o in s.clients && s.clients[o].param == p && (s.clients[o].phase != Waiting || Enabled(s, Get(o)))
  }

  /** It can go on holding the path after that was forced. */
  lemma ForceOrphans(s: State, p: Param, o: OpsID) returns (end: State)
    requires !s.dead && Live(s, p, o)
    ensures Leads(Do(s, ForceStep(p)), end) && Orphaned(end, p, o)
  {
    var f := Do(s, ForceStep(p));
    LeadsNowhere(f);
    if s.clients[o].phase != Waiting {
      ConfirmOrphan(f, f, p, o);
    } else {
      LeadsOn(f, f, Get(o));
      ConfirmOrphan(f, Do(f, Get(o)), p, o);
    }
    end :| Leads(f, end) && Orphaned(end, p, o);
  }

  /** On a path that was not forced while in use, some operation is live if there is any. */
  lemma InUseIsLive(steps: seq<Step>, s: State, p: Param)
    requires Run(START, steps, s) && !s.dead && p !in s.tainted
    ensures (exists o :: Live(s, p, o)) <==> At(s.clients, p).Keys != {}
  {
    if At(s.clients, p).Keys != {} {
      var o :| o in At(s.clients, p);
      if OnlyWaiting(s, p) {
        WaitingCanGet(steps, s, o);
        assert Live(s, p, o);
      } else {
        var q :| q in At(s.clients, p) && s.clients[q].phase != Waiting;
        assert Live(s, p, q);
      }
    } else {
      forall o ensures !Live(s, p, o) { assert o !in At(s.clients, p); }
    }
  }

  /** A new writer gets a lock object of its own at once, beside the old holder. */
  lemma OrphanOverlaps(f: State, s: State, p: Param, o: OpsID) returns (end: State)
    requires Leads(f, s) && Orphaned(s, p, o)
    ensures Leads(f, end) && Overlap(end, p)
  {
    var b := SomeString(s.clients.Keys);
    LeadsOn(f, s, Ask(b, p, "", false));
    var s1 := Do(s, Ask(b, p, "", false));
    LeadsOn(f, s1, Get(b));
    end := Do(s1, Get(b));
    assert HoldsPath(end, b, p) && HoldsPath(end, o, p);
  }

  /** The old holder's `unlock` hits the new, unheld lock object and stops the process. */
  lemma OrphanStops(f: State, s: State, p: Param, o: OpsID, read: bool) returns (end: State)
    requires Leads(f, s) && Orphaned(s, p, o)
    ensures Leads(f, end) && end.dead
  {
    var b := SomeString(s.clients.Keys);
    LeadsOn(f, s, Ask(b, p, "", read));
    var s1 := Do(s, Ask(b, p, "", read));
    LeadsOn(f, s1, Release(o));
    end := Do(s1, Release(o));
  }

  lemma {:induction false} StaysUntainted(s: State, steps: seq<Step>, end: State, p: Param)
    requires Run(s, steps, end) && Unforced(steps) && p !in s.tainted
    ensures p !in end.tainted
    decreases |steps|
  {
    if steps != [] { StaysUntainted(Do(s, steps[0]), steps[1..], end, p); }
  }

  // ------------------------------------------------------------ operations that are stuck

  /** The state without some operations, and without the mark on the path. */
  function Without(s: State, p: Param, stuck: set<OpsID>): State {
    s.(clients := s.clients - stuck, tainted := s.tainted - {p})
  }

  /** The operations wait for mutexes that nobody else has, and that are held for ever. */
  ghost predicate Stuck(s: State, p: Param, stuck: set<OpsID>) {
    && stuck <= s.clients.Keys
    && (forall o | o in stuck :: && s.clients[o].param == p && s.clients[o].phase == Waiting
                                 && s.clients[o].lock < s.table.made
                                 && Lost(s, s.clients[o].lock, s.clients[o].read, stuck))
  }

  ghost predicate Lost(s: State, id: LockId, read: bool, stuck: set<OpsID>) {
    && id in s.table.mutexes && !s.table.mutexes[id].CanLock(read)
    && (forall q | q in s.table.lockMap :: s.table.lockMap[q].lock != id)
    && forall o | o in s.clients && o !in stuck :: s.clients[o].lock != id
  }

  lemma LostAsk(s: State, o: OpsID, p: Param, source: string, read: bool, id: LockId, mode: bool, stuck: set<OpsID>)
    requires Enabled(s, Ask(o, p, source, read)) && Lost(s, id, mode, stuck) && id < s.table.made
    ensures Lost(Do(s, Ask(o, p, source, read)), id, mode, stuck) && id < Do(s, Ask(o, p, source, read)).table.made
  {
    var t' := Do(s, Ask(o, p, source, read)).table;
    assert t'.mutexes == FindOrMake(s.table, p).mutexes && t'.lockMap.Keys == s.table.lockMap.Keys + {p};
  }

  lemma LostRelease(s: State, o: OpsID, id: LockId, mode: bool, stuck: set<OpsID>)
    requires Enabled(s, Release(o)) && Lost(s, id, mode, stuck) && id < s.table.made
    ensures Lost(Do(s, Release(o)), id, mode, stuck) && id < Do(s, Release(o)).table.made
  {
    var c := s.clients[o];
    if !UnlockFatal(s.table, c.param, c.read) { LostLeave(s.table, c.param, o, c.read, id); }
  }

  lemma LostLeave(t: Table, p: Param, o: OpsID, read: bool, id: LockId)
    requires !UnlockFatal(t, p, read) && id in t.mutexes && forall q | q in t.lockMap :: t.lockMap[q].lock != id
    ensures var t' := Leave(t, p, o, read);
            && t'.made == t.made && id in t'.mutexes && t'.mutexes[id] == t.mutexes[id]
            && forall q | q in t'.lockMap :: t'.lockMap[q].lock != id
  {
  }

  /** What a step does to a lost mutex: nothing. */
  lemma StaysLost(s: State, step: Step, id: LockId, read: bool, stuck: set<OpsID>)
    requires Enabled(s, step) && !step.ForceStep? && Lost(s, id, read, stuck) && id < s.table.made
             && stuck <= s.clients.Keys
    requires step.Get? || step.Confirm? || step.Release? ==> step.o !in stuck
    ensures Lost(Do(s, step), id, read, stuck) && id < Do(s, step).table.made
  {
    match step
    case Ask(o, p, source, mode) => LostAsk(s, o, p, source, mode, id, read, stuck);
    case Release(o) => LostRelease(s, o, id, read, stuck);
    case Get(o) => assert Do(s, step).table.lockMap == s.table.lockMap;
    case Confirm(o) => assert Do(s, step).table.lockMap == s.table.lockMap;
  }

  lemma StuckIsQuiet(s: State, p: Param, stuck: set<OpsID>, step: Step)
    requires Stuck(s, p, stuck) && Enabled(s, step)
    ensures step.Get? || step.Confirm? || step.Release? ==> step.o !in stuck
  {
  }

  lemma StuckStays(s: State, p: Param, stuck: set<OpsID>, step: Step)
    requires Stuck(s, p, stuck) && Enabled(s, step) && !step.ForceStep?
    ensures Stuck(Do(s, step), p, stuck)
  {
    StuckIsQuiet(s, p, stuck, step);
    forall o | o in stuck
      ensures o in Do(s, step).clients && Do(s, step).clients[o] == s.clients[o]
    {
      SameClient(s, step, o);
    }
    forall o | o in stuck ensures Lost(Do(s, step), s.clients[o].lock, s.clients[o].read, stuck) {
      StaysLost(s, step, s.clients[o].lock, s.clients[o].read, stuck);
    }
  }

  lemma SameClient(s: State, step: Step, o: OpsID)
    requires Enabled(s, step) && o in s.clients && (step.Get? || step.Confirm? || step.Release? ==> step.o != o)
    ensures o in Do(s, step).clients && Do(s, step).clients[o] == s.clients[o]
    ensures Do(s, step).table.made >= s.table.made
  {
  }

  /** The others go on as if the stuck ones were not there. */
  lemma OthersGoOn(s: State, p: Param, stuck: set<OpsID>, step: Step)
    requires Stuck(s, p, stuck) && Enabled(s, step) && !step.ForceStep?
    ensures Enabled(Without(s, p, stuck), step)
    ensures Do(Without(s, p, stuck), step) == Without(Do(s, step), p, stuck)
  {
    StuckIsQuiet(s, p, stuck, step);
    var t := Without(s, p, stuck);
    match step
    case Ask(o, q, source, read) =>
      assert Do(t, step).clients == Do(s, step).clients - stuck;
    case Get(o) =>
      assert Do(t, step).clients == Do(s, step).clients - stuck;
    case Confirm(o) =>
      assert Do(t, step).clients == Do(s, step).clients - stuck;
    case Release(o) =>
      assert t.clients - {o} == (s.clients - {o}) - stuck;
      OthersAt(s, p, stuck, o);
  }

  lemma OthersAt(s: State, p: Param, stuck: set<OpsID>, o: OpsID)
    requires Stuck(s, p, stuck) && o in s.clients && o !in stuck
    ensures var q := s.clients[o].param;
            q != p ==> At(s.clients - {o}, q) == At(s.clients - stuck - {o}, q)
  {
  }

  lemma {:induction false} StuckRun(s: State, p: Param, stuck: set<OpsID>, steps: seq<Step>, end: State)
    requires Stuck(s, p, stuck) && Run(s, steps, end) && Unforced(steps)
    ensures Stuck(end, p, stuck) && Run(Without(s, p, stuck), steps, Without(end, p, stuck))
    decreases |steps|
  {
    if steps != [] {
      StuckStays(s, p, stuck, steps[0]);
      OthersGoOn(s, p, stuck, steps[0]);
      StuckRun(Do(s, steps[0]), p, stuck, steps[1..], end);
    }
  }

  /** A path that was forced while all its operations are stuck. */
  lemma ForcedIsStuck(s: State, p: Param)
    requires Inv(s) && !s.dead && forall o :: !Live(s, p, o)
    ensures Stuck(Do(s, ForceStep(p)), p, At(s.clients, p).Keys)
  {
    var f, stuck := Do(s, ForceStep(p)), At(s.clients, p).Keys;
    forall o | o in stuck
      ensures Lost(f, s.clients[o].lock, s.clients[o].read, stuck) && s.clients[o].phase == Waiting
    {
      assert !Live(s, p, o);
    }
  }

  lemma WithoutAt(s: State, p: Param, q: Param)
    ensures At(Without(s, p, At(s.clients, p).Keys).clients, q) == if q == p then map[] else At(s.clients, q)
  {
  }

  lemma WithoutBacked(s: State, p: Param)
    requires Backed(s) && Accounted(s.table) && p !in s.table.lockMap
    ensures Backed(Without(s, p, At(s.clients, p).Keys))
  {
    forall q ensures BackedAt(Without(s, p, At(s.clients, p).Keys), q) {
      assert BackedAt(s, q);
      WithoutAt(s, p, q);
    }
    BackedEverywhere(Without(s, p, At(s.clients, p).Keys));
  }

  lemma WithoutClean(s: State, p: Param, q: Param)
    requires p !in s.table.lockMap && (q != p ==> CleanAt(s, q))
    ensures CleanAt(Without(s, p, At(s.clients, p).Keys), q)
  {
    WithoutAt(s, p, q);
  }

  /** Without them the table is in order. */
  lemma ForcedIsClean(s: State, p: Param)
    requires Inv(s) && !s.dead
    ensures Inv(Without(Do(s, ForceStep(p)), p, At(s.clients, p).Keys))
  {
    var f := Do(s, ForceStep(p));
    StepKeeps(s, ForceStep(p));
    WithoutBacked(f, p);
    var g := Without(f, p, At(s.clients, p).Keys);
    forall q | q !in g.tainted ensures CleanAt(g, q) { WithoutClean(f, p, q); }
  }

  lemma StuckExcludes(s: State, p: Param, more: seq<Step>, end: State)
    requires Inv(s) && !s.dead && (forall o :: !Live(s, p, o)) && Run(Do(s, ForceStep(p)), more, end) && Unforced(more)
    ensures !Overlap(end, p)
  {
    var f, stuck := Do(s, ForceStep(p)), At(s.clients, p).Keys;
    ForcedIsStuck(s, p);
    ForcedIsClean(s, p);
    StuckRun(f, p, stuck, more, end);
    var g := Without(end, p, stuck);
    RunKeeps(Without(f, p, stuck), more, g);
    StaysUntainted(Without(f, p, stuck), more, g, p);
    forall a, b | a != b && HoldsPath(end, a, p) && HoldsPath(end, b, p) ensures end.clients[a].read {
      ExclusionHere(g, p, a, b);
    }
  }

  /**
    From every state a run leads to: forcing a path can lead to a writer beside another holder
    exactly if an operation at the path holds it or can get it.
   */
  lemma {:induction false} ForceAdmitsOverlapIff(steps: seq<Step>, s: State, p: Param)
    requires Run(START, steps, s) && !s.dead
    ensures (exists end :: Leads(Do(s, ForceStep(p)), end) && Overlap(end, p)) <==> exists o :: Live(s, p, o)
  {
    var f := Do(s, ForceStep(p));
    if o :| Live(s, p, o) {
      var mid := ForceOrphans(s, p, o);
      var end := OrphanOverlaps(f, mid, p, o);
    } else {
      Reachable(steps, s);
      forall end | Leads(f, end) ensures !Overlap(end, p) {
        var more :| Run(f, more, end) && Unforced(more);
        StuckExcludes(s, p, more, end);
      }
    }
  }

  /** From a state nothing was forced in, forcing a path leads to a stopped process exactly if the path is in use. */
  lemma {:induction false} ForceStopsIff(steps: seq<Step>, s: State, p: Param)
    requires Run(START, steps, s) && !s.dead && s.tainted == {}
    ensures (exists end :: Leads(Do(s, ForceStep(p)), end) && end.dead) <==> At(s.clients, p).Keys != {}
  {
    var f := Do(s, ForceStep(p));
    InUseIsLive(steps, s, p);
    if o :| Live(s, p, o) {
      var mid := ForceOrphans(s, p, o);
      var end := OrphanStops(f, mid, p, o, true);
    } else {
      EntryCountsOperations(steps, s, p);
      Reachable(steps, s);
      forall end | Leads(f, end) ensures !end.dead {
        var more :| Run(f, more, end) && Unforced(more);
        UnforcedRun(f, more, end);
      }
    }
  }
}
