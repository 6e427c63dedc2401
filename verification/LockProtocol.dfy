/**
  Operations on the lock table, interleaved in every possible way. A step is one
  critical section of `lock`, `unlock` or `ForceUnlock`, or the moment an operation
  gets its mutex.
 */
module LockProtocol {
  import opened LockTable
  import opened Sets

  /** How far an operation has come: it asked, it has the mutex, `lock` returned. */
  datatype Phase = Waiting | Holding | Active

  datatype Client = Client(param: Param, source: string, read: bool, lock: LockId, phase: Phase)

  /**
    `tainted` holds the paths that were forced while in use and have not been idle since;
    `dead` says that the Go runtime stopped the process on a bad unlock.
   */
  datatype State = State(table: Table, clients: map<OpsID, Client>, tainted: set<Param>, dead: bool)

  datatype Step =
    | Ask(o: OpsID, p: Param, source: string, read: bool)
    | Get(o: OpsID)
    | Confirm(o: OpsID)
    | Release(o: OpsID)
    | ForceStep(p: Param)

  const START := State(Table(map[], map[], ZERO, map[], 0), map[], {}, false)

  /** The operations in flight at a path. */
  function At(clients: map<OpsID, Client>, p: Param): map<OpsID, Client> {
    map o | o in clients && clients[o].param == p :: clients[o]
  }

  predicate Enabled(s: State, step: Step) {
    && !s.dead
    && match step
       case Ask(o, _, _, _) => o !in s.clients
       case Get(o) => o in s.clients && s.clients[o].phase == Waiting
                      && s.clients[o].lock in s.table.mutexes
                      && s.table.mutexes[s.clients[o].lock].CanLock(s.clients[o].read)
       case Confirm(o) => o in s.clients && s.clients[o].phase == Holding
       case Release(o) => o in s.clients && s.clients[o].phase == Active
       case ForceStep(_) => true
  }

  function Do(s: State, step: Step): State
    requires Enabled(s, step)
  {
    match step
    case Ask(o, p, source, read) =>
      var c := Client(p, source, read, FindOrMake(s.table, p).lockMap[p].lock, Waiting);
      s.(table := Enter(s.table, p, source, o, read), clients := s.clients[o := c])
    case Get(o) =>
      s.(table := Acquire(s.table, s.clients[o].lock, s.clients[o].read),
         clients := s.clients[o := s.clients[o].(phase := Holding)])
    case Confirm(o) =>
      var c := s.clients[o];
      s.(table := BlockedToRunning(s.table, c.param, c.source, o, c.read),
         clients := s.clients[o := c.(phase := Active)])
    case Release(o) =>
      var c := s.clients[o];
      if UnlockFatal(s.table, c.param, c.read) then s.(dead := true)
      else
        var clients := s.clients - {o};
        State(Leave(s.table, c.param, o, c.read), clients,
              if At(clients, c.param).Keys == {} then s.tainted - {c.param} else s.tainted, false)
    case ForceStep(p) =>
      s.(table := Force(s.table, p), tainted := if p in s.table.lockMap then s.tainted + {p} else s.tainted)
  }

  /** The states a run goes through. */
  ghost predicate Run(s: State, steps: seq<Step>, end: State)
    decreases |steps|
  {
    if steps == [] then s == end
    else Enabled(s, steps[0]) && Run(Do(s, steps[0]), steps[1..], end)
  }

  // ------------------------------------------------------------ counters

  /** All (path, operation) pairs with lock info of one status. */
  function Recorded(debug: map<Param, PathInfo>, st: Status): set<(Param, OpsID)> {
    set p, o | p in debug && o in debug[p].info && debug[p].info[o].status == st :: (p, o)
  }

  /** The global counters count the recorded locks of all paths. */
  ghost predicate TotalsOk(debug: map<Param, PathInfo>, counters: LockStat) {
    && counters.blocked == |Recorded(debug, Blocked)|
    && counters.granted == |Recorded(debug, Running)|
    && counters.total == counters.blocked + counters.granted
  }

  /** Every path's counters count its own. */
  ghost predicate PathsOk(debug: map<Param, PathInfo>) {
    forall p | p in debug :: debug[p].counters == Stat(debug[p].info)
  }

  ghost predicate Accounted(t: Table) {
    t.lockMap.Keys == t.debug.Keys && PathsOk(t.debug) && TotalsOk(t.debug, t.counters)
  }

  function InfoAt(debug: map<Param, PathInfo>, p: Param): map<OpsID, LockInfo> {
    if p in debug then debug[p].info else map[]
  }

  /** `now` differs from what is recorded at `p` in operation `o` only. */
  ghost predicate Touches(debug: map<Param, PathInfo>, p: Param, now: PathInfo, o: OpsID) {
    forall q | q != o :: (q in now.info <==> q in InfoAt(debug, p))
                         && (q in now.info ==> now.info[q] == InfoAt(debug, p)[q])
  }

  /** Changing one operation's entry changes one recorded pair. */
  lemma RecordedPut(debug: map<Param, PathInfo>, p: Param, now: PathInfo, o: OpsID, st: Status)
    requires Touches(debug, p, now, o)
    ensures var before := o in InfoAt(debug, p) && InfoAt(debug, p)[o].status == st;
            var after := o in now.info && now.info[o].status == st;
            |Recorded(debug[p := now], st)| == |Recorded(debug, st)| - (if before then 1 else 0) + (if after then 1
                    else 0)
  {
    var a, b := Recorded(debug[p := now], st), Recorded(debug, st);
    forall x | x != (p, o) ensures x in a <==> x in b {
      RecordedElsewhere(debug, p, now, o, st, x);
    }
    OneApart(a, b, (p, o));
  }

  lemma RecordedElsewhere(debug: map<Param, PathInfo>, p: Param, now: PathInfo, o: OpsID, st: Status, x: (Param, OpsID))
    requires Touches(debug, p, now, o) && x != (p, o)
    ensures x in Recorded(debug[p := now], st) <==> x in Recorded(debug, st)
  {
    if x.0 == p { assert x.1 in now.info <==> x.1 in InfoAt(debug, p); }
  }

  lemma PathsPut(debug: map<Param, PathInfo>, p: Param, now: PathInfo)
    requires PathsOk(debug) && now.counters == Stat(now.info)
    ensures PathsOk(debug[p := now])
  {
  }

  lemma TotalsPut(debug: map<Param, PathInfo>, counters: LockStat, p: Param, now: PathInfo, o: OpsID)
    requires TotalsOk(debug, counters) && Touches(debug, p, now, o)
    ensures o !in InfoAt(debug, p) && o in now.info && now.info[o].status == Blocked ==>
              TotalsOk(debug[p := now], counters.Waiting())
    ensures o in InfoAt(debug, p) && InfoAt(debug, p)[o].status == Blocked && o in now.info
            && now.info[o].status == Running ==>
              TotalsOk(debug[p := now], counters.Granted())
    ensures o in InfoAt(debug, p) && o !in now.info ==>
              TotalsOk(debug[p := now], counters.Removed(InfoAt(debug, p)[o].status == Running))
  {
    RecordedPut(debug, p, now, o, Blocked);
    RecordedPut(debug, p, now, o, Running);
  }

  /** The path's entry after operation `o` asked for a lock. */
  function Asked(debug: map<Param, PathInfo>, p: Param, source: string, o: OpsID, read: bool): PathInfo {
    var was := if p in debug then debug[p] else PathInfo(ZERO, map[]);
    PathInfo(was.counters.Waiting(), was.info[o := LockInfo(source, Blocked, read)])
  }

  lemma AskedBooks(debug: map<Param, PathInfo>, counters: LockStat, p: Param, source: string, o: OpsID, read: bool)
    requires PathsOk(debug) && TotalsOk(debug, counters) && o !in InfoAt(debug, p)
    ensures PathsOk(debug[p := Asked(debug, p, source, o, read)])
    ensures TotalsOk(debug[p := Asked(debug, p, source, o, read)], counters.Waiting())
  {
    var was := if p in debug then debug[p] else PathInfo(ZERO, map[]);
    var now := Asked(debug, p, source, o, read);
    assert was.counters == Stat(was.info);
    StatPlusOne(was.info, o, LockInfo(source, Blocked, read));
    PathsPut(debug, p, now);
    TotalsPut(debug, counters, p, now, o);
  }

  /** What `Enter` does to the instrumentation and to the keys of the lock map. */
  lemma EnterBooks(t: Table, p: Param, source: string, o: OpsID, read: bool)
    ensures var t' := Enter(t, p, source, o, read);
            && t'.debug == t.debug[p := Asked(t.debug, p, source, o, read)]
            && t'.counters == t.counters.Waiting()
            && t'.lockMap.Keys == t.lockMap.Keys + {p}
  {
  }

  lemma AskAccounted(t: Table, p: Param, source: string, o: OpsID, read: bool)
    requires Accounted(t) && o !in InfoAt(t.debug, p)
    ensures Accounted(Enter(t, p, source, o, read))
  {
    EnterBooks(t, p, source, o, read);
    AskedBooks(t.debug, t.counters, p, source, o, read);
  }

  lemma ConfirmAccounted(t: Table, p: Param, source: string, o: OpsID, read: bool)
    requires Accounted(t)
    ensures Accounted(BlockedToRunning(t, p, source, o, read))
  {
    if RunningError(t, p, source, o).None? {
      var t' := BlockedToRunning(t, p, source, o, read);
      StatGranted(t.debug[p].info, o, LockInfo(source, Running, read));
      TotalsPut(t.debug, t.counters, p, t'.debug[p], o);
    }
  }

  lemma DropAccounted(t: Table, p: Param, o: OpsID)
    requires Accounted(t)
    ensures Accounted(DeleteForOps(t, p, o))
  {
    if p in t.debug && o in t.debug[p].info {
      var t' := DeleteForOps(t, p, o);
      StatMinusOne(t.debug[p].info, o);
      TotalsPut(t.debug, t.counters, p, t'.debug[p], o);
    }
  }

  function Pairs(p: Param, ops: set<OpsID>): set<(Param, OpsID)> {
    set o | o in ops :: (p, o)
  }

  lemma {:induction false} PairsCount(p: Param, ops: set<OpsID>)
    ensures |Pairs(p, ops)| == |ops|
  {
    if ops != {} {
      var o :| o in ops;
      PairsCount(p, ops - {o});
      assert Pairs(p, ops) == Pairs(p, ops - {o}) + {(p, o)};
    }
  }

  /** Dropping a path drops its recorded pairs. */
  lemma RecordedDropPath(debug: map<Param, PathInfo>, p: Param, st: Status)
    requires p in debug
    ensures |Recorded(debug - {p}, st)| == |Recorded(debug, st)| - |Having(debug[p].info, st)|
  {
    var rest, gone := Recorded(debug - {p}, st), Pairs(p, Having(debug[p].info, st));
    PairsCount(p, Having(debug[p].info, st));
    forall x ensures x in Recorded(debug, st) <==> x in rest || x in gone { RecordedSplit(debug, p, st, x); }
    Parts(Recorded(debug, st), rest, gone);
  }

  lemma RecordedSplit(debug: map<Param, PathInfo>, p: Param, st: Status, x: (Param, OpsID))
    requires p in debug
    ensures x in Recorded(debug - {p}, st) <==> x in Recorded(debug, st) && x.0 != p
    ensures x in Pairs(p, Having(debug[p].info, st)) <==> x in Recorded(debug, st) && x.0 == p
  {
    if x.0 == p && x in Recorded(debug, st) { assert x.1 in Having(debug[p].info, st); }
  }

  lemma StatTotal(info: map<OpsID, LockInfo>)
    ensures Stat(info).total == Stat(info).blocked + Stat(info).granted
  {
    assert info.Keys == Having(info, Blocked) + Having(info, Running);
  }

  lemma DropPathAccounted(t: Table, p: Param)
    requires t.lockMap.Keys == t.debug.Keys - {p} && p in t.debug
    requires PathsOk(t.debug) && TotalsOk(t.debug, t.counters)
    ensures Accounted(DeleteForPath(t, p))
  {
    RecordedDropPath(t.debug, p, Blocked);
    RecordedDropPath(t.debug, p, Running);
    StatTotal(t.debug[p].info);
  }

  lemma ForceAccounted(t: Table, p: Param)
    requires Accounted(t)
    ensures Accounted(Force(t, p))
  {
    if p in t.lockMap { DropPathAccounted(t.(lockMap := t.lockMap - {p}), p); }
  }

  lemma LeaveAccounted(t: Table, p: Param, o: OpsID, read: bool)
    requires Accounted(t) && !UnlockFatal(t, p, read) && (p in t.lockMap ==> t.lockMap[p].ref > 0)
    ensures Accounted(Leave(t, p, o, read))
  {
    if p in t.lockMap {
      var t1 := Lowered(t, p, read);
      assert t1.lockMap.Keys == t.lockMap.Keys;
      DropAccounted(t1, p, o);
      var t2 := DeleteForOps(t1, p, o);
      LeaveIs(t, p, o, read);
      if t.lockMap[p].ref == 1 { DropPathAccounted(t2.(lockMap := t2.lockMap - {p}), p); }
    }
  }

  /** The mutex released and the reference dropped. */
  function Lowered(t: Table, p: Param, read: bool): Table
    requires !UnlockFatal(t, p, read) && p in t.lockMap && t.lockMap[p].ref > 0
  {
    var nsLk := t.lockMap[p];
    t.(mutexes := t.mutexes[nsLk.lock := t.mutexes[nsLk.lock].Unlock(read)],
       lockMap := t.lockMap[p := nsLk.(ref := nsLk.ref - 1)])
  }

  lemma LeaveIs(t: Table, p: Param, o: OpsID, read: bool)
    requires !UnlockFatal(t, p, read) && p in t.lockMap && t.lockMap[p].ref > 0
    ensures var t2 := DeleteForOps(Lowered(t, p, read), p, o);
            Leave(t, p, o, read) == if t.lockMap[p].ref == 1 then DeleteForPath(t2.(lockMap := t2.lockMap - {p}), p)
            else t2
  {
  }
}
