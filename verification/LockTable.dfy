/**
  The reference counted namespace lock table and its instrumentation
  (cmd/namespace-lock.go, cmd/lock-instrument.go, cmd/lock-stat.go).

  `Table` is the whole state of an nsLockMap as a value. The functions give the
  effect of each critical section on it; the class `NsLockMap` performs them on
  its fields, as the source does.
 */
module LockTable {
  import opened Wrappers
  import opened Sets

  datatype Param = Param(volume: string, path: string)

  type OpsID = string
  type LockId = nat

  /** Counters of locks asked for and not yet removed. */
  datatype LockStat = LockStat(total: int, blocked: int, granted: int)
  {
    function Waiting(): LockStat {
      LockStat(total + 1, blocked + 1, granted)
    }

    function Granted(): LockStat {
      LockStat(total, blocked - 1, granted + 1)
    }

    function Removed(wasGranted: bool): LockStat {
      if wasGranted then LockStat(total - 1, blocked, granted - 1) else LockStat(total - 1, blocked - 1, granted)
    }
  }

  const ZERO := LockStat(0, 0, 0)

  datatype Status = Blocked | Running
  datatype LockInfo = LockInfo(source: string, status: Status, read: bool)
  datatype PathInfo = PathInfo(counters: LockStat, info: map<OpsID, LockInfo>)

  /** A sync.RWMutex and the path it was made for. */
  datatype RWMutex = RWMutex(owner: Param, writer: bool, readers: nat)
  {
    predicate CanLock(read: bool) {
      !writer && (read || readers == 0)
    }

    function Lock(read: bool): RWMutex {
      if read then this.(readers := readers + 1) else this.(writer := true)
    }

    predicate CanUnlock(read: bool) {
      if read then readers > 0 else writer
    }

    function Unlock(read: bool): RWMutex
      requires CanUnlock(read)
    {
      if read then this.(readers := readers - 1) else this.(writer := false)
    }
  }

  datatype NsLock = NsLock(lock: LockId, ref: nat)

  datatype Table = Table(lockMap: map<Param, NsLock>, debug: map<Param, PathInfo>, counters: LockStat,
                         mutexes: map<LockId, RWMutex>, made: nat)  // `made` counts the mutexes made so far

  datatype InfoError = VolPathMissing | OpsIDNotFound | OriginMismatch | StateNotBlocked

  // ------------------------------------------------------------ instrumentation

  function NoneToBlocked(t: Table, p: Param, source: string, o: OpsID, read: bool): Table {
    var was := if p in t.debug then t.debug[p] else PathInfo(ZERO, map[]);
    t.(debug := t.debug[p := PathInfo(was.counters.Waiting(), was.info[o := LockInfo(source, Blocked, read)])],
       counters := t.counters.Waiting())
  }

  /** Why a blocked operation cannot be marked running, if so. */
  function RunningError(t: Table, p: Param, source: string, o: OpsID): Option<InfoError> {
    if p !in t.debug then Some(VolPathMissing)
    else if o !in t.debug[p].info then Some(OpsIDNotFound)
    else if t.debug[p].info[o].source != source then Some(OriginMismatch)
    else if t.debug[p].info[o].status != Blocked then Some(StateNotBlocked)
    else None
  }

  function BlockedToRunning(t: Table, p: Param, source: string, o: OpsID, read: bool): Table {
    if RunningError(t, p, source, o).Some? then t
    else
      var was := t.debug[p];
      t.(debug := t.debug[p := PathInfo(was.counters.Granted(), was.info[o := LockInfo(source, Running, read)])],
         counters := t.counters.Granted())
  }

  function DeleteForOps(t: Table, p: Param, o: OpsID): Table {
    if p !in t.debug || o !in t.debug[p].info then t
    else
      var was := t.debug[p];
      var granted := was.info[o].status == Running;
      t.(debug := t.debug[p := PathInfo(was.counters.Removed(granted), was.info - {o})],
         counters := t.counters.Removed(granted))
  }

  function Having(info: map<OpsID, LockInfo>, s: Status): set<OpsID> {
    set o | o in info && info[o].status == s
  }

  function Stat(info: map<OpsID, LockInfo>): LockStat {
    LockStat(|info.Keys|, |Having(info, Blocked)|, |Having(info, Running)|)
  }

  function Minus(a: LockStat, b: LockStat): LockStat {
    LockStat(a.total - b.total, a.blocked - b.blocked, a.granted - b.granted)
  }

  /** Drops a path and takes its remaining locks out of the global counters. */
  function DeleteForPath(t: Table, p: Param): Table {
    if p !in t.debug then t
    else t.(debug := t.debug - {p}, counters := Minus(t.counters, Stat(t.debug[p].info)))
  }

  // ------------------------------------------------------------ the lock table

  /** The entry of a path, made if it is missing. */
  function FindOrMake(t: Table, p: Param): (t': Table)
    ensures p in t'.lockMap
  {
    if p in t.lockMap then t
    else t.(lockMap := t.lockMap[p := NsLock(t.made, 0)],
            mutexes := t.mutexes[t.made := RWMutex(p, false, 0)],
            made := t.made + 1)
  }

  /** The first critical section of `lock`: take a reference, be marked blocked. */
  function Enter(t: Table, p: Param, source: string, o: OpsID, read: bool): Table {
    var t1 := FindOrMake(t, p);
    var nsLk := t1.lockMap[p];
    NoneToBlocked(t1.(lockMap := t1.lockMap[p := nsLk.(ref := nsLk.ref + 1)]), p, source, o, read)
  }

  /** Would `unlock` release a mutex that is not held? The Go runtime then stops the process. */
  predicate UnlockFatal(t: Table, p: Param, read: bool) {
    p in t.lockMap && (t.lockMap[p].lock !in t.mutexes || !t.mutexes[t.lockMap[p].lock].CanUnlock(read))
  }

  /** `unlock`: release the mutex, drop the reference, and the entry with its last one. */
  function Leave(t: Table, p: Param, o: OpsID, read: bool): Table
    requires !UnlockFatal(t, p, read)
  {
    if p !in t.lockMap then t
    else
      var nsLk := t.lockMap[p];
      var t1 := t.(mutexes := t.mutexes[nsLk.lock := t.mutexes[nsLk.lock].Unlock(read)]);
      var ref := if nsLk.ref != 0 then nsLk.ref - 1 else 0;
      var t2 := if nsLk.ref != 0 then DeleteForOps(t1.(lockMap := t1.lockMap[p := nsLk.(ref := ref)]), p, o) else t1;
      if ref == 0 then DeleteForPath(t2.(lockMap := t2.lockMap - {p}), p) else t2
  }

  /** `ForceUnlock`: forget the path, whoever holds it. */
  function Force(t: Table, p: Param): Table {
    if p !in t.lockMap then t
    else DeleteForPath(t.(lockMap := t.lockMap - {p}), p)
  }

  /** The blocking step between the two halves of `lock`. */
  function Acquire(t: Table, id: LockId, read: bool): Table
    requires id in t.mutexes && t.mutexes[id].CanLock(read)
  {
    t.(mutexes := t.mutexes[id := t.mutexes[id].Lock(read)])
  }

  // ------------------------------------------------------------ the class

  /** The table as the source keeps it: fields that each critical section updates in place. */
  class NsLockMap {
    var counters: LockStat
    var debugLockMap: map<Param, PathInfo>
    var lockMap: map<Param, NsLock>
    var mutexes: map<LockId, RWMutex>
    var made: nat

    function View(): Table
      reads this
    {
      Table(lockMap, debugLockMap, counters, mutexes, made)
    }

    constructor ()
      ensures View() == Table(map[], map[], ZERO, map[], 0)
    {
      counters, debugLockMap, lockMap, mutexes, made := ZERO, map[], map[], map[], 0;
    }

    method StatusNoneToBlocked(p: Param, source: string, o: OpsID, read: bool)
      modifies this
      ensures View() == NoneToBlocked(old(View()), p, source, o, read)
    {
      if p !in debugLockMap {
        debugLockMap := debugLockMap[p := PathInfo(ZERO, map[])];
      }
      var path := debugLockMap[p];
      path := path.(info := path.info[o := LockInfo(source, Blocked, read)]);
      counters := counters.Waiting();
      debugLockMap := debugLockMap[p := path.(counters := path.counters.Waiting())];
    }

    method StatusBlockedToRunning(p: Param, source: string, o: OpsID, read: bool) returns (err: Option<InfoError>)
      modifies this
      ensures err == RunningError(old(View()), p, source, o)
      ensures err.None? <==> p in old(debugLockMap) && o in old(debugLockMap)[p].info
                             && old(debugLockMap)[p].info[o].source == source
                             && old(debugLockMap)[p].info[o].status == Blocked
      ensures View() == BlockedToRunning(old(View()), p, source, o, read)
    {
      if p !in debugLockMap { return Some(VolPathMissing); }
      if o !in debugLockMap[p].info { return Some(OpsIDNotFound); }
      var lockInfo := debugLockMap[p].info[o];
      if lockInfo.source != source { return Some(OriginMismatch); }
      if lockInfo.status != Blocked { return Some(StateNotBlocked); }
      var path := debugLockMap[p];
      path := path.(info := path.info[o := LockInfo(source, Running, read)]);
      counters := counters.Granted();
      debugLockMap := debugLockMap[p := path.(counters := path.counters.Granted())];
      return None;
    }

    method DeleteLockInfoEntryForOps(p: Param, o: OpsID) returns (err: Option<InfoError>)
      modifies this
      ensures View() == DeleteForOps(old(View()), p, o)
      ensures err == if p !in old(debugLockMap) then Some(VolPathMissing)
                     else if o !in old(debugLockMap)[p].info then Some(OpsIDNotFound) else None
    {
      if p !in debugLockMap { return Some(VolPathMissing); }
      var path := debugLockMap[p];
      if o !in path.info { return Some(OpsIDNotFound); }
      var granted := path.info[o].status == Running;
      counters := counters.Removed(granted);
      debugLockMap := debugLockMap[p := PathInfo(path.counters.Removed(granted), path.info - {o})];
      return None;
    }

    /** Walks over the path's remaining locks and counts each one out. */
    method DeleteLockInfoEntryForVolumePath(p: Param) returns (err: Option<InfoError>)
      modifies this
      ensures View() == DeleteForPath(old(View()), p)
      ensures err == if p !in old(debugLockMap) then Some(VolPathMissing) else None
    {
      if p !in debugLockMap { return Some(VolPathMissing); }
      var path := debugLockMap[p];
      var left := path.info;
      assert Minus(counters, Minus(Stat(path.info), Stat(left))) == counters;
      while left.Keys != {}
        invariant counters == Minus(old(counters), Minus(Stat(path.info), Stat(left)))
        invariant debugLockMap == old(debugLockMap) && lockMap == old(lockMap) && mutexes == old(mutexes)
                  && made == old(made)
        decreases |left|
      {
        var o :| o in left.Keys;
        StatMinusOne(left, o);
        counters := counters.Removed(left[o].status == Running);
        left := left - {o};
      }
      assert Stat(left) == ZERO;
      debugLockMap := debugLockMap - {p};
      return None;
    }

    /** The first half of `lock`, under the map's mutex. */
    method LockEnter(p: Param, source: string, o: OpsID, read: bool) returns (id: LockId)
      modifies this
      ensures View() == Enter(old(View()), p, source, o, read)
      ensures p in lockMap && id == lockMap[p].lock
    {
      if p !in lockMap {
        mutexes := mutexes[made := RWMutex(p, false, 0)];
        lockMap := lockMap[p := NsLock(made, 0)];
        made := made + 1;
      }
      var nsLk := lockMap[p];
      lockMap := lockMap[p := nsLk.(ref := nsLk.ref + 1)];
      StatusNoneToBlocked(p, source, o, read);
      id := nsLk.lock;
    }

    method Unlock(p: Param, o: OpsID, read: bool)
      requires !UnlockFatal(View(), p, read)
      modifies this
      ensures View() == Leave(old(View()), p, o, read)
    {
      if p in lockMap {
        var nsLk := lockMap[p];
        mutexes := mutexes[nsLk.lock := mutexes[nsLk.lock].Unlock(read)];
        if nsLk.ref != 0 {
          nsLk := nsLk.(ref := nsLk.ref - 1);
          lockMap := lockMap[p := nsLk];
          var _ := DeleteLockInfoEntryForOps(p, o);
        }
        if nsLk.ref == 0 {
          lockMap := lockMap - {p};
          var _ := DeleteLockInfoEntryForVolumePath(p);
        }
      }
    }

    method ForceUnlock(p: Param)
      modifies this
      ensures View() == Force(old(View()), p)
    {
      if p in lockMap {
        lockMap := lockMap - {p};
        var _ := DeleteLockInfoEntryForVolumePath(p);
      }
    }
  }

  lemma HavingPut(info: map<OpsID, LockInfo>, o: OpsID, i: LockInfo, s: Status)
    ensures Having(info[o := i], s) == if i.status == s then Having(info, s) + {o} else Having(info, s) - {o}
  {
  }

  lemma HavingDrop(info: map<OpsID, LockInfo>, o: OpsID, s: Status)
    ensures Having(info - {o}, s) == Having(info, s) - {o}
  {
  }

  lemma StatMinusOne(info: map<OpsID, LockInfo>, o: OpsID)
    requires o in info
    ensures Stat(info - {o}) == Stat(info).Removed(info[o].status == Running)
  {
    assert (info - {o}).Keys == info.Keys - {o};
    HavingDrop(info, o, Blocked);
    HavingDrop(info, o, Running);
    OneLess(info.Keys, o);
    OneLess(Having(info, Blocked), o);
    OneLess(Having(info, Running), o);
  }

  lemma StatPlusOne(info: map<OpsID, LockInfo>, o: OpsID, i: LockInfo)
    requires o !in info && i.status == Blocked
    ensures Stat(info[o := i]) == Stat(info).Waiting()
  {
    assert info[o := i].Keys - {o} == info.Keys;
    HavingPut(info, o, i, Blocked);
    HavingPut(info, o, i, Running);
    OneLess(info[o := i].Keys, o);
    OneLess(Having(info[o := i], Blocked), o);
    assert Having(info[o := i], Blocked) - {o} == Having(info, Blocked);
    OneLess(Having(info, Running), o);
  }

  lemma StatGranted(info: map<OpsID, LockInfo>, o: OpsID, i: LockInfo)
    requires o in info && info[o].status == Blocked && i.status == Running
    ensures Stat(info[o := i]) == Stat(info).Granted()
  {
    assert info[o := i].Keys == info.Keys;
    HavingPut(info, o, i, Blocked);
    HavingPut(info, o, i, Running);
  }
}
