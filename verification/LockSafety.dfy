/**
  Mutual exclusion on the lock table. What one path looks like is cut out of the
  state as a slot, its lock info and its operations; each step changes these for one
  path and leaves those of every other path alone.
 */
module LockSafety {
  import opened Wrappers
  import opened LockTable
  import opened Sets
  import opened LockProtocol

  /** A path's entry in the lock map with its mutex. */
  datatype Slot = Slot(id: LockId, ref: nat, mutex: RWMutex)

  function SlotAt(t: Table, p: Param): Option<Slot> {
    if p in t.lockMap && t.lockMap[p].lock in t.mutexes
    then Some(Slot(t.lockMap[p].lock, t.lockMap[p].ref, t.mutexes[t.lockMap[p].lock]))
    else None
  }

  /** Those that have the mutex. */
  function Holders(mine: map<OpsID, Client>, read: bool): set<OpsID> {
    set o | o in mine && mine[o].phase != Waiting && mine[o].read == read
  }

  function InfoOf(c: Client): LockInfo {
    LockInfo(c.source, if c.phase == Active then Running else Blocked, c.read)
  }

  /**
    All operations at the path share its one lock object and the reference count is
    their number; the mutex is held by exactly those that believe they hold it; the
    lock info describes each of them. Without an entry there is no operation.
   */
  ghost predicate Clean(slot: Option<Slot>, info: map<OpsID, LockInfo>, mine: map<OpsID, Client>) {
    match slot
    case None => mine.Keys == {}
    case Some(x) =>
      && x.ref == |mine.Keys| > 0
      && (forall o | o in mine :: mine[o].lock == x.id && o in info && info[o] == InfoOf(mine[o]))
      && HeldBy(x.mutex, mine)
  }

  ghost predicate HeldBy(m: RWMutex, mine: map<OpsID, Client>) {
    && (m.writer ==> m.readers == 0)
    && |Holders(mine, true)| == m.readers
    && |Holders(mine, false)| == if m.writer then 1 else 0
  }

  // ------------------------------------------------------------ one path, one step

  lemma HoldersPut(mine: map<OpsID, Client>, o: OpsID, c: Client, read: bool)
    ensures Holders(mine[o := c], read) == if c.phase != Waiting && c.read == read then Holders(mine, read) + {o}
            else Holders(mine, read) - {o}
  {
  }

  lemma HoldersDrop(mine: map<OpsID, Client>, o: OpsID, read: bool)
    ensures Holders(mine - {o}, read) == Holders(mine, read) - {o}
  {
  }

  /** A client that is no holder before or after changes no holder. */
  lemma AskHeld(m: RWMutex, mine: map<OpsID, Client>, o: OpsID, c: Client)
    requires HeldBy(m, mine) && o !in mine && c.phase == Waiting
    ensures HeldBy(m, mine[o := c])
  {
    HoldersPut(mine, o, c, true);
    HoldersPut(mine, o, c, false);
    OneLess(Holders(mine, true), o);
    OneLess(Holders(mine, false), o);
  }

  lemma GetHeld(m: RWMutex, mine: map<OpsID, Client>, o: OpsID)
    requires HeldBy(m, mine) && o in mine && mine[o].phase == Waiting && m.CanLock(mine[o].read)
    ensures HeldBy(m.Lock(mine[o].read), mine[o := mine[o].(phase := Holding)])
  {
    var c := mine[o].(phase := Holding);
    var mine' := mine[o := c];
    forall read ensures |Holders(mine', read)| == |Holders(mine, read)| + if c.read == read then 1 else 0 {
      HoldersPut(mine, o, c, read);
      OneLess(Holders(mine', read), o);
      assert Holders(mine', read) - {o} == Holders(mine, read);
    }
  }

  lemma ConfirmHeld(m: RWMutex, mine: map<OpsID, Client>, o: OpsID)
    requires HeldBy(m, mine) && o in mine && mine[o].phase == Holding
    ensures HeldBy(m, mine[o := mine[o].(phase := Active)])
  {
    var c := mine[o].(phase := Active);
    forall read ensures Holders(mine[o := c], read) == Holders(mine, read) {
      HoldersPut(mine, o, c, read);
    }
  }

  lemma ReleaseHeld(m: RWMutex, mine: map<OpsID, Client>, o: OpsID)
    requires HeldBy(m, mine) && o in mine && mine[o].phase == Active
    ensures m.CanUnlock(mine[o].read)
    ensures HeldBy(m.Unlock(mine[o].read), mine - {o})
  {
    forall read ensures |Holders(mine - {o}, read)| == |Holders(mine, read)| - if mine[o].read == read then 1 else 0 {
      HoldersDrop(mine, o, read);
      OneLess(Holders(mine, read), o);
    }
    assert o in Holders(mine, mine[o].read);
  }

  lemma AskClean(slot: Option<Slot>, info: map<OpsID, LockInfo>, mine: map<OpsID, Client>, o: OpsID, c: Client,
                 found: Slot)
    requires Clean(slot, info, mine) && o !in mine && c.phase == Waiting
    requires slot.None? ==> found == Slot(found.id, 0, RWMutex(c.param, false, 0))
    requires slot.Some? ==> found == slot.value
    requires c.lock == found.id
    ensures Clean(Some(found.(ref := found.ref + 1)), info[o := InfoOf(c)], mine[o := c])
  {
    assert mine[o := c].Keys - {o} == mine.Keys;
    OneLess(mine[o := c].Keys, o);
    if slot.None? {
      assert Holders(mine, true) == {} == Holders(mine, false);
    }
    AskHeld(found.mutex, mine, o, c);
  }

  lemma GetClean(x: Slot, info: map<OpsID, LockInfo>, mine: map<OpsID, Client>, o: OpsID)
    requires Clean(Some(x), info, mine) && o in mine && mine[o].phase == Waiting && x.mutex.CanLock(mine[o].read)
    ensures Clean(Some(x.(mutex := x.mutex.Lock(mine[o].read))), info, mine[o := mine[o].(phase := Holding)])
  {
    assert mine[o := mine[o].(phase := Holding)].Keys == mine.Keys;
    GetHeld(x.mutex, mine, o);
  }

  lemma ConfirmClean(x: Slot, info: map<OpsID, LockInfo>, mine: map<OpsID, Client>, o: OpsID)
    requires Clean(Some(x), info, mine) && o in mine && mine[o].phase == Holding
    ensures var c := mine[o].(phase := Active); Clean(Some(x), info[o := InfoOf(c)], mine[o := c])
  {
    assert mine[o := mine[o].(phase := Active)].Keys == mine.Keys;
    ConfirmHeld(x.mutex, mine, o);
  }

  lemma ReleaseClean(x: Slot, info: map<OpsID, LockInfo>, mine: map<OpsID, Client>, o: OpsID)
    requires Clean(Some(x), info, mine) && o in mine && mine[o].phase == Active
    ensures x.mutex.CanUnlock(mine[o].read)
    ensures if x.ref == 1 then Clean(None, map[], mine - {o})
            else Clean(Some(Slot(x.id, x.ref - 1, x.mutex.Unlock(mine[o].read))), info - {o}, mine - {o})
  {
    assert (mine - {o}).Keys == mine.Keys - {o};
    OneLess(mine.Keys, o);
    ReleaseHeld(x.mutex, mine, o);
  }

  // ------------------------------------------------------------ the invariant

  /** Lock objects are made for one path, and only its operations and its entry name them. */
  ghost predicate Owned(s: State) {
    && (forall p | p in s.table.lockMap :: s.table.lockMap[p].lock in s.table.mutexes
                                           && s.table.mutexes[s.table.lockMap[p].lock].owner == p)
    && (forall o | o in s.clients :: s.clients[o].lock in s.table.mutexes
                                     && s.table.mutexes[s.clients[o].lock].owner == s.clients[o].param)
    && (forall id | id in s.table.mutexes :: id < s.table.made)
  }

  /** References and lock info are never left over from operations that are gone. */
  ghost predicate Backed(s: State) {
    && (forall p | p in s.table.lockMap :: 0 < s.table.lockMap[p].ref <= |At(s.clients, p).Keys|)
    && (forall p | p in s.table.debug :: s.table.debug[p].info.Keys <= At(s.clients, p).Keys)
  }

  ghost predicate CleanAt(s: State, p: Param) {
    Clean(SlotAt(s.table, p), InfoAt(s.table.debug, p), At(s.clients, p))
  }

  ghost predicate Inv(s: State) {
    Accounted(s.table) && Owned(s) && Backed(s) && forall p | p !in s.tainted :: CleanAt(s, p)
  }

  /** The step left path `p` alone. */
  ghost predicate Kept(s: State, s': State, p: Param) {
    && At(s'.clients, p) == At(s.clients, p)
    && SlotAt(s'.table, p) == SlotAt(s.table, p)
    && InfoAt(s'.table.debug, p) == InfoAt(s.table.debug, p)
  }

  function PathOf(s: State, step: Step): Param
    requires Enabled(s, step)
  {
    match step
    case Ask(_, p, _, _) => p
    case ForceStep(p) => p
    case Get(o) => s.clients[o].param
    case Confirm(o) => s.clients[o].param
    case Release(o) => s.clients[o].param
  }

  lemma OtherClients(clients: map<OpsID, Client>, o: OpsID, c: Client, p: Param)
    requires c.param != p && (o in clients ==> clients[o].param != p)
    ensures At(clients[o := c], p) == At(clients, p)
    ensures At(clients - {o}, p) == At(clients, p)
  {
  }

  lemma OwnClients(clients: map<OpsID, Client>, o: OpsID, c: Client)
    requires o in clients ==> clients[o].param == c.param
    ensures At(clients[o := c], c.param) == At(clients, c.param)[o := c]
    ensures At(clients - {o}, c.param) == At(clients, c.param) - {o}
  {
  }

  ghost predicate TableKept(t: Table, t': Table, p: Param) {
    SlotAt(t', p) == SlotAt(t, p) && InfoAt(t'.debug, p) == InfoAt(t.debug, p)
  }

  lemma EnterElsewhere(t: Table, q: Param, source: string, o: OpsID, read: bool, p: Param)
    requires p != q && (p in t.lockMap ==> t.lockMap[p].lock != t.made)
    ensures TableKept(t, Enter(t, q, source, o, read), p)
  {
  }

  lemma ConfirmElsewhere(t: Table, q: Param, source: string, o: OpsID, read: bool, p: Param)
    requires p != q
    ensures TableKept(t, BlockedToRunning(t, q, source, o, read), p)
  {
  }

  lemma LeaveElsewhere(t: Table, q: Param, o: OpsID, read: bool, p: Param)
    requires p != q && !UnlockFatal(t, q, read) && (q in t.lockMap ==> t.lockMap[q].ref > 0)
    requires p in t.lockMap && q in t.lockMap ==> t.lockMap[p].lock != t.lockMap[q].lock
    ensures TableKept(t, Leave(t, q, o, read), p)
  {
    if q in t.lockMap {
      LeaveIs(t, q, o, read);
      var t1 := Lowered(t, q, read);
      assert TableKept(t, t1, p);
      assert TableKept(t1, DeleteForOps(t1, q, o), p);
    }
  }

  lemma ForceElsewhere(t: Table, q: Param, p: Param)
    requires p != q
    ensures TableKept(t, Force(t, q), p)
  {
  }

  lemma OtherPath(s: State, step: Step, p: Param)
    requires Enabled(s, step) && Owned(s) && Backed(s) && p != PathOf(s, step)
    ensures Kept(s, Do(s, step), p)
  {
    var t := s.table;
    match step
    case Ask(o, q, source, read) =>
      OtherClients(s.clients, o, Do(s, step).clients[o], p);
      EnterElsewhere(t, q, source, o, read, p);
    case Get(o) =>
      OtherClients(s.clients, o, Do(s, step).clients[o], p);
    case Confirm(o) =>
      var c := s.clients[o];
      OtherClients(s.clients, o, Do(s, step).clients[o], p);
      ConfirmElsewhere(t, c.param, c.source, o, c.read, p);
    case Release(o) =>
      var c := s.clients[o];
      OtherClients(s.clients, o, c, p);
      if !UnlockFatal(t, c.param, c.read) { LeaveElsewhere(t, c.param, o, c.read, p); }
    case ForceStep(q) =>
      ForceElsewhere(t, q, p);
  }

  // ------------------------------------------------------------ the step's own path

  /** The entry `lock` finds or makes. */
  function Found(t: Table, p: Param): Slot {
    match SlotAt(t, p)
    case Some(x) => x
    case None => Slot(t.made, 0, RWMutex(p, false, 0))
  }

  lemma EnterHere(t: Table, p: Param, source: string, o: OpsID, read: bool)
    requires p in t.lockMap ==> t.lockMap[p].lock in t.mutexes
    ensures var t' := Enter(t, p, source, o, read); var x := Found(t, p);
            && SlotAt(t', p) == Some(x.(ref := x.ref + 1))
            && InfoAt(t'.debug, p) == InfoAt(t.debug, p)[o := LockInfo(source, Blocked, read)]
    ensures FindOrMake(t, p).lockMap[p].lock == Found(t, p).id
  {
  }

  lemma ConfirmHere(t: Table, p: Param, source: string, o: OpsID, read: bool)
    requires o in InfoAt(t.debug, p) && InfoAt(t.debug, p)[o].source == source
             && InfoAt(t.debug, p)[o].status == Blocked
    ensures var t' := BlockedToRunning(t, p, source, o, read);
            && SlotAt(t', p) == SlotAt(t, p)
            && InfoAt(t'.debug, p) == InfoAt(t.debug, p)[o := LockInfo(source, Running, read)]
  {
  }

  lemma LeaveHere(t: Table, p: Param, o: OpsID, read: bool)
    requires SlotAt(t, p).Some? && SlotAt(t, p).value.ref > 0 && SlotAt(t, p).value.mutex.CanUnlock(read)
    requires p in t.debug
    ensures var t' := Leave(t, p, o, read); var x := SlotAt(t, p).value;
            && SlotAt(t', p) == (if x.ref == 1 then None else Some(Slot(x.id, x.ref - 1, x.mutex.Unlock(read))))
            && InfoAt(t'.debug, p) == if x.ref == 1 then map[] else InfoAt(t.debug, p) - {o}
  {
    LeaveIs(t, p, o, read);
  }

  lemma OwnPath(s: State, step: Step)
    requires Enabled(s, step) && Inv(s) && PathOf(s, step) !in s.tainted && !step.ForceStep?
    ensures CleanAt(Do(s, step), PathOf(s, step)) && !Do(s, step).dead
  {
    match step
    case Ask(o, p, source, read) => OwnAsk(s, o, p, source, read);
    case Get(o) => OwnGet(s, o);
    case Confirm(o) => OwnConfirm(s, o);
    case Release(o) => OwnRelease(s, o);
  }

  lemma OwnAsk(s: State, o: OpsID, p: Param, source: string, read: bool)
    requires Enabled(s, Ask(o, p, source, read)) && Owned(s) && CleanAt(s, p)
    ensures CleanAt(Do(s, Ask(o, p, source, read)), p)
  {
    var x, c := Found(s.table, p), Client(p, source, read, Found(s.table, p).id, Waiting);
    AskedHere(s, o, p, source, read);
    AskClean(SlotAt(s.table, p), InfoAt(s.table.debug, p), At(s.clients, p), o, c, x);
  }

  /** What an ask does to its own path. */
  lemma AskedHere(s: State, o: OpsID, p: Param, source: string, read: bool)
    requires Enabled(s, Ask(o, p, source, read))
             && (p in s.table.lockMap ==> s.table.lockMap[p].lock in s.table.mutexes)
    ensures var s', x := Do(s, Ask(o, p, source, read)), Found(s.table, p);
            var c := Client(p, source, read, x.id, Waiting);
            && SlotAt(s'.table, p) == Some(x.(ref := x.ref + 1))
            && InfoAt(s'.table.debug, p) == InfoAt(s.table.debug, p)[o := InfoOf(c)]
            && At(s'.clients, p) == At(s.clients, p)[o := c]
  {
    EnterHere(s.table, p, source, o, read);
    OwnClients(s.clients, o, Client(p, source, read, Found(s.table, p).id, Waiting));
  }

  lemma OwnGet(s: State, o: OpsID)
    requires Enabled(s, Get(o)) && CleanAt(s, s.clients[o].param)
    ensures CleanAt(Do(s, Get(o)), s.clients[o].param)
  {
    var p := s.clients[o].param;
    OwnClients(s.clients, o, s.clients[o].(phase := Holding));
    assert o in At(s.clients, p);
    GetClean(SlotAt(s.table, p).value, InfoAt(s.table.debug, p), At(s.clients, p), o);
  }

  lemma OwnConfirm(s: State, o: OpsID)
    requires Enabled(s, Confirm(o)) && CleanAt(s, s.clients[o].param)
    ensures CleanAt(Do(s, Confirm(o)), s.clients[o].param)
  {
    var c := s.clients[o];
    OwnClients(s.clients, o, c.(phase := Active));
    assert o in At(s.clients, c.param);
    ConfirmHere(s.table, c.param, c.source, o, c.read);
    ConfirmClean(SlotAt(s.table, c.param).value, InfoAt(s.table.debug, c.param), At(s.clients, c.param), o);
  }

  lemma OwnRelease(s: State, o: OpsID)
    requires Enabled(s, Release(o)) && CleanAt(s, s.clients[o].param) && s.table.lockMap.Keys == s.table.debug.Keys
    ensures CleanAt(Do(s, Release(o)), s.clients[o].param) && !Do(s, Release(o)).dead
  {
    var c := s.clients[o];
    OwnClients(s.clients, o, c);
    assert o in At(s.clients, c.param);
    var x := SlotAt(s.table, c.param).value;
    ReleaseClean(x, InfoAt(s.table.debug, c.param), At(s.clients, c.param), o);
    LeaveHere(s.table, c.param, o, c.read);
  }

  // ------------------------------------------------------------ every reachable state

  /** The old lock objects keep their owners; the entries that remain keep their lock objects. */
  ghost predicate SameOwners(t: Table, t': Table) {
    && (forall id | id in t.mutexes :: id in t'.mutexes && t'.mutexes[id].owner == t.mutexes[id].owner)
    && (forall p | p in t'.lockMap && p in t.lockMap :: t'.lockMap[p].lock == t.lockMap[p].lock)
  }

  /** Nothing was made. */
  ghost predicate Shrunk(t: Table, t': Table) {
    SameOwners(t, t') && t'.lockMap.Keys <= t.lockMap.Keys && t'.mutexes.Keys == t.mutexes.Keys && t'.made == t.made
  }

  lemma EnterOwners(t: Table, p: Param, source: string, o: OpsID, read: bool)
    requires forall id | id in t.mutexes :: id < t.made
    ensures var t' := Enter(t, p, source, o, read);
            && SameOwners(t, t')
            && t'.lockMap.Keys == t.lockMap.Keys + {p}
            && t'.lockMap[p].lock == FindOrMake(t, p).lockMap[p].lock
            && (p !in t.lockMap ==> t'.lockMap[p].lock in t'.mutexes && t'.mutexes[t'.lockMap[p].lock].owner == p)
            && (forall id | id in t'.mutexes :: id < t'.made)
  {
  }

  lemma LeaveShrinks(t: Table, p: Param, o: OpsID, read: bool)
    requires !UnlockFatal(t, p, read) && (p in t.lockMap ==> t.lockMap[p].ref > 0)
    ensures Shrunk(t, Leave(t, p, o, read))
  {
    if p in t.lockMap {
      LeaveIs(t, p, o, read);
      var t1, t' := Lowered(t, p, read), Leave(t, p, o, read);
      assert t'.mutexes == t1.mutexes && t'.made == t1.made;
      assert t'.lockMap == if t.lockMap[p].ref == 1 then t1.lockMap - {p} else t1.lockMap;
    }
  }

  lemma OwnedShrinks(s: State, s': State)
    requires Owned(s) && Shrunk(s.table, s'.table)
    requires forall o | o in s'.clients :: o in s.clients && s'.clients[o].lock == s.clients[o].lock
                                           && s'.clients[o].param == s.clients[o].param
    ensures Owned(s')
  {
  }

  lemma OwnedAsk(s: State, o: OpsID, p: Param, source: string, read: bool)
    requires Enabled(s, Ask(o, p, source, read)) && Owned(s)
    ensures Owned(Do(s, Ask(o, p, source, read)))
  {
    EnterOwners(s.table, p, source, o, read);
    var s' := Do(s, Ask(o, p, source, read));
    assert s'.table == Enter(s.table, p, source, o, read);
  }

  lemma OwnedKept(s: State, step: Step)
    requires Enabled(s, step) && Owned(s) && Backed(s)
    ensures Owned(Do(s, step))
  {
    if step.Ask? {
      OwnedAsk(s, step.o, step.p, step.source, step.read);
    } else {
      StepShrinks(s, step);
      OwnedShrinks(s, Do(s, step));
    }
  }

  lemma StepShrinks(s: State, step: Step)
    requires Enabled(s, step) && Backed(s) && !step.Ask?
    ensures Shrunk(s.table, Do(s, step).table)
  {
    if step.Release? && !Do(s, step).dead {
      var c := s.clients[step.o];
      LeaveShrinks(s.table, c.param, step.o, c.read);
    }
  }

  // ------------------------------------------------------------ references and lock info

  lemma BackedElsewhere(s: State, step: Step, p: Param)
    requires Enabled(s, step) && Owned(s) && Backed(s) && p != PathOf(s, step)
    ensures BackedAt(Do(s, step), p)
  {
    OtherPath(s, step, p);
    OwnedKept(s, step);
    assert BackedAt(s, p);
  }

  ghost predicate BackedAt(s: State, p: Param) {
    && (p in s.table.lockMap ==> 0 < s.table.lockMap[p].ref <= |At(s.clients, p).Keys|)
    && InfoAt(s.table.debug, p).Keys <= At(s.clients, p).Keys
  }

  lemma BackedHere(s: State, step: Step)
    requires Enabled(s, step) && Owned(s) && BackedAt(s, PathOf(s, step)) && Accounted(s.table)
    ensures BackedAt(Do(s, step), PathOf(s, step))
  {
    match step
    case Ask(o, p, source, read) => BackedAsk(s, o, p, source, read);
    case Get(o) => OwnClients(s.clients, o, s.clients[o].(phase := Holding));
    case Confirm(o) => BackedConfirm(s, o);
    case Release(o) => BackedRelease(s, o);
    case ForceStep(p) =>
  }

  lemma BackedConfirm(s: State, o: OpsID)
    requires Enabled(s, Confirm(o)) && BackedAt(s, s.clients[o].param)
    ensures BackedAt(Do(s, Confirm(o)), s.clients[o].param)
  {
    var c := s.clients[o];
    OwnClients(s.clients, o, c.(phase := Active));
    var t' := BlockedToRunning(s.table, c.param, c.source, o, c.read);
    assert InfoAt(t'.debug, c.param).Keys == InfoAt(s.table.debug, c.param).Keys;
  }

  lemma BackedAsk(s: State, o: OpsID, p: Param, source: string, read: bool)
    requires Enabled(s, Ask(o, p, source, read)) && Owned(s) && BackedAt(s, p)
    ensures BackedAt(Do(s, Ask(o, p, source, read)), p)
  {
    EnterHere(s.table, p, source, o, read);
    var c := Client(p, source, read, Found(s.table, p).id, Waiting);
    OwnClients(s.clients, o, c);
    assert At(s.clients, p)[o := c].Keys - {o} == At(s.clients, p).Keys;
    OneLess(At(s.clients, p)[o := c].Keys, o);
  }

  lemma BackedRelease(s: State, o: OpsID)
    requires Enabled(s, Release(o)) && Owned(s) && BackedAt(s, s.clients[o].param) && Accounted(s.table)
    ensures BackedAt(Do(s, Release(o)), s.clients[o].param)
  {
    var c := s.clients[o];
    if c.param in s.table.lockMap && !UnlockFatal(s.table, c.param, c.read) {
      var mine := At(s.clients, c.param);
      OwnClients(s.clients, o, c);
      OneLess(mine.Keys, o);
      assert (mine - {o}).Keys == mine.Keys - {o};
      ReleasedSlot(s, o);
    }
  }

  lemma ReleasedSlot(s: State, o: OpsID)
    requires Enabled(s, Release(o)) && s.table.lockMap.Keys == s.table.debug.Keys
    requires var c := s.clients[o]; c.param in s.table.lockMap && !UnlockFatal(s.table, c.param, c.read)
                                    && s.table.lockMap[c.param].ref > 0
    ensures var p := s.clients[o].param; var t' := Do(s, Release(o)).table;
            && (p in t'.lockMap ==> 0 < t'.lockMap[p].ref == s.table.lockMap[p].ref - 1)
            && InfoAt(t'.debug, p).Keys <= InfoAt(s.table.debug, p).Keys - {o}
  {
    var c := s.clients[o];
    LeaveHere(s.table, c.param, o, c.read);
    LeaveIs(s.table, c.param, o, c.read);
  }

  lemma BackedStep(s: State, step: Step, p: Param)
    requires Enabled(s, step) && Owned(s) && Backed(s) && Accounted(s.table)
    ensures BackedAt(Do(s, step), p)
  {
    assert BackedAt(s, p);
    if p == PathOf(s, step) { BackedHere(s, step); } else { BackedElsewhere(s, step, p); }
  }

  lemma BackedKept(s: State, step: Step)
    requires Enabled(s, step) && Owned(s) && Backed(s) && Accounted(s.table)
    ensures Backed(Do(s, step))
  {
    var s' := Do(s, step);
    forall p ensures BackedAt(s', p) { BackedStep(s, step, p); }
    BackedEverywhere(s');
  }

  lemma BackedEverywhere(s: State)
    requires forall p :: BackedAt(s, p)
    ensures Backed(s)
  {
    forall p | p in s.table.lockMap
      ensures 0 < s.table.lockMap[p].ref <= |At(s.clients, p).Keys|
    {
      assert BackedAt(s, p);
    }
    forall p | p in s.table.debug ensures s.table.debug[p].info.Keys <= At(s.clients, p).Keys { assert BackedAt(s, p); }
  }

  lemma AccountedKept(s: State, step: Step)
    requires Enabled(s, step) && Backed(s) && Accounted(s.table)
    ensures Accounted(Do(s, step).table)
  {
    match step
    case Ask(o, p, source, read) =>
      assert BackedAt(s, p);
      AskAccounted(s.table, p, source, o, read);
    case Get(o) =>
    case Confirm(o) =>
      var c := s.clients[o];
      ConfirmAccounted(s.table, c.param, c.source, o, c.read);
    case Release(o) =>
      var c := s.clients[o];
      if !UnlockFatal(s.table, c.param, c.read) { LeaveAccounted(s.table, c.param, o, c.read); }
    case ForceStep(p) =>
      ForceAccounted(s.table, p);
  }

  /** An idle path has no entry, forced or not. */
  lemma IdleIsClean(s: State, p: Param)
    requires BackedAt(s, p) && At(s.clients, p).Keys == {}
    ensures CleanAt(s, p)
  {
  }

  lemma CleanKept(s: State, step: Step, p: Param)
    requires Enabled(s, step) && Inv(s) && Backed(Do(s, step)) && p !in Do(s, step).tainted
    ensures CleanAt(Do(s, step), p)
  {
    if p != PathOf(s, step) {
      OtherPath(s, step, p);
      TaintElsewhere(s, step, p);
    } else if step.ForceStep? {
      assert CleanAt(s, p);
    } else if p !in s.tainted {
      OwnPath(s, step);
    } else {
      TaintEnds(s, step);
      assert BackedAt(Do(s, step), p);
      IdleIsClean(Do(s, step), p);
    }
  }

  lemma TaintElsewhere(s: State, step: Step, p: Param)
    requires Enabled(s, step) && p != PathOf(s, step)
    ensures p in Do(s, step).tainted <==> p in s.tainted
  {
  }

  lemma TaintEnds(s: State, step: Step)
    requires Enabled(s, step) && PathOf(s, step) in s.tainted && PathOf(s, step) !in Do(s, step).tainted
    ensures At(Do(s, step).clients, PathOf(s, step)).Keys == {}
  {
  }

  lemma StepKeeps(s: State, step: Step)
    requires Enabled(s, step) && Inv(s)
    ensures Inv(Do(s, step))
    ensures PathOf(s, step) !in s.tainted ==> !Do(s, step).dead
  {
    AccountedKept(s, step);
    OwnedKept(s, step);
    BackedKept(s, step);
    forall p | p !in Do(s, step).tainted ensures CleanAt(Do(s, step), p) { CleanKept(s, step, p); }
    if PathOf(s, step) !in s.tainted && !step.ForceStep? { OwnPath(s, step); }
  }

  // ------------------------------------------------------------ whole runs

  lemma {:induction false} RunKeeps(s: State, steps: seq<Step>, end: State)
    requires Inv(s) && Run(s, steps, end)
    ensures Inv(end)
    decreases |steps|
  {
    if steps != [] {
      StepKeeps(s, steps[0]);
      RunKeeps(Do(s, steps[0]), steps[1..], end);
    }
  }

  lemma StartIsClean()
    ensures Inv(START) && START.tainted == {} && !START.dead
  {
    assert Recorded(START.table.debug, Blocked) == {} == Recorded(START.table.debug, Running);
    forall p ensures CleanAt(START, p) { assert At(START.clients, p).Keys == {}; }
  }

  /** Safety of every reachable state, forced removals included. */
  lemma Reachable(steps: seq<Step>, end: State)
    requires Run(START, steps, end)
    ensures Inv(end)
  {
    StartIsClean();
    RunKeeps(START, steps, end);
  }
}
