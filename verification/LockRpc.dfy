/**
  The lock RPC server (cmd/lock-rpc-server.go, cmd/lock-rpc-server-common.go).

  `Locks` is the server's lock map as a value and the functions give what each handler
  answers and leaves; the class `LockServer` performs the handlers on its field.
 */
module LockRpc {
  import opened Wrappers

  /** The lock server a client runs beside: where `Expired` is asked. */
  datatype Endpoint = Endpoint(node: string, rpcPath: string)

  datatype Requester = Requester(writer: bool, origin: Endpoint, uid: string, timestamp: int, timeLastCheck: int)

  datatype LockArgs = LockArgs(uid: string, resource: string, origin: Endpoint)

  type Locks = map<string, seq<Requester>>

  datatype RpcError = AuthFailed | Unlocked | ReadLocked(active: nat) | WriteLocked | UidNotFound | UidNotEmpty

  datatype NamedRequester = NamedRequester(name: string, lri: Requester)

  predicate IsWriteLock(lri: seq<Requester>) {
    |lri| == 1 && lri[0].writer
  }

  function Request(args: LockArgs, writer: bool, now: int): Requester {
    Requester(writer, args.origin, args.uid, now, now)
  }

  // ------------------------------------------------------------ what handlers answer and leave

  predicate WriteGranted(m: Locks, name: string) {
    name !in m
  }

  predicate ReadGranted(m: Locks, name: string) {
    name in m ==> !IsWriteLock(m[name])
  }

  predicate Granted(m: Locks, name: string, read: bool) {
    if read then ReadGranted(m, name) else WriteGranted(m, name)
  }

  function Joined(m: Locks, name: string, r: Requester): seq<Requester> {
    if name in m then m[name] + [r] else [r]
  }

  function AfterLock(m: Locks, args: LockArgs, read: bool, now: int): Locks {
    if Granted(m, args.resource, read)
    then m[args.resource := Joined(m, args.resource, Request(args, !read, now))]
    else m
  }

  /** Where the first entry with a uid is; the length if there is none. */
  function Find(lri: seq<Requester>, uid: string, from: nat): (k: nat)
    requires from <= |lri|
    ensures from <= k <= |lri| && (k < |lri| ==> lri[k].uid == uid)
    ensures forall i | from <= i < k :: lri[i].uid != uid
    decreases |lri| - from
  {
    if from == |lri| || lri[from].uid == uid then from else Find(lri, uid, from + 1)
  }

  predicate Has(m: Locks, name: string, uid: string) {
    name in m && Find(m[name], uid, 0) < |m[name]|
  }

  function Remove(m: Locks, name: string, uid: string): Locks {
    if !Has(m, name, uid) then m
    else if |m[name]| == 1 then m - {name}
    else var k := Find(m[name], uid, 0); m[name := m[name][..k] + m[name][k + 1..]]
  }

  /** Why a release fails, if so. */
  function ReleaseError(m: Locks, name: string, uid: string, read: bool): Option<RpcError> {
    if name !in m then Some(Unlocked)
    else if read && IsWriteLock(m[name]) then Some(WriteLocked)
    else if !read && !IsWriteLock(m[name]) then Some(ReadLocked(|m[name]|))
    else if !Has(m, name, uid) then Some(UidNotFound)
    else None
  }

  function AfterRelease(m: Locks, name: string, uid: string, read: bool): Locks {
    if ReleaseError(m, name, uid, read).None? then Remove(m, name, uid) else m
  }

  predicate Due(e: Requester, interval: int, now: int) {
    now - e.timeLastCheck >= interval
  }

  function Stamp(e: Requester, interval: int, now: int): Requester {
    if Due(e, interval, now) then e.(timeLastCheck := now) else e
  }

  function StampAll(lri: seq<Requester>, interval: int, now: int): (r: seq<Requester>)
    ensures |r| == |lri| && forall k | 0 <= k < |lri| :: r[k] == Stamp(lri[k], interval, now)
  {
    seq(|lri|, k requires 0 <= k < |lri| => Stamp(lri[k], interval, now))
  }

  /** The lock map after a maintenance pass picked its long lived locks. */
  function Stamped(m: Locks, interval: int, now: int): Locks {
    map name | name in m :: StampAll(m[name], interval, now)
  }

  /** The lock is old enough to be asked about. */
  ghost predicate LongLived(m: Locks, interval: int, now: int, pair: NamedRequester) {
    pair.name in m && pair.lri in m[pair.name] && Due(pair.lri, interval, now)
  }

  /** A lock granted at `now` and not asked about since. */
  ghost function NewEntry(args: LockArgs, writer: bool, now: int): NamedRequester {
    NamedRequester(args.resource, Requester(writer, args.origin, args.uid, timestamp := now, timeLastCheck := now))
  }

  // ------------------------------------------------------------ the server

  class LockServer {
    var lockMap: Locks

    constructor ()
      ensures lockMap == map[]
    {
      lockMap := map[];
    }

    method Lock(args: LockArgs, authenticated: bool, now: int) returns (err: Option<RpcError>, reply: bool)
      modifies this
      ensures err == if authenticated then None else Some(AuthFailed)
      ensures reply == (authenticated && Granted(old(lockMap), args.resource, false))
      ensures lockMap == if authenticated then AfterLock(old(lockMap), args, false, now) else old(lockMap)
      ensures reply ==> forall interval, later ::
                LongLived(lockMap, interval, later, NewEntry(args, true, now)) <==> later >= now + interval
    {
      if !authenticated { return Some(AuthFailed), false; }
      reply := args.resource in lockMap;
      if !reply {
        lockMap := lockMap[args.resource := [Request(args, true, now)]];
      }
      return None, !reply;
    }

    method Unlock(args: LockArgs, authenticated: bool) returns (err: Option<RpcError>, reply: bool)
      modifies this
      ensures err == if authenticated then ReleaseError(old(lockMap), args.resource, args.uid, false)
              else Some(AuthFailed)
      ensures reply == (authenticated && (err.None? || err == Some(UidNotFound)))
      ensures lockMap == if authenticated then AfterRelease(old(lockMap), args.resource, args.uid, false)
              else old(lockMap)
    {
      if !authenticated { return Some(AuthFailed), false; }
      if args.resource !in lockMap { return Some(Unlocked), false; }
      var lri := lockMap[args.resource];
      reply := IsWriteLock(lri);
      if !reply { return Some(ReadLocked(|lri|)), reply; }
      var removed := RemoveEntry(args.resource, args.uid);
      if !removed { return Some(UidNotFound), reply; }
      return None, reply;
    }

    method RLock(args: LockArgs, authenticated: bool, now: int) returns (err: Option<RpcError>, reply: bool)
      modifies this
      ensures err == if authenticated then None else Some(AuthFailed)
      ensures reply == (authenticated && Granted(old(lockMap), args.resource, true))
      ensures lockMap == if authenticated then AfterLock(old(lockMap), args, true, now) else old(lockMap)
      ensures reply ==> forall interval, later ::
                LongLived(lockMap, interval, later, NewEntry(args, false, now)) <==> later >= now + interval
    {
      if !authenticated { return Some(AuthFailed), false; }
      var lrInfo := Request(args, false, now);
      if args.resource in lockMap {
        reply := !IsWriteLock(lockMap[args.resource]);
        if reply {
          lockMap := lockMap[args.resource := lockMap[args.resource] + [lrInfo]];
        }
      } else {
        lockMap := lockMap[args.resource := [lrInfo]];
        reply := true;
      }
      return None, reply;
    }

    method RUnlock(args: LockArgs, authenticated: bool) returns (err: Option<RpcError>, reply: bool)
      modifies this
      ensures err == if authenticated then ReleaseError(old(lockMap), args.resource, args.uid, true)
              else Some(AuthFailed)
      ensures reply == (authenticated && (err.None? || err == Some(UidNotFound)))
      ensures lockMap == if authenticated then AfterRelease(old(lockMap), args.resource, args.uid, true)
              else old(lockMap)
    {
      if !authenticated { return Some(AuthFailed), false; }
      if args.resource !in lockMap { return Some(Unlocked), false; }
      var lri := lockMap[args.resource];
      reply := !IsWriteLock(lri);
      if !reply { return Some(WriteLocked), reply; }
      var removed := RemoveEntry(args.resource, args.uid);
      if !removed { return Some(UidNotFound), reply; }
      return None, reply;
    }

    method ForceUnlock(args: LockArgs, authenticated: bool) returns (err: Option<RpcError>, reply: bool)
      modifies this
      ensures err == if !authenticated then Some(AuthFailed) else if args.uid != "" then Some(UidNotEmpty) else None
      ensures reply == err.None?
      ensures lockMap == if err.None? then old(lockMap) - {args.resource} else old(lockMap)
    {
      if !authenticated { return Some(AuthFailed), false; }
      if |args.uid| != 0 { return Some(UidNotEmpty), false; }
      if args.resource in lockMap {
        lockMap := lockMap - {args.resource};
      }
      return None, true;
    }

    method Expired(args: LockArgs, authenticated: bool) returns (err: Option<RpcError>, reply: bool)
      ensures err == if authenticated then None else Some(AuthFailed)
      ensures reply == (authenticated && !Has(lockMap, args.resource, args.uid))
    {
      if !authenticated { return Some(AuthFailed), false; }
      if args.resource in lockMap {
        var lri := lockMap[args.resource];
        for k := 0 to |lri|
          invariant Find(lri, args.uid, 0) >= k
        {
          if lri[k].uid == args.uid { return None, false; }
        }
      }
      return None, true;
    }

    /** Splices the first entry with the uid out, or drops the name with its last entry. */
    method RemoveEntry(name: string, uid: string) returns (removed: bool)
      requires name in lockMap
      modifies this
      ensures removed == Has(old(lockMap), name, uid)
      ensures lockMap == Remove(old(lockMap), name, uid)
    {
      var lri := lockMap[name];
      for k := 0 to |lri|
        invariant lockMap == old(lockMap) && Find(lri, uid, 0) >= k
      {
        if lri[k].uid == uid {
          if |lri| == 1 {
            lockMap := lockMap - {name};
          } else {
            lockMap := lockMap[name := lri[..k] + lri[k + 1..]];
          }
          return true;
        }
      }
      return false;
    }

    /** The purge step of maintenance. */
    method RemoveEntryIfExists(pair: NamedRequester)
      modifies this
      ensures lockMap == Remove(old(lockMap), pair.name, pair.lri.uid)
    {
      if pair.name in lockMap {
        var _ := RemoveEntry(pair.name, pair.lri.uid);
      }
    }

    /** The snapshot step of maintenance: picks the long lived locks and marks them checked. */
    method GetLongLivedLocks(interval: int, now: int) returns (rslt: seq<NamedRequester>)
      modifies this
      ensures lockMap == Stamped(old(lockMap), interval, now)
      ensures forall pair :: pair in rslt <==> LongLived(old(lockMap), interval, now, pair)
    {
      rslt := [];
      var names := lockMap.Keys;
      ghost var was := lockMap;
      while names != {}
        invariant names <= was.Keys == lockMap.Keys
        invariant forall name | name in names :: lockMap[name] == was[name]
        invariant forall name | name in was.Keys - names :: lockMap[name] == StampAll(was[name], interval, now)
        invariant forall pair :: pair in rslt <==> pair.name !in names && LongLived(was, interval, now, pair)
        decreases |names|
      {
        var name :| name in names;
        var picked, lriArray := PickDue(name, lockMap[name], interval, now);
        rslt := rslt + picked;
        lockMap := lockMap[name := lriArray];
        names := names - {name};
      }
    }
  }

  /** The inner loop: one name's entries. */
  method PickDue(name: string, lri: seq<Requester>, interval: int, now: int)
    returns (picked: seq<NamedRequester>, lriArray: seq<Requester>)
    ensures lriArray == StampAll(lri, interval, now)
    ensures forall pair :: pair in picked <==> pair.name == name && pair.lri in lri && Due(pair.lri, interval, now)
  {
    picked, lriArray := [], lri;
    for idx := 0 to |lri|
      invariant |lriArray| == |lri|
      invariant forall k | 0 <= k < |lri| :: lriArray[k] == if k < idx then Stamp(lri[k], interval, now) else lri[k]
      invariant forall pair :: pair in picked
                               <==> pair.name == name && pair.lri in lri[..idx] && Due(pair.lri, interval, now)
    {
      assert lri[..idx + 1] == lri[..idx] + [lri[idx]];
      if Due(lriArray[idx], interval, now) {
        picked := picked + [NamedRequester(name, lriArray[idx])];
        lriArray := lriArray[idx := lriArray[idx].(timeLastCheck := now)];
      }
    }
    assert lri[..|lri|] == lri;
  }
}
