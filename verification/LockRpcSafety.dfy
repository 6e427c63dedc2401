/**
  One lock server over its whole history: what the lock map always looks like, and
  whom it still holds a lock for.
 */
module LockRpcSafety {
  import opened Wrappers
  import opened LockRpc

  /** Exactly one writer, or readers only. */
  predicate OneWriterOrReaders(lri: seq<Requester>) {
    |lri| > 0 && (IsWriteLock(lri) || forall k | 0 <= k < |lri| :: !lri[k].writer)
  }

  ghost predicate Safe(m: Locks) {
    forall name | name in m :: OneWriterOrReaders(m[name])
  }

  // ------------------------------------------------------------ the handlers keep it

  lemma LockKeepsSafe(m: Locks, args: LockArgs, read: bool, now: int)
    requires Safe(m)
    ensures Safe(AfterLock(m, args, read, now))
  {
  }

  lemma RemoveKeepsSafe(m: Locks, name: string, uid: string)
    requires Safe(m)
    ensures Safe(Remove(m, name, uid))
  {
  }

  lemma StampKeepsSafe(m: Locks, interval: int, now: int)
    requires Safe(m)
    ensures Safe(Stamped(m, interval, now))
  {
    forall name | name in m ensures OneWriterOrReaders(StampAll(m[name], interval, now)) {
      assert OneWriterOrReaders(m[name]);
    }
  }

  /** A lock that was just asked about is not asked about again before the interval is over. */
  lemma StampedIsNotDue(m: Locks, interval: int, now: int, later: int, pair: NamedRequester)
    requires 0 < interval && now <= later < now + interval
    requires LongLived(Stamped(m, interval, now), interval, later, pair)
    ensures pair.name in m && pair.lri in m[pair.name] && !Due(pair.lri, interval, now)
  {
    var lri := m[pair.name];
    var k :| 0 <= k < |lri| && StampAll(lri, interval, now)[k] == pair.lri;
    assert pair.lri == Stamp(lri[k], interval, now);
  }

  // ------------------------------------------------------------ accounting

  /** How often a uid is among the first `n` entries. */
  function Count(lri: seq<Requester>, n: nat, uid: string): nat
    requires n <= |lri|
  {
    if n == 0 then 0 else Count(lri, n - 1, uid) + (if lri[n - 1].uid == uid then 1 else 0)
  }

  /** How often a name is locked for a uid. */
  function Held(m: Locks, name: string, uid: string): nat {
    if name in m then Count(m[name], |m[name]|, uid) else 0
  }

  lemma {:induction false} CountPrefix(a: seq<Requester>, b: seq<Requester>, n: nat, uid: string)
    requires n <= |a| && n <= |b| && forall k | 0 <= k < n :: a[k].uid == b[k].uid
    ensures Count(a, n, uid) == Count(b, n, uid)
  {
    if n > 0 { CountPrefix(a, b, n - 1, uid); }
  }

  /** Taking out entry `k` takes one off the counts behind it. */
  lemma {:induction false} CountSplice(lri: seq<Requester>, k: nat, n: nat, uid: string)
    requires k < n <= |lri|
    ensures Count(lri[..k] + lri[k + 1..], n - 1, uid) == Count(lri, n, uid) - (if lri[k].uid == uid then 1 else 0)
  {
    var less := lri[..k] + lri[k + 1..];
    if n == k + 1 {
      CountPrefix(less, lri, k, uid);
    } else {
      CountSplice(lri, k, n - 1, uid);
      assert less[n - 2] == lri[n - 1];
    }
  }

  lemma {:induction false} CountFound(lri: seq<Requester>, n: nat, uid: string)
    requires n <= |lri|
    ensures Count(lri, n, uid) == 0 <==> Find(lri, uid, 0) >= n
  {
    if n > 0 { CountFound(lri, n - 1, uid); }
  }

  lemma HasIsHeld(m: Locks, name: string, uid: string)
    ensures Has(m, name, uid) <==> Held(m, name, uid) > 0
  {
    if name in m { CountFound(m[name], |m[name]|, uid); }
  }

  /** Removing takes out one lock of one name and uid, if it is there, and nothing else. */
  lemma RemoveTakesOne(m: Locks, name: string, uid: string, n: string, u: string)
    ensures Held(Remove(m, name, uid), n, u)
            == Held(m, n, u) - (if n == name && u == uid && Held(m, n, u) > 0 then 1 else 0)
  {
    HasIsHeld(m, name, uid);
    if n == name && Has(m, name, uid) {
      CountSplice(m[name], Find(m[name], uid, 0), |m[name]|, u);
    }
  }

  lemma LockAddsOne(m: Locks, args: LockArgs, read: bool, now: int, n: string, u: string)
    ensures Held(AfterLock(m, args, read, now), n, u)
            == Held(m, n, u) + (if n == args.resource && u == args.uid && Granted(m, n, read) then 1 else 0)
  {
    if n == args.resource && Granted(m, n, read) {
      var lri := AfterLock(m, args, read, now)[n];
      if n in m { CountPrefix(m[n], lri, |m[n]|, u); } else { assert Count(lri, 0, u) == 0; }
    }
  }

  lemma StampKeepsHeld(m: Locks, interval: int, now: int, n: string, u: string)
    ensures Held(Stamped(m, interval, now), n, u) == Held(m, n, u)
  {
    if n in m { CountPrefix(m[n], StampAll(m[n], interval, now), |m[n]|, u); }
  }

  // ------------------------------------------------------------ histories

  datatype Call =
    | Acquire(args: LockArgs, read: bool, now: int)
    | Release(args: LockArgs, read: bool)
    | Clear(args: LockArgs)
    | Ask(args: LockArgs)
    | Check(interval: int, at: int)
    | Purge(name: string, lri: Requester)

  /** What the caller sees. */
  datatype Answer = Answer(err: Option<RpcError>, reply: bool)

  /** The lock map an authenticated call leaves. */
  function Serve(m: Locks, call: Call): Locks {
    match call
    case Acquire(args, read, now) => AfterLock(m, args, read, now)
    case Release(args, read) => AfterRelease(m, args.resource, args.uid, read)
    case Clear(args) => if args.uid == "" then m - {args.resource} else m
    case Ask(_) => m
    case Check(interval, now) => Stamped(m, interval, now)
    case Purge(name, lri) => Remove(m, name, lri.uid)
  }

  function Answered(m: Locks, call: Call): Answer {
    match call
    case Acquire(args, read, _) => Answer(None, Granted(m, args.resource, read))
    case Release(args, read) => var e := ReleaseError(m, args.resource, args.uid, read); Answer(e, e.None?
            || e == Some(UidNotFound))
    case Clear(args) => if args.uid == "" then Answer(None, true) else Answer(Some(UidNotEmpty), false)
    case Ask(args) => Answer(None, !Has(m, args.resource, args.uid))
    case Check(_, _) => Answer(None, true)
    case Purge(_, _) => Answer(None, true)
  }

  /** What a call changes in the number of locks of one name and uid, told from its answer. */
  function Entered(was: nat, call: Call, answer: Answer, name: string, uid: string): nat {
    match call
    case Acquire(args, _, _) => if args.resource == name && args.uid == uid && answer.reply then was + 1 else was
    case Release(args, _) => if args.resource == name && args.uid == uid && answer.err.None? && was > 0 then was - 1
    else was
    case Clear(args) => if args.resource == name && answer.err.None? then 0 else was
    case Purge(n, lri) => if n == name && lri.uid == uid && was > 0 then was - 1 else was
    case _ => was
  }

  /** Grants less releases, clears and purges, as the answers of a history tell. */
  function Ledger(calls: seq<Call>, answers: seq<Answer>, name: string, uid: string): nat
    requires |calls| == |answers|
  {
    if calls == [] then 0
    else var n := |calls| - 1; Entered(Ledger(calls[..n], answers[..n], name, uid), calls[n], answers[n], name, uid)
  }

  /** The lock map after a history, and the answers given in it. */
  function After(calls: seq<Call>): Locks {
    if calls == [] then map[] else Serve(After(calls[..|calls| - 1]), calls[|calls| - 1])
  }

  function Answers(calls: seq<Call>): (r: seq<Answer>)
    ensures |r| == |calls|
  {
    if calls == [] then []
    else Answers(calls[..|calls| - 1]) + [Answered(After(calls[..|calls| - 1]), calls[|calls| - 1])]
  }

  /** In every reachable state each entry is one writer or readers only. */
  lemma {:induction false} AlwaysSafe(calls: seq<Call>)
    ensures Safe(After(calls))
    decreases |calls|
  {
    if calls != [] {
      var m := After(calls[..|calls| - 1]);
      AlwaysSafe(calls[..|calls| - 1]);
      match calls[|calls| - 1]
      case Acquire(args, read, now) => LockKeepsSafe(m, args, read, now);
      case Release(args, read) => RemoveKeepsSafe(m, args.resource, args.uid);
      case Clear(_) =>
      case Ask(_) =>
      case Check(interval, now) => StampKeepsSafe(m, interval, now);
      case Purge(name, lri) => RemoveKeepsSafe(m, name, lri.uid);
    }
  }

  /** The lock map holds for every name exactly the uids that the answers given so far account for. */
  lemma {:induction false} HistoryAccounts(calls: seq<Call>, name: string, uid: string)
    ensures Held(After(calls), name, uid) == Ledger(calls, Answers(calls), name, uid)
    decreases |calls|
  {
    if calls != [] {
      var n := |calls| - 1;
      HistoryAccounts(calls[..n], name, uid);
      assert Answers(calls)[..n] == Answers(calls[..n]);
      CallAccounts(After(calls[..n]), calls[n], name, uid);
    }
  }

  lemma CallAccounts(m: Locks, call: Call, name: string, uid: string)
    ensures Held(Serve(m, call), name, uid) == Entered(Held(m, name, uid), call, Answered(m, call), name, uid)
  {
    match call
    case Acquire(args, read, now) => LockAddsOne(m, args, read, now, name, uid);
    case Release(args, read) => RemoveTakesOne(m, args.resource, args.uid, name, uid);
    case Clear(_) =>
    case Ask(_) =>
    case Check(interval, now) => StampKeepsHeld(m, interval, now, name, uid);
    case Purge(n, lri) => RemoveTakesOne(m, n, lri.uid, name, uid);
  }

  /** A release that is answered without an error gave back a lock that was granted: nothing is released twice. */
  lemma {:induction false} ReleasedWasHeld(calls: seq<Call>, args: LockArgs, read: bool)
    requires Answered(After(calls), Release(args, read)).err.None?
    ensures Ledger(calls, Answers(calls), args.resource, args.uid) > 0
  {
    HistoryAccounts(calls, args.resource, args.uid);
    HasIsHeld(After(calls), args.resource, args.uid);
  }

  /** Some entry of the name has the uid and is of the kind to be released. */
  predicate Releasable(m: Locks, args: LockArgs, read: bool) {
    args.resource in m && exists k | 0 <= k < |m[args.resource]| ::
      m[args.resource][k].uid == args.uid && m[args.resource][k].writer == !read
  }

  /**
    After every history a release is answered without an error exactly if a lock of its kind and uid is held, and
    each error says what is there instead.
   */
  lemma {:induction false} ReleaseExactly(calls: seq<Call>, args: LockArgs, read: bool)
    ensures var m, e := After(calls), Answered(After(calls), Release(args, read)).err;
            && (e.None? <==> Releasable(m, args, read))
            && (e == Some(Unlocked) <==> args.resource !in m)
            && (args.resource in m ==>
                  var lri := m[args.resource];
                  && (e == Some(WriteLocked) <==> read && exists k | 0 <= k < |lri| :: lri[k].writer)
                  && (e == Some(ReadLocked(|lri|)) <==> !read && forall k | 0 <= k < |lri| :: !lri[k].writer)
                  && (e == Some(UidNotFound) <==>
                        forall k | 0 <= k < |lri| :: lri[k].writer == !read && lri[k].uid != args.uid))
  {
    AlwaysSafe(calls);
    var m := After(calls);
    if args.resource in m {
      var lri := m[args.resource];
      assert OneWriterOrReaders(lri);
      var f := Find(lri, args.uid, 0);
      assert lri[0] in lri;
    }
  }

  // ------------------------------------------------------------ when a lock is asked about

  /** No maintenance pass was made with a negative interval; the server's interval is a positive constant. */
  ghost predicate Patient(calls: seq<Call>) {
    forall k | 0 <= k < |calls| && calls[k].Check? :: calls[k].interval >= 0
  }

  /** Call `k` granted the lock. */
  ghost predicate GrantedBy(calls: seq<Call>, k: nat, pair: NamedRequester) {
    && k < |calls| && calls[k].Acquire? && Granted(After(calls[..k]), calls[k].args.resource, calls[k].read)
    && calls[k].args == LockArgs(pair.lri.uid, pair.name, pair.lri.origin) && calls[k].read == !pair.lri.writer
  }

  /** An entry is what a grant put there, or was there before, with the same or an earlier time of the last check. */
  lemma EntrySource(m: Locks, call: Call, name: string, e: Requester) returns (was: Requester)
    requires (call.Check? ==> call.interval >= 0) && name in Serve(m, call) && e in Serve(m, call)[name]
    ensures || (call.Acquire? && Granted(m, call.args.resource, call.read)
                && e == Requester(!call.read, call.args.origin, call.args.uid, call.now, call.now)
                && call.args.resource == name)
            || (name in m && was in m[name] && e == was.(timeLastCheck := e.timeLastCheck)
                && was.timeLastCheck <= e.timeLastCheck)
  {
    was := e;
    if call.Check? {
      var k :| 0 <= k < |m[name]| && StampAll(m[name], call.interval, call.at)[k] == e;
      was := m[name][k];
    }
  }

  /** Every entry was granted at its timestamp, and was not checked before that. */
  lemma {:induction false} EntryWasGranted(calls: seq<Call>, pair: NamedRequester) returns (k: nat)
    requires Patient(calls) && pair.name in After(calls) && pair.lri in After(calls)[pair.name]
    ensures GrantedBy(calls, k, pair) && calls[k].now == pair.lri.timestamp <= pair.lri.timeLastCheck
    decreases |calls|
  {
    var n := |calls| - 1;
    var was := EntrySource(After(calls[..n]), calls[n], pair.name, pair.lri);
    if pair.name in After(calls[..n]) && was in After(calls[..n])[pair.name]
       && pair.lri == was.(timeLastCheck := pair.lri.timeLastCheck) && was.timeLastCheck <= pair.lri.timeLastCheck {
      k := EntryWasGranted(calls[..n], NamedRequester(pair.name, was));
      assert calls[..n][..k] == calls[..k];
    } else {
      k := n;
    }
  }

  /** A maintenance pass asks about no lock that was granted less than its interval ago. */
  lemma AskedIsOld(calls: seq<Call>, interval: int, later: int, pair: NamedRequester) returns (k: nat)
    requires Patient(calls) && LongLived(After(calls), interval, later, pair)
    ensures GrantedBy(calls, k, pair) && calls[k].now + interval <= later
  {
    k := EntryWasGranted(calls, pair);
  }

  /** The call neither takes the lock granted at `now` away nor, if it is a pass, finds it due. */
  predicate Leaves(call: Call, args: LockArgs, now: int) {
    match call
    case Release(a, _) => a.resource != args.resource || a.uid != args.uid
    case Clear(a) => a.resource != args.resource || a.uid != ""
    case Check(interval, at) => at < now + interval
    case Purge(name, lri) => name != args.resource || lri.uid != args.uid
    case _ => true
  }

  /** Such a call leaves the entry as it is. */
  lemma EntryStays(m: Locks, call: Call, args: LockArgs, e: Requester)
    requires args.resource in m && e in m[args.resource] && e.uid == args.uid && Leaves(call, args, e.timeLastCheck)
    ensures args.resource in Serve(m, call) && e in Serve(m, call)[args.resource]
  {
    var name := args.resource;
    var k :| 0 <= k < |m[name]| && m[name][k] == e;
    match call
    case Acquire(a, read, now) =>
      if a.resource == name && Granted(m, name, read) { assert Serve(m, call)[name][k] == e; }
    case Release(a, read) => SpliceKeeps(m, a.resource, a.uid, name, k);
    case Clear(_) =>
    case Ask(_) =>
    case Check(interval, at) => assert StampAll(m[name], interval, at)[k] == e;
    case Purge(n, lri) => SpliceKeeps(m, n, lri.uid, name, k);
  }

  lemma SpliceKeeps(m: Locks, name: string, uid: string, n: string, k: nat)
    requires n in m && k < |m[n]| && (name != n || m[n][k].uid != uid)
    ensures n in Remove(m, name, uid) && m[n][k] in Remove(m, name, uid)[n]
  {
    if name == n && Has(m, n, uid) {
      var f := Find(m[n], uid, 0);
      var less := m[n][..f] + m[n][f + 1..];
      assert less[if k < f then k else k - 1] == m[n][k];
    }
  }

  /**
    A granted lock that is neither released, cleared nor purged, nor found due by a pass, is asked about by the next
    pass exactly if its interval has gone by since the grant.
   */
  lemma {:induction false} GrantedFallsDue(calls: seq<Call>, args: LockArgs, read: bool, now: int, more: seq<Call>,
                                           interval: int, later: int)
    requires Granted(After(calls), args.resource, read) && forall k | 0 <= k < |more| :: Leaves(more[k], args, now)
    ensures LongLived(After(calls + [Acquire(args, read, now)] + more), interval, later, NewEntry(args, !read, now))
            <==> later >= now + interval
  {
    EntryRemains(calls, args, read, now, more);
  }

  lemma {:induction false} EntryRemains(calls: seq<Call>, args: LockArgs, read: bool, now: int, more: seq<Call>)
    requires Granted(After(calls), args.resource, read) && forall k | 0 <= k < |more| :: Leaves(more[k], args, now)
    ensures var m := After(calls + [Acquire(args, read, now)] + more);
            args.resource in m && NewEntry(args, !read, now).lri in m[args.resource]
    decreases |more|
  {
    var granted, n := calls + [Acquire(args, read, now)], |more| - 1;
    if more == [] {
      assert granted + more == granted;
      AfterOne(calls, Acquire(args, read, now));
      EntryAppears(After(calls), args, read, now);
    } else {
      assert granted + more == granted + more[..n] + [more[n]];
      EntryRemains(calls, args, read, now, more[..n]);
      AfterOne(granted + more[..n], more[n]);
      EntryStays(After(granted + more[..n]), more[n], args, NewEntry(args, !read, now).lri);
    }
  }

  lemma AfterOne(calls: seq<Call>, call: Call)
    ensures After(calls + [call]) == Serve(After(calls), call)
  {
    assert (calls + [call])[..|calls|] == calls;
  }

  lemma EntryAppears(m: Locks, args: LockArgs, read: bool, now: int)
    requires Granted(m, args.resource, read)
    ensures var m' := Serve(m, Acquire(args, read, now));
            args.resource in m' && NewEntry(args, !read, now).lri in m'[args.resource]
  {
    var lri := Serve(m, Acquire(args, read, now))[args.resource];
    assert lri[|lri| - 1] == NewEntry(args, !read, now).lri;
  }
}
