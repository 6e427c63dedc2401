/**
  Deciding at startup whether to format, wait, heal or start (cmd/prepare-storage.go), and
  why nodes that start agree on the slots of all disks.
 */
module Prepare {
  import opened Wrappers
  import opened Sets
  import opened Format
  import opened FormatLoad

  datatype InitAction =
    | FormatDisks | WaitForHeal | WaitForQuorum | WaitForAll | WaitForFormatting | WaitForConfig
    | InitObjectLayer | Abort

  type LoadErrors = seq<Option<FormatError>>

  function Times(errs: LoadErrors, k: nat, e: Option<FormatError>): (c: nat)
    requires k <= |errs|
    ensures c <= k
  {
    if k == 0 then 0 else Times(errs, k - 1, e) + (if errs[k - 1] == e then 1 else 0)
  }

  function Total(errs: LoadErrors, e: Option<FormatError>): nat {
    Times(errs, |errs|, e)
  }

  predicate BadConfig(errs: LoadErrors) {
    Some(InvalidAccessKey) in errs || Some(Authentication) in errs || Some(ServerVersionMismatch) in errs
    || Some(ServerTimeMismatch) in errs
  }

  /** The decision, from how many disks are offline, formatted, unformatted and corrupted. */
  function Decision(firstDisk: bool, offline: nat, formatted: nat, unformatted: nat, corrupted: nat,
                    n: nat): InitAction {
    var quorum := n / 2 + 1;
    if offline >= quorum then WaitForQuorum
    else if corrupted >= quorum then Abort
    else if unformatted == n then if firstDisk then FormatDisks else WaitForFormatting
    else if unformatted >= quorum then if unformatted + formatted + offline == n then WaitForAll else Abort
    else if formatted >= quorum then if formatted + offline == n then InitObjectLayer else WaitForHeal
    else WaitForQuorum
  }

  function Action(firstDisk: bool, errs: LoadErrors, n: nat): InitAction {
    if BadConfig(errs) then WaitForConfig
    else Decision(firstDisk, Total(errs, Some(DiskNotFound)), Total(errs, None), Total(errs, Some(UnformattedDisk)),
                  Total(errs, Some(CorruptedFormat)), n)
  }

  function Lookup(m: map<Option<FormatError>, nat>, e: Option<FormatError>): nat {
    if e in m then m[e] else 0
  }

  lemma {:induction false} TimesPositive(errs: LoadErrors, k: nat, e: Option<FormatError>)
    requires k <= |errs|
    ensures Times(errs, k, e) > 0 <==> e in errs[..k]
  {
    if k > 0 {
      TimesPositive(errs, k - 1, e);
      assert errs[..k] == errs[..k - 1] + [errs[k - 1]];
    }
  }

  // ------------------------------------------------------------ what the disks show

  const FORMATTED: Option<FormatError> := None
  const UNFORMATTED: Option<FormatError> := Some(UnformattedDisk)
  const OFFLINE: Option<FormatError> := Some(DiskNotFound)
  const CORRUPTED: Option<FormatError> := Some(CorruptedFormat)

  /** The disks that showed `e`, out of the first `k`. */
  function Those(errs: LoadErrors, k: nat, e: Option<FormatError>): set<nat>
    requires k <= |errs|
  {
    set i: nat | i < k && errs[i] == e
  }

  /** More than half of the disks showed `e`. */
  predicate Most(errs: LoadErrors, e: Option<FormatError>) {
    2 * |Those(errs, |errs|, e)| > |errs|
  }

  /** No disk showed anything else. */
  predicate Only(errs: LoadErrors, es: set<Option<FormatError>>) {
    forall i | 0 <= i < |errs| :: errs[i] in es
  }

  /** Some disk refused the node: its keys, its version or its clock are wrong. */
  predicate Refused(errs: LoadErrors) {
    exists i | 0 <= i < |errs| ::
      errs[i] in {Some(InvalidAccessKey), Some(Authentication), Some(ServerVersionMismatch), Some(ServerTimeMismatch)}
  }

  lemma {:induction false} TimesIsCount(errs: LoadErrors, k: nat, e: Option<FormatError>)
    requires k <= |errs|
    ensures Times(errs, k, e) == |Those(errs, k, e)|
  {
    if k > 0 {
      TimesIsCount(errs, k - 1, e);
      assert Those(errs, k, e) == Those(errs, k - 1, e) + if errs[k - 1] == e then {k - 1} else {};
    }
  }

  lemma {:induction false} TimesCover(errs: LoadErrors, k: nat)
    requires k <= |errs|
    ensures Times(errs, k, UNFORMATTED) + Times(errs, k, FORMATTED) + Times(errs, k, OFFLINE)
            + Times(errs, k, CORRUPTED) <= k
    ensures Times(errs, k, UNFORMATTED) == k <==> forall i | 0 <= i < k :: errs[i] in {UNFORMATTED}
    ensures Times(errs, k, FORMATTED) + Times(errs, k, OFFLINE) == k
            <==> forall i | 0 <= i < k :: errs[i] in {FORMATTED, OFFLINE}
    ensures Times(errs, k, UNFORMATTED) + Times(errs, k, FORMATTED) + Times(errs, k, OFFLINE) == k
            <==> forall i | 0 <= i < k :: errs[i] in {UNFORMATTED, FORMATTED, OFFLINE}
  {
    if k > 0 { TimesCover(errs, k - 1); }
  }

  lemma MostIs(errs: LoadErrors, e: Option<FormatError>)
    ensures Most(errs, e) <==> Total(errs, e) >= |errs| / 2 + 1
  {
    TimesIsCount(errs, |errs|, e);
  }

  lemma OnlyIs(errs: LoadErrors)
    ensures var n, u := |errs|, Total(errs, UNFORMATTED);
            var f, o := Total(errs, FORMATTED), Total(errs, OFFLINE);
            && u + f + o + Total(errs, CORRUPTED) <= n
            && (Only(errs, {UNFORMATTED}) <==> u == n)
            && (Only(errs, {FORMATTED, OFFLINE}) <==> f + o == n)
            && (Only(errs, {UNFORMATTED, FORMATTED, OFFLINE}) <==> u + f + o == n)
  {
    TimesCover(errs, |errs|);
  }

  lemma RefusedIsBad(errs: LoadErrors)
    ensures BadConfig(errs) <==> Refused(errs)
  {
  }

  /** When each action is taken, told from what the disks show. */
  ghost predicate Fits(action: InitAction, firstDisk: bool, errs: LoadErrors) {
    match action
    case WaitForConfig => Refused(errs)
    case FormatDisks => firstDisk && Only(errs, {UNFORMATTED})
    case WaitForFormatting => !firstDisk && Only(errs, {UNFORMATTED})
    case InitObjectLayer => !Refused(errs) && Most(errs, FORMATTED) && Only(errs, {FORMATTED, OFFLINE})
    case WaitForHeal => !Refused(errs) && Most(errs, FORMATTED) && !Only(errs, {FORMATTED, OFFLINE})
    case WaitForAll => !Refused(errs) && Most(errs, UNFORMATTED) && !Only(errs, {UNFORMATTED})
                       && Only(errs, {UNFORMATTED, FORMATTED, OFFLINE})
    case Abort => !Refused(errs) && (Most(errs, CORRUPTED)
                                     || (Most(errs, UNFORMATTED) && !Only(errs, {UNFORMATTED, FORMATTED, OFFLINE})))
    case WaitForQuorum => !Refused(errs) && !Only(errs, {UNFORMATTED}) && !Most(errs, CORRUPTED)
                          && !Most(errs, UNFORMATTED) && !Most(errs, FORMATTED)
  }

  /** The action that is taken fits, and no other does. */
  lemma ActionFits(firstDisk: bool, errs: LoadErrors, action: InitAction)
    ensures Fits(action, firstDisk, errs) <==> action == Action(firstDisk, errs, |errs|)
  {
    OnlyIs(errs);
    MostIs(errs, FORMATTED);
    MostIs(errs, UNFORMATTED);
    MostIs(errs, CORRUPTED);
    RefusedIsBad(errs);
    assert Only(errs, {UNFORMATTED}) ==> !Refused(errs);
  }

  // ------------------------------------------------------------ the decision

  /** Counts the errors by value. */
  method CountErrors(errs: LoadErrors) returns (errMap: map<Option<FormatError>, nat>)
    ensures forall e :: Lookup(errMap, e) == Total(errs, e)
  {
    errMap := map[];
    for i := 0 to |errs|
      invariant forall e :: Lookup(errMap, e) == Times(errs, i, e)
    {
      errMap := errMap[errs[i] := Lookup(errMap, errs[i]) + 1];
    }
  }

  method QuickErrToActions(errMap: map<Option<FormatError>, nat>) returns (action: InitAction)
    ensures action == if Lookup(errMap, Some(InvalidAccessKey)) > 0 || Lookup(errMap, Some(Authentication)) > 0
                         || Lookup(errMap, Some(ServerVersionMismatch)) > 0
                         || Lookup(errMap, Some(ServerTimeMismatch)) > 0
                      then WaitForConfig else FormatDisks
  {
    if Lookup(errMap, Some(InvalidAccessKey)) > 0 { return WaitForConfig; }
    if Lookup(errMap, Some(Authentication)) > 0 { return WaitForConfig; }
    if Lookup(errMap, Some(ServerVersionMismatch)) > 0 { return WaitForConfig; }
    if Lookup(errMap, Some(ServerTimeMismatch)) > 0 { return WaitForConfig; }
    return FormatDisks;
  }

  method PrepForInitXL(firstDisk: bool, errs: LoadErrors, diskCount: nat) returns (action: InitAction)
    ensures action == Action(firstDisk, errs, diskCount)
    ensures diskCount == |errs| ==> forall a :: Fits(a, firstDisk, errs) <==> a == action
  {
    if diskCount == |errs| {
      forall a ensures Fits(a, firstDisk, errs) <==> a == Action(firstDisk, errs, diskCount) {
        ActionFits(firstDisk, errs, a);
      }
    }
    var errMap := CountErrors(errs);
    var quick := QuickErrToActions(errMap);
    forall e ensures Total(errs, e) > 0 <==> e in errs {
      TimesPositive(errs, |errs|, e);
      assert errs[..|errs|] == errs;
    }
    assert (quick == WaitForConfig) == BadConfig(errs) by {
      assert Lookup(errMap, Some(InvalidAccessKey)) == Total(errs, Some(InvalidAccessKey));
      assert Lookup(errMap, Some(Authentication)) == Total(errs, Some(Authentication));
      assert Lookup(errMap, Some(ServerVersionMismatch)) == Total(errs, Some(ServerVersionMismatch));
      assert Lookup(errMap, Some(ServerTimeMismatch)) == Total(errs, Some(ServerTimeMismatch));
    }
    if quick == WaitForConfig { return WaitForConfig; }
    var quorum := diskCount / 2 + 1;
    var offline, formatted := Lookup(errMap, Some(DiskNotFound)), Lookup(errMap, None);
    var unformatted, corrupted := Lookup(errMap, Some(UnformattedDisk)), Lookup(errMap, Some(CorruptedFormat));
    if offline >= quorum { return WaitForQuorum; }
    if corrupted >= quorum { return Abort; }
    if unformatted == diskCount {
      if firstDisk { return FormatDisks; }
      return WaitForFormatting;
    }
    if unformatted >= quorum {
      if unformatted + formatted + offline == diskCount { return WaitForAll; }
      return Abort;
    }
    if formatted >= quorum {
      if formatted + offline == diskCount { return InitObjectLayer; }
      return WaitForHeal;
    }
    return WaitForQuorum;
  }

  // ------------------------------------------------------------ the generic check

  predicate Online(e: Option<FormatError>) {
    e.None? || e == Some(UnformattedDisk) || e == Some(VolumeNotFound)
  }

  function Unexpected(errs: LoadErrors, k: nat): nat
    requires k <= |errs|
  {
    if k == 0 then 0
    else Unexpected(errs, k - 1) + (if !Online(errs[k - 1]) && errs[k - 1] != Some(CorruptedFormat) then 1 else 0)
  }

  /** The disks that are not online and not corrupted either. */
  function Astray(errs: LoadErrors, k: nat): set<nat>
    requires k <= |errs|
  {
    set i: nat | i < k && errs[i] !in {FORMATTED, UNFORMATTED, Some(VolumeNotFound), CORRUPTED}
  }

  lemma {:induction false} UnexpectedIsCount(errs: LoadErrors, k: nat)
    requires k <= |errs|
    ensures Unexpected(errs, k) == |Astray(errs, k)|
  {
    if k > 0 {
      UnexpectedIsCount(errs, k - 1);
      var last := {FORMATTED, UNFORMATTED, Some(VolumeNotFound), CORRUPTED};
      assert Astray(errs, k) == Astray(errs, k - 1) + if errs[k - 1] !in last then {k - 1} else {};
    }
  }

  method GenericFormatCheckXL(fs: Formats, errs: LoadErrors) returns (err: Option<FormatError>)
    ensures err.None? <==> && |Astray(errs, |errs|)| <= |fs| - |fs| / 2
                           && |Those(errs, |errs|, CORRUPTED)| <= |fs| - |fs| / 2 && Consistent(fs)
    ensures err.None? <==> && Unexpected(errs, |errs|) <= |fs| - |fs| / 2
                           && Total(errs, Some(CorruptedFormat)) <= |fs| - |fs| / 2
                                     && Consistent(fs)
  {
    UnexpectedIsCount(errs, |errs|);
    TimesIsCount(errs, |errs|, CORRUPTED);
    var corrupted, unexpected := 0, 0;
    for i := 0 to |errs|
      invariant unexpected == Unexpected(errs, i) && corrupted == Times(errs, i, Some(CorruptedFormat))
    {
      if !Online(errs[i]) {
        if errs[i] == Some(CorruptedFormat) { corrupted := corrupted + 1; } else { unexpected := unexpected + 1; }
      }
    }
    var readQuorum := |fs| / 2;
    if unexpected > |fs| - readQuorum { return Some(ReadQuorum); }
    if corrupted > |fs| - readQuorum { return Some(CorruptedFormat); }
    err := CheckFormatXL(fs);
  }

  // ------------------------------------------------------------ one round, and the retry loop

  function ErrorsOf(w: World, b: Disks): (errs: LoadErrors)
    ensures |errs| == |b| && forall i | 0 <= i < |b| :: errs[i] == if Load(w, b[i]).Ok? then None
            else Some(Load(w, b[i]).error)
  {
    seq(|b|, i requires 0 <= i < |b| => if Load(w, b[i]).Ok? then None else Some(Load(w, b[i]).error))
  }

  method LoadAllFormats(w: World, b: Disks) returns (fs: Formats, errs: LoadErrors)
    ensures fs == FormatsOf(w, b) && errs == ErrorsOf(w, b)
  {
    fs, errs := seq(|b|, _ => None), seq(|b|, _ => None);
    for i := 0 to |b|
      invariant |fs| == |b| && forall k | 0 <= k < |b| :: fs[k] == if k < i then FormatAt(w, b[k]) else None
      invariant |errs| == |b| && forall k | 0 <= k < |b| :: errs[k] == if k < i then ErrorsOf(w, b)[k] else None
    {
      var r := Load(w, b[i]);
      if r.Ok? { fs := fs[i := Some(r.value)]; } else { errs := errs[i := Some(r.error)]; }
    }
  }

  /** What a round of the retry loop ends with; `Again` sends it into the next one. */
  datatype Verdict = Again | Failed | Format | Start | Heal

  ghost predicate PassesGeneric(fs: Formats, errs: LoadErrors) {
    Unexpected(errs, |errs|) <= |fs| - |fs| / 2 && Total(errs, Some(CorruptedFormat)) <= |fs| - |fs| / 2
    && Consistent(fs)
  }

  ghost function VerdictOf(firstDisk: bool, w: World, b: Disks): Verdict {
    Outcome(Action(firstDisk, ErrorsOf(w, b), |b|), FormatsOf(w, b), ErrorsOf(w, b))
  }

  ghost function Outcome(action: InitAction, fs: Formats, errs: LoadErrors): Verdict {
    if !ValuesOk(fs) then Failed
    else match action
         case Abort => Failed
         case FormatDisks => Format
         case InitObjectLayer => if PassesGeneric(fs, errs) then Start else Failed
         case WaitForHeal => if PassesGeneric(fs, errs) then Heal else Failed
         case _ => Again
  }

  lemma {:induction false} UnexpectedIsFew(errs: LoadErrors, k: nat)
    requires k <= |errs|
    ensures Unexpected(errs, k) + Times(errs, k, CORRUPTED) + Times(errs, k, FORMATTED) <= k
  {
    if k > 0 { UnexpectedIsFew(errs, k - 1); }
  }

  /** Once most disks are formatted, the generic check is about nothing but the formats. */
  lemma GenericIsConsistent(fs: Formats, errs: LoadErrors)
    requires |fs| == |errs| && Most(errs, FORMATTED)
    ensures PassesGeneric(fs, errs) <==> Consistent(fs)
  {
    TimesIsCount(errs, |errs|, FORMATTED);
    UnexpectedIsFew(errs, |errs|);
  }

  /** When a round ends in which way, told from what the disks show. */
  ghost predicate Ends(v: Verdict, firstDisk: bool, fs: Formats, errs: LoadErrors) {
    match v
    case Format => firstDisk && Only(errs, {UNFORMATTED})
    case Start => !Refused(errs) && Most(errs, FORMATTED) && Only(errs, {FORMATTED, OFFLINE}) && Consistent(fs)
    case Heal => !Refused(errs) && Most(errs, FORMATTED) && !Only(errs, {FORMATTED, OFFLINE}) && Consistent(fs)
    case Failed =>
      || !ValuesOk(fs)
      || (!Refused(errs) && (|| Most(errs, CORRUPTED)
                             || (Most(errs, UNFORMATTED) && !Only(errs, {UNFORMATTED, FORMATTED, OFFLINE}))
                             || (Most(errs, FORMATTED) && !Consistent(fs))))
    case Again =>
      && ValuesOk(fs)
      && (|| Refused(errs)
          || (!firstDisk && Only(errs, {UNFORMATTED}))
          || (Most(errs, UNFORMATTED) && !Only(errs, {UNFORMATTED}) && Only(errs, {UNFORMATTED, FORMATTED, OFFLINE}))
          || (!Only(errs, {UNFORMATTED}) && !Most(errs, CORRUPTED) && !Most(errs, UNFORMATTED)
              && !Most(errs, FORMATTED)))
  }

  lemma OutcomeEnds(action: InitAction, firstDisk: bool, fs: Formats, errs: LoadErrors)
    requires Fits(action, firstDisk, errs)
    requires Only(errs, {UNFORMATTED}) ==> ValuesOk(fs)
    requires Most(errs, FORMATTED) ==> (PassesGeneric(fs, errs) <==> Consistent(fs))
    ensures Ends(Outcome(action, fs, errs), firstDisk, fs, errs)
  {
  }

  lemma UnformattedHasNone(w: World, b: Disks)
    requires Only(ErrorsOf(w, b), {UNFORMATTED})
    ensures ValuesOk(FormatsOf(w, b))
  {
    forall i | 0 <= i < |b| ensures FormatsOf(w, b)[i].None? { assert ErrorsOf(w, b)[i] == UNFORMATTED; }
  }

  lemma MostIsOne(errs: LoadErrors)
    ensures Most(errs, FORMATTED) ==> !Most(errs, UNFORMATTED) && !Most(errs, CORRUPTED) && !Only(errs, {UNFORMATTED})
    ensures Most(errs, UNFORMATTED) ==> !Most(errs, CORRUPTED)
    ensures Only(errs, {UNFORMATTED}) ==>
              !Refused(errs) && !Most(errs, CORRUPTED) && Only(errs, {UNFORMATTED, FORMATTED, OFFLINE})
  {
    TimesCover(errs, |errs|);
    TimesIsCount(errs, |errs|, FORMATTED);
    TimesIsCount(errs, |errs|, UNFORMATTED);
    TimesIsCount(errs, |errs|, CORRUPTED);
  }

  /** One round can end in one way only. */
  lemma EndsOnce(v: Verdict, u: Verdict, firstDisk: bool, fs: Formats, errs: LoadErrors)
    requires Ends(v, firstDisk, fs, errs) && Ends(u, firstDisk, fs, errs)
    requires Only(errs, {UNFORMATTED}) ==> ValuesOk(fs)
    ensures v == u
  {
    MostIsOne(errs);
  }

  /** A round ends in each way exactly when said there. */
  lemma VerdictExactly(firstDisk: bool, w: World, b: Disks, v: Verdict)
    ensures v == VerdictOf(firstDisk, w, b) <==> Ends(v, firstDisk, FormatsOf(w, b), ErrorsOf(w, b))
  {
    var fs, errs := FormatsOf(w, b), ErrorsOf(w, b);
    ActionFits(firstDisk, errs, Action(firstDisk, errs, |b|));
    if Only(errs, {UNFORMATTED}) { UnformattedHasNone(w, b); }
    if Most(errs, FORMATTED) { GenericIsConsistent(fs, errs); }
    OutcomeEnds(Action(firstDisk, errs, |b|), firstDisk, fs, errs);
    if Ends(v, firstDisk, fs, errs) { EndsOnce(v, VerdictOf(firstDisk, w, b), firstDisk, fs, errs); }
  }

  method Round(firstDisk: bool, w: World, b: Disks) returns (v: Verdict)
    ensures v == VerdictOf(firstDisk, w, b)
  {
    var fs, errs := LoadAllFormats(w, b);
    var bad := CheckFormatXLValues(fs);
    if bad.Some? { return Failed; }
    var action := PrepForInitXL(firstDisk, errs, |b|);
    match action
    case Abort => v := Failed;
    case FormatDisks => v := Format;
    case InitObjectLayer =>
      var err := GenericFormatCheckXL(fs, errs);
      v := if err.None? then Start else Failed;
    case WaitForHeal =>
      var err := GenericFormatCheckXL(fs, errs);
      v := if err.None? then Heal else Failed;
    case _ => v := Again;
  }

  /**
    Rounds over the disks as they are seen from one retry to the next; `Again` if the server is
    stopped before one settles.
   */
  method RetryFormattingXLDisks(firstDisk: bool, b: Disks, rounds: seq<World>) returns (v: Verdict, settled: nat)
    ensures settled <= |rounds| && forall i | 0 <= i < settled :: VerdictOf(firstDisk, rounds[i], b) == Again
    ensures if settled < |rounds| then v == VerdictOf(firstDisk, rounds[settled], b) != Again else v == Again
    ensures v == Format <==>
              firstDisk && settled < |rounds| && Only(ErrorsOf(rounds[settled], b), {UNFORMATTED})
  {
    settled := 0;
    v := Again;
    while settled < |rounds|
      invariant settled <= |rounds| && forall i | 0 <= i < settled :: VerdictOf(firstDisk, rounds[i], b) == Again
      invariant v == Again
    {
      v := Round(firstDisk, rounds[settled], b);
      if v != Again {
        VerdictExactly(firstDisk, rounds[settled], b, Format);
        return;
      }
      settled := settled + 1;
    }
  }

  // ------------------------------------------------------------ nodes agree

  /** The disks whose format a node read. */
  function Seen(w: World, b: Disks, k: nat): set<DiskId>
    requires k <= |b|
  {
    if k == 0 then {} else if Load(w, b[k - 1]).Ok? then Seen(w, b, k - 1) + {b[k - 1].value} else Seen(w, b, k - 1)
  }

  lemma {:induction false} SeenAt(w: World, b: Disks, k: nat, d: DiskId) returns (i: nat)
    requires k <= |b| && d in Seen(w, b, k)
    ensures i < k && b[i] == Some(d) && Load(w, b[i]).Ok?
  {
    if Load(w, b[k - 1]).Ok? && b[k - 1] == Some(d) { return k - 1; }
    i := SeenAt(w, b, k - 1, d);
  }

  lemma {:induction false} SeenCount(w: World, b: Disks, k: nat)
    requires k <= |b| && DistinctDisks(b)
    ensures |Seen(w, b, k)| == Times(ErrorsOf(w, b), k, None)
  {
    if k > 0 {
      SeenCount(w, b, k - 1);
      if Load(w, b[k - 1]).Ok? && b[k - 1].value in Seen(w, b, k - 1) {
        var i := SeenAt(w, b, k - 1, b[k - 1].value);
        assert false;
      }
    }
  }

  function Ids(b: Disks, k: nat): (s: set<DiskId>)
    requires k <= |b|
    ensures |s| <= k && forall i | 0 <= i < k && b[i].Some? :: b[i].value in s
  {
    if k == 0 then {} else Ids(b, k - 1) + (if b[k - 1].Some? then {b[k - 1].value} else {})
  }

  /** The round ended with a start, or a start with disks to heal. */
  ghost predicate Settled(firstDisk: bool, w: World, b: Disks) {
    VerdictOf(firstDisk, w, b) == Start || VerdictOf(firstDisk, w, b) == Heal
  }

  lemma ActionNeedsMajority(firstDisk: bool, errs: LoadErrors, n: nat)
    requires Action(firstDisk, errs, n) == InitObjectLayer || Action(firstDisk, errs, n) == WaitForHeal
    ensures Total(errs, None) > n / 2
  {
  }

  lemma SettledIsConsistent(firstDisk: bool, w: World, b: Disks)
    requires Settled(firstDisk, w, b)
    ensures Total(ErrorsOf(w, b), None) > |b| / 2 && Consistent(FormatsOf(w, b))
  {
    ActionNeedsMajority(firstDisk, ErrorsOf(w, b), |b|);
  }

  /** A node starts or heals only after it read the formats of a majority. */
  lemma SettledSawMajority(firstDisk: bool, w: World, b: Disks)
    requires DistinctDisks(b) && Settled(firstDisk, w, b)
    ensures |Seen(w, b, |b|)| > |b| / 2
  {
    SettledIsConsistent(firstDisk, w, b);
    SeenCount(w, b, |b|);
  }

  /** Two nodes list the same disks, and a disk that both can reach shows both the same format. */
  ghost predicate SameDisks(w1: World, b1: Disks, w2: World, b2: Disks) {
    && |b1| == |b2| && DistinctDisks(b1) && DistinctDisks(b2) && (forall d :: Some(d) in b1 <==> Some(d) in b2)
    && forall d | d in w1 && d in w2 :: LoadFormat(w1[d]) == LoadFormat(w2[d])
  }

  lemma SeenInIds(w: World, b: Disks, c: Disks)
    requires forall d :: Some(d) in b ==> Some(d) in c
    ensures Seen(w, b, |b|) <= Ids(c, |c|)
  {
    forall d | d in Seen(w, b, |b|) ensures d in Ids(c, |c|) {
      var i := SeenAt(w, b, |b|, d);
      assert Some(d) in b;
      var k :| 0 <= k < |c| && c[k] == Some(d);
    }
  }

  /** Majorities meet: some disk was read by both. */
  lemma BothSaw(f1: bool, w1: World, b1: Disks, f2: bool, w2: World, b2: Disks) returns (i: nat, k: nat)
    requires SameDisks(w1, b1, w2, b2) && Settled(f1, w1, b1) && Settled(f2, w2, b2)
    ensures i < |b1| && k < |b2| && b1[i] == b2[k] && Load(w1, b1[i]).Ok? && Load(w2, b2[k]).Ok?
  {
    SettledSawMajority(f1, w1, b1);
    SettledSawMajority(f2, w2, b2);
    SeenInIds(w1, b1, b1);
    SeenInIds(w2, b2, b1);
    var d := Meet(Ids(b1, |b1|), Seen(w1, b1, |b1|), Seen(w2, b2, |b2|));
    i := SeenAt(w1, b1, |b1|, d);
    k := SeenAt(w2, b2, |b2|, d);
  }

  lemma SameFormat(w1: World, b1: Disks, w2: World, b2: Disks, i: nat, k: nat)
    requires SameDisks(w1, b1, w2, b2) && i < |b1| && k < |b2| && b1[i] == b2[k] && Load(w1, b1[i]).Ok?
             && Load(w2, b2[k]).Ok?
    ensures FormatsOf(w1, b1)[i] == FormatsOf(w2, b2)[k] && FormatsOf(w1, b1)[i].Some?
  {
  }

  /** Both go by one list of disks. */
  lemma SameList(f1: bool, w1: World, b1: Disks, f2: bool, w2: World, b2: Disks)
    requires SameDisks(w1, b1, w2, b2) && Settled(f1, w1, b1) && Settled(f2, w2, b2)
    ensures SavedJbod(FormatsOf(w1, b1)) == SavedJbod(FormatsOf(w2, b2))
  {
    var i, k := BothSaw(f1, w1, b1, f2, w2, b2);
    SameFormat(w1, b1, w2, b2, i, k);
    SettledIsConsistent(f1, w1, b1);
    SettledIsConsistent(f2, w2, b2);
    SavedIsSome(FormatsOf(w1, b1), i);
    SavedIsSome(FormatsOf(w2, b2), k);
  }

  /** Every disk that both nodes read gets one slot: the same for both. */
  lemma NodesAgree(f1: bool, w1: World, b1: Disks, f2: bool, w2: World, b2: Disks, i: nat, k: nat) returns (j: nat)
    requires SameDisks(w1, b1, w2, b2) && Settled(f1, w1, b1) && Settled(f2, w2, b2)
    requires Recognized(FormatsOf(w1, b1)) && Recognized(FormatsOf(w2, b2))
    requires DistinctUuids(FormatsOf(w1, b1)) && DistinctUuids(FormatsOf(w2, b2))
    requires i < |b1| && k < |b2| && b1[i] == b2[k] && Load(w1, b1[i]).Ok? && Load(w2, b2[k]).Ok?
    ensures j < |b1| && Slots(w1, b1)[j] == b1[i] && Slots(w2, b2)[j] == b1[i]
  {
    SameList(f1, w1, b1, f2, w2, b2);
    SameFormat(w1, b1, w2, b2, i, k);
    SettledIsConsistent(f1, w1, b1);
    SettledIsConsistent(f2, w2, b2);
    EachInItsSlot(b1, FormatsOf(w1, b1), i);
    EachInItsSlot(b2, FormatsOf(w2, b2), k);
    j := Index(SavedJbod(FormatsOf(w1, b1)), FormatsOf(w1, b1)[i].value.disk);
  }
}
