/**
  Whole multipart uploads: parts uploaded, and uploaded again, while inputs for the background
  appender are on their way, and completions that deliver the object or are refused
  (cmd/fs-v1-multipart.go, cmd/fs-v1-background-append.go).
 */
module UploadRuns {
  import opened Wrappers
  import opened PartList
  import opened BackgroundAppend

  /**
    An input on its way, with the list of parts at that time. Until it is answered the number
    `lock` cannot be uploaded again.
   */
  datatype Msg = Msg(lock: int, meta: seq<Part>)

  /**
    `info` and `files` are the parts as uploaded last, `seen` all that were uploaded; `base` is
    what the append file held when the running appender started, or was removed last; `result`
    is what a completion delivered.
   */
  datatype Upload = Upload(info: map<int, Part>, files: Files, seen: Seen, pending: set<Msg>,
                           running: bool, appender: Appender, base: Bytes, result: Option<Bytes>)

  /** `fails`: an I/O error keeps the completion from putting the object into its place. */
  datatype Step =
    | Put(p: Part, data: Bytes, meta: seq<Part>)
    | Take(msg: Msg, faults: set<int>)
    | Finish(meta: seq<Part>, parts: seq<CompletePart>, faults: set<int>, fails: bool)
    | Drop

  const NEW := Upload(map[], map[], map[], {}, false, Appender([], []), [], None)

  /** The list of all parts, in order. */
  ghost predicate Lists(info: map<int, Part>, meta: seq<Part>) {
    && InOrder(meta)
    && (forall i | 0 <= i < |meta| :: meta[i].number in info && info[meta[i].number] == meta[i])
    && forall n | n in info :: info[n] in meta
  }

  /**
    A part is one number, etag and size; equal etags mean equal bytes. A request that lists no
    parts is refused before. The upload ends with its object.
   */
  ghost predicate Enabled(u: Upload, step: Step) {
    && u.result.None?
    && match step
       case Put(p, data, meta) =>
         && (forall msg | msg in u.pending :: msg.lock != p.number) && (p in u.seen ==> u.seen[p] == data)
         && Lists(u.info[p.number := p], meta)
       case Take(msg, _) => u.running && msg in u.pending
       case Finish(meta, parts, _, _) => Lists(u.info, meta) && parts != []
       case Drop => true
  }

  /** With an appender: the running one, or a new one, which takes the append file as it is. */
  function Started(u: Upload): Upload {
    if u.running then u else u.(running := true, appender := Appender([], u.appender.file), base := u.appender.file)
  }

  function Worked(u: Upload, meta: seq<Part>, faults: set<int>): Upload {
    var b := Work(meta, u.files, faults, u.appender).0;
    u.(appender := b, base := if b == Appender([], []) then [] else u.base)
  }

  /** A completion asks the appender only about all parts, and ends it. */
  predicate Asks(u: Upload, meta: seq<Part>, parts: seq<CompletePart>) {
    u.running && Same(meta, parts)
  }

  /** "All appended": the append file is to become the object. */
  predicate Appended(u: Upload, meta: seq<Part>, parts: seq<CompletePart>, faults: set<int>) {
    Asks(u, meta, parts) && Work(meta, u.files, faults, u.appender).1.None?
  }

  /** The fallback has nothing against the request. */
  predicate Accepted(u: Upload, meta: seq<Part>, parts: seq<CompletePart>) {
    forall i | 0 <= i < |parts| :: Refusal(u.files, meta, parts, i).None?
  }

  /** The object, if the completion delivers one: the append file, or what the fallback assembles. */
  function Delivered(u: Upload, meta: seq<Part>, parts: seq<CompletePart>, faults: set<int>,
                     fails: bool): Option<Bytes> {
    if fails then None
    else if Appended(u, meta, parts, faults) then Some(Work(meta, u.files, faults, u.appender).0.file)
    else if Accepted(u, meta, parts) then
      AcceptedHasFiles(u, meta, parts);
      Some(Requested(u.files, parts, |parts|))
    else None
  }

  lemma AcceptedHasFiles(u: Upload, meta: seq<Part>, parts: seq<CompletePart>)
    requires Accepted(u, meta, parts)
    ensures forall i | 0 <= i < |parts| :: parts[i].number in u.files
  {
    forall i | 0 <= i < |parts| ensures parts[i].number in u.files { assert Refusal(u.files, meta, parts, i).None?; }
  }

  /** `Drop` ends the appender when the upload is aborted or idle for too long. */
  function Do(u: Upload, step: Step): Upload {
    match step
    case Put(p, data, meta) =>
      Started(u).(info := u.info[p.number := p], files := u.files[p.number := data], seen := u.seen[p := data],
                  pending := u.pending + {Msg(p.number, meta)})
    case Take(msg, faults) => Worked(u, msg.meta, faults).(pending := u.pending - {msg})
    case Finish(meta, parts, faults, fails) =>
      var v := if Asks(u, meta, parts) then Worked(u, meta, faults).(running := false, pending := {}) else u;
      v.(result := Delivered(u, meta, parts, faults, fails))
    case Drop => if u.running then u.(running := false, appender := u.appender.(file := []), pending := {}) else u
  }

  /**
    No part gets other bytes while an input is on its way that lists it, and all numbers below
    it, as it was.
   */
  ghost predicate Steady(u: Upload, step: Step) {
    step.Put? ==> forall msg | msg in u.pending && Reaches(msg.meta, 0, step.p.number) ::
                    PartAt(msg.meta, step.p.number) in u.seen ==> u.seen[PartAt(msg.meta, step.p.number)] == step.data
  }

  /** The upload after some steps. */
  ghost function After(u: Upload, steps: seq<Step>): Upload {
    if steps == [] then u else Do(After(u, steps[..|steps| - 1]), steps[|steps| - 1])
  }

  /** The steps are possible one after the other; if `steady`, no part is replaced as described. */
  ghost predicate Run(steady: bool, u: Upload, steps: seq<Step>) {
    steps == [] || (var v := After(u, steps[..|steps| - 1]);
                    && Run(steady, u, steps[..|steps| - 1])
                    && Enabled(v, steps[|steps| - 1]) && (steady ==> Steady(v, steps[|steps| - 1])))
  }

  // ------------------------------------------------------------ what holds in every run

  function Numbers(meta: seq<Part>): set<int> {
    set i | 0 <= i < |meta| :: meta[i].number
  }

  lemma ListedIsNumber(meta: seq<Part>, n: int)
    ensures Listed(meta, n) <==> n in Numbers(meta)
  {
    if n in Numbers(meta) {
      var i :| 0 <= i < |meta| && meta[i].number == n;
    }
  }

  /** The files are those of the parts uploaded last. */
  ghost predicate Stored(u: Upload) {
    && u.info.Keys == u.files.Keys
    && (forall n | n in u.info :: u.info[n].number == n && u.info[n] in u.seen && u.seen[u.info[n]] == u.files[n])
    && forall p | p in u.seen :: p.number in u.info
  }

  /** Inputs list parts that were uploaded; of two of them the later one lists the numbers of the earlier one. */
  ghost predicate InputsOk(u: Upload) {
    && (u.running || u.pending == {})
    && (forall msg | msg in u.pending :: msg.lock in u.info && InOrder(msg.meta) && AllSeen(u.seen, msg.meta))
    && forall a, b | a in u.pending && b in u.pending ::
         Numbers(a.meta) <= Numbers(b.meta) || Numbers(b.meta) <= Numbers(a.meta)
  }

  /** An input that lacks a number that is appended already has nothing to append. */
  ghost predicate Blocked(meta: seq<Part>, k: nat) {
    (exists g :: 1 <= g <= k && !Listed(meta, g)) ==> !Listed(meta, k + 1)
  }

  ghost predicate Shape(u: Upload) {
    && Stored(u) && InputsOk(u)
    && (u.running ==> Numbered(u.appender.parts) && AllSeen(u.seen, u.appender.parts))
    && forall msg | msg in u.pending :: Blocked(msg.meta, |u.appender.parts|)
  }

  /** A listing has every number there is. */
  lemma ListingHas(info: map<int, Part>, meta: seq<Part>, n: int)
    requires Lists(info, meta) && forall m | m in info :: info[m].number == m
    ensures n in info <==> n in Numbers(meta)
    ensures n in info ==> Listed(meta, n) && PartAt(meta, n) == info[n]
  {
    ListedIsNumber(meta, n);
    if n in info {
      var i :| 0 <= i < |meta| && meta[i] == info[n];
      FoundAt(meta, i, 0);
    }
  }

  lemma ListingNumbers(info: map<int, Part>, meta: seq<Part>)
    requires Lists(info, meta) && forall m | m in info :: info[m].number == m
    ensures Numbers(meta) == info.Keys
  {
    forall n ensures n in Numbers(meta) <==> n in info { ListingHas(info, meta, n); }
  }

  lemma InputNumbers(u: Upload, msg: Msg)
    requires Stored(u) && AllSeen(u.seen, msg.meta)
    ensures Numbers(msg.meta) <= u.info.Keys
  {
  }

  lemma PutStored(u: Upload, p: Part, data: Bytes, meta: seq<Part>)
    requires Stored(u) && Enabled(u, Put(p, data, meta))
    ensures Stored(Do(u, Put(p, data, meta)))
  {
  }

  /** The new input lists all numbers. */
  lemma PutChain(u: Upload, p: Part, data: Bytes, meta: seq<Part>, msg: Msg)
    requires Shape(u) && Enabled(u, Put(p, data, meta)) && msg in u.pending
    ensures Numbers(msg.meta) <= Numbers(meta)
  {
    var v := Do(u, Put(p, data, meta));
    PutStored(u, p, data, meta);
    ListingNumbers(v.info, meta);
    InputNumbers(u, msg);
  }

  lemma PutInputs(u: Upload, p: Part, data: Bytes, meta: seq<Part>)
    requires Shape(u) && Enabled(u, Put(p, data, meta))
    ensures InputsOk(Do(u, Put(p, data, meta)))
  {
    forall msg | msg in u.pending ensures Numbers(msg.meta) <= Numbers(meta) { PutChain(u, p, data, meta, msg); }
  }

  /** A list of all parts lacks no number that is appended. */
  lemma ListingIsBlocked(v: Upload, meta: seq<Part>)
    requires Stored(v) && Lists(v.info, meta) && Numbered(v.appender.parts) && AllSeen(v.seen, v.appender.parts)
    ensures Blocked(meta, |v.appender.parts|)
  {
    forall g | 1 <= g <= |v.appender.parts| ensures Listed(meta, g) {
      assert v.appender.parts[g - 1] in v.seen;
      ListingHas(v.info, meta, g);
    }
  }

  lemma PutShape(u: Upload, p: Part, data: Bytes, meta: seq<Part>)
    requires Shape(u) && Enabled(u, Put(p, data, meta))
    ensures Shape(Do(u, Put(p, data, meta)))
  {
    PutStored(u, p, data, meta);
    PutInputs(u, p, data, meta);
    ListingIsBlocked(Do(u, Put(p, data, meta)), meta);
  }

  /** Taking one input does not make another one append what it lacks. */
  lemma StillBlocked(taken: seq<Part>, meta: seq<Part>, a: Appender, b: Appender)
    requires Numbers(taken) <= Numbers(meta) || Numbers(meta) <= Numbers(taken)
    requires Blocked(meta, |a.parts|) && Grown(taken, a, b)
    ensures Blocked(meta, |b.parts|)
  {
    ListedIsNumber(meta, |b.parts| + 1);
    ListedIsNumber(taken, |b.parts| + 1);
    ListedIsNumber(meta, |a.parts| + 1);
    ListedIsNumber(taken, |a.parts| + 1);
    if g :| 1 <= g <= |b.parts| && !Listed(meta, g) {
      ListedIsNumber(meta, g);
      ListedIsNumber(taken, g);
    }
  }

  lemma WorkedShape(u: Upload, meta: seq<Part>, faults: set<int>)
    requires Shape(u) && u.running && AllSeen(u.seen, meta)
    ensures var b := Work(meta, u.files, faults, u.appender).0; Numbered(b.parts) && AllSeen(u.seen, b.parts)
  {
    WorkGrows(meta, u.files, faults, u.appender);
    var b := Work(meta, u.files, faults, u.appender).0;
    if Grown(meta, u.appender, b) {
      forall i | 0 <= i < |b.parts| ensures b.parts[i] in u.seen {
        if i < |u.appender.parts| {
          assert b.parts[i] == u.appender.parts[i];
        } else {
          assert b.parts[i] == PartAt(meta, i + 1);
        }
      }
    }
  }

  lemma TakeShape(u: Upload, msg: Msg, faults: set<int>)
    requires Shape(u) && Enabled(u, Take(msg, faults))
    ensures Shape(Do(u, Take(msg, faults)))
  {
    WorkedShape(u, msg.meta, faults);
    WorkGrows(msg.meta, u.files, faults, u.appender);
    var b := Work(msg.meta, u.files, faults, u.appender).0;
    forall m | m in u.pending ensures Blocked(m.meta, |b.parts|) {
      if Grown(msg.meta, u.appender, b) { StillBlocked(msg.meta, m.meta, u.appender, b); }
    }
  }

  lemma StepShape(u: Upload, step: Step)
    requires Shape(u) && Enabled(u, step)
    ensures Shape(Do(u, step))
  {
    match step
    case Put(p, data, meta) => PutShape(u, p, data, meta);
    case Take(msg, faults) => TakeShape(u, msg, faults);
    case Finish(_, _, _, _) =>
    case Drop =>
  }

  lemma {:induction false} RunShape(steady: bool, u: Upload, steps: seq<Step>)
    requires Shape(u) && Run(steady, u, steps)
    ensures Shape(After(u, steps))
  {
    if steps != [] {
      RunShape(steady, u, steps[..|steps| - 1]);
      StepShape(After(u, steps[..|steps| - 1]), steps[|steps| - 1]);
    }
  }

  // ------------------------------------------------------------ the append file in every steady run

  ghost predicate Inv(u: Upload) {
    && Shape(u) && (forall msg | msg in u.pending :: Current(u.files, u.seen, msg.meta, 0))
    && (u.running ==> Holds(u.seen, u.base, u.appender))
  }

  /** What an input gets to from where the appender stands is among what it gets to from nothing. */
  lemma CurrentHere(u: Upload, msg: Msg)
    requires Inv(u) && msg in u.pending
    ensures Current(u.files, u.seen, msg.meta, |u.appender.parts|)
  {
    var k := |u.appender.parts|;
    forall n | Reaches(msg.meta, k, n) ensures Reaches(msg.meta, 0, n) {
      assert Blocked(msg.meta, k) && Listed(msg.meta, k + 1);
    }
  }

  /** The list of all parts is current. */
  lemma ListingIsCurrent(u: Upload, meta: seq<Part>, k: nat)
    requires Stored(u) && Lists(u.info, meta)
    ensures Current(u.files, u.seen, meta, k)
  {
    forall n | Reaches(meta, k, n) && n in u.files
      ensures PartAt(meta, n) in u.seen && u.files[n] == u.seen[PartAt(meta, n)]
    {
      ListingHas(u.info, meta, n);
    }
  }

  lemma {:induction false} SeenMore(seen: Seen, p: Part, data: Bytes, parts: seq<Part>)
    requires AllSeen(seen, parts) && (p in seen ==> seen[p] == data)
    ensures AllSeen(seen[p := data], parts) && Joined(seen[p := data], parts) == Joined(seen, parts)
  {
    if parts != [] { SeenMore(seen, p, data, parts[..|parts| - 1]); }
  }

  /** An input that was current stays so if no part it gets to is replaced. */
  lemma StaysCurrent(u: Upload, p: Part, data: Bytes, meta: seq<Part>, msg: Msg)
    requires Inv(u) && msg in u.pending && Enabled(u, Put(p, data, meta)) && Steady(u, Put(p, data, meta))
    ensures Current(u.files[p.number := data], u.seen[p := data], msg.meta, 0)
  {
    forall n | Reaches(msg.meta, 0, n) && n in u.files[p.number := data]
      ensures PartAt(msg.meta, n) in u.seen && u.files[p.number := data][n] == u.seen[PartAt(msg.meta, n)]
    {
      assert PartAt(msg.meta, n) in msg.meta;
    }
  }

  lemma PutKeeps(u: Upload, p: Part, data: Bytes, meta: seq<Part>)
    requires Enabled(u, Put(p, data, meta)) && Steady(u, Put(p, data, meta)) && Inv(u)
    ensures Inv(Do(u, Put(p, data, meta)))
  {
    var v := Do(u, Put(p, data, meta));
    PutShape(u, p, data, meta);
    SeenMore(u.seen, p, data, v.appender.parts);
    forall msg | msg in v.pending ensures Current(v.files, v.seen, msg.meta, 0) {
      if msg in u.pending { StaysCurrent(u, p, data, meta, msg); } else { ListingIsCurrent(v, meta, 0); }
    }
  }

  lemma WorkedHolds(u: Upload, meta: seq<Part>, faults: set<int>)
    requires Holds(u.seen, u.base, u.appender) && Current(u.files, u.seen, meta, |u.appender.parts|)
    ensures Holds(u.seen, Worked(u, meta, faults).base, Worked(u, meta, faults).appender)
  {
    WorkHolds(meta, u.files, u.seen, faults, u.base, u.appender);
  }

  lemma StepKeeps(u: Upload, step: Step)
    requires Enabled(u, step) && Steady(u, step) && Inv(u)
    ensures Inv(Do(u, step))
  {
    match step
    case Put(p, data, meta) => PutKeeps(u, p, data, meta);
    case Take(msg, faults) =>
      TakeShape(u, msg, faults);
      CurrentHere(u, msg);
      WorkedHolds(u, msg.meta, faults);
    case Finish(_, _, _, _) =>
    case Drop =>
  }

  /**
    In every steady run, whatever inputs are taken in whatever order and whichever appends and
    completions fail, the append file is in order.
   */
  lemma {:induction false} AlwaysInOrder(u: Upload, steps: seq<Step>)
    requires Inv(u) && Run(true, u, steps)
    ensures Inv(After(u, steps))
  {
    if steps != [] {
      AlwaysInOrder(u, steps[..|steps| - 1]);
      StepKeeps(After(u, steps[..|steps| - 1]), steps[|steps| - 1]);
    }
  }

  // ------------------------------------------------------------ completion

  predicate InFiles(files: Files, parts: seq<Part>) {
    forall i | 0 <= i < |parts| :: parts[i].number in files
  }

  function All(files: Files, parts: seq<Part>): Bytes
    requires InFiles(files, parts)
  {
    Concat(files, parts, |parts|)
  }

  lemma {:induction false} JoinedIsConcat(u: Upload, meta: seq<Part>, k: nat)
    requires Stored(u) && Lists(u.info, meta) && k <= |meta|
    ensures AllSeen(u.seen, meta[..k]) && InFiles(u.files, meta)
            && Joined(u.seen, meta[..k]) == Concat(u.files, meta, k)
  {
    if k > 0 {
      JoinedIsConcat(u, meta, k - 1);
      assert meta[..k][..k - 1] == meta[..k - 1] && meta[..k][k - 1] == meta[k - 1];
    }
  }

  /** The bytes the listed parts were uploaded with are those in their files. */
  lemma JoinedIsAll(u: Upload, meta: seq<Part>)
    requires Stored(u) && Lists(u.info, meta)
    ensures AllSeen(u.seen, meta) && InFiles(u.files, meta) && Joined(u.seen, meta) == All(u.files, meta)
  {
    JoinedIsConcat(u, meta, |meta|);
    assert meta[..|meta|] == meta;
  }

  lemma ExactHere(u: Upload, meta: seq<Part>, parts: seq<CompletePart>, faults: set<int>)
    requires Inv(u) && Lists(u.info, meta) && Appended(u, meta, parts, faults)
    ensures InFiles(u.files, meta) && Work(meta, u.files, faults, u.appender).0.file == u.base + All(u.files, meta)
  {
    ListingIsCurrent(u, meta, |u.appender.parts|);
    WorkHolds(meta, u.files, u.seen, faults, u.base, u.appender);
    JoinedIsAll(u, meta);
  }

  /**
    In steady runs completion is told "all appended" only if the append file is its base and
    then all parts as uploaded last.
   */
  lemma {:induction false} CompleteIsExact(steps: seq<Step>, meta: seq<Part>, parts: seq<CompletePart>,
                                           faults: set<int>)
    requires Run(true, NEW, steps) && Enabled(After(NEW, steps), Finish(meta, parts, faults, false))
    requires Appended(After(NEW, steps), meta, parts, faults)
    ensures var u := After(NEW, steps);
            && InFiles(u.files, meta)
            && Do(u, Finish(meta, parts, faults, false)).result == Some(u.base + All(u.files, meta))
  {
    AlwaysInOrder(NEW, steps);
    ExactHere(After(NEW, steps), meta, parts, faults);
  }

  lemma {:induction false} RequestedIsAll(files: Files, meta: seq<Part>, parts: seq<CompletePart>, k: nat)
    requires Same(meta, parts) && InFiles(files, meta) && k <= |parts|
    ensures forall i | 0 <= i < |parts| :: parts[i].number in files
    ensures Requested(files, parts, k) == Concat(files, meta, k)
  {
    if k > 0 { RequestedIsAll(files, meta, parts, k - 1); }
  }

  /**
    Of a request for all parts the fallback refuses only a small part that is not the last. The
    background path does not look.
   */
  lemma {:induction false} FallbackRefusesOnlySmall(steady: bool, steps: seq<Step>, meta: seq<Part>,
                                                    parts: seq<CompletePart>, i: nat)
    requires Run(steady, NEW, steps) && Lists(After(NEW, steps).info, meta) && Same(meta, parts) && i < |parts|
    ensures Refusal(After(NEW, steps).files, meta, parts, i)
            == if i < |parts| - 1 && meta[i].size < MIN_PART_SIZE then Some(PartTooSmall) else None
  {
    RunShape(steady, NEW, steps);
    FoundAt(meta, i, 0);
  }

  /** The request is for the part uploaded last under its number, as its etag tells. */
  ghost predicate AsksForLast(u: Upload, parts: seq<CompletePart>, i: nat)
    requires i < |parts|
  {
    parts[i].number in u.info && u.info[parts[i].number].etag == parts[i].etag
  }

  lemma AcceptableHere(u: Upload, meta: seq<Part>, parts: seq<CompletePart>, i: nat)
    requires Stored(u) && Lists(u.info, meta) && i < |parts|
    ensures Refusal(u.files, meta, parts, i).None?
            <==> AsksForLast(u, parts, i) && LargeEnough(u.info[parts[i].number], parts, i)
  {
    var n := parts[i].number;
    RefusalExactly(u.files, meta, parts, i);
    ListingHas(u.info, meta, n);
    if n in u.info {
      assert StandsFor(meta, Find(meta, n, 0), n);
      assert forall k: nat | StandsFor(meta, k, n) :: meta[k] == u.info[n];
    } else {
      ListedIsNumber(meta, n);
    }
  }

  /**
    In every run a completion delivers an object exactly if nothing fails and either all parts are requested and
    appended, or each part requested is the one uploaded last under its number and, unless it is the last, large
    enough. On either path the etag of every part requested is that of the part uploaded last.
   */
  lemma {:induction false} DeliversExactly(steady: bool, steps: seq<Step>, meta: seq<Part>, parts: seq<CompletePart>,
                                           faults: set<int>, fails: bool)
    requires Run(steady, NEW, steps) && Enabled(After(NEW, steps), Finish(meta, parts, faults, fails))
    ensures var u := After(NEW, steps);
            var r := Do(u, Finish(meta, parts, faults, fails)).result;
            && (r.Some? <==> !fails && (|| Appended(u, meta, parts, faults)
                                        || forall i | 0 <= i < |parts| :: AsksForLast(u, parts, i)
                                             && LargeEnough(u.info[parts[i].number], parts, i)))
            && (r.Some? ==> forall i | 0 <= i < |parts| :: AsksForLast(u, parts, i))
  {
    var u := After(NEW, steps);
    RunShape(steady, NEW, steps);
    forall i | 0 <= i < |parts|
      ensures Refusal(u.files, meta, parts, i).None?
              <==> AsksForLast(u, parts, i) && LargeEnough(u.info[parts[i].number], parts, i)
    {
      AcceptableHere(u, meta, parts, i);
    }
    if Same(meta, parts) {
      forall i | 0 <= i < |parts| ensures AsksForLast(u, parts, i) { assert u.info[meta[i].number] == meta[i]; }
    }
  }

  // ------------------------------------------------------------ making runs

  function Request(parts: seq<Part>): (r: seq<CompletePart>)
    ensures Same(parts, r)
  {
    seq(|parts|, i requires 0 <= i < |parts| => CompletePart(parts[i].number, parts[i].etag))
  }

  ghost predicate Leads(steady: bool, u: Upload, v: Upload) {
    exists steps :: Run(steady, u, steps) && After(u, steps) == v
  }

  lemma LeadsNowhere(steady: bool, u: Upload)
    ensures Leads(steady, u, u)
  {
    assert Run(steady, u, []) && After(u, []) == u;
  }

  lemma LeadsOn(steady: bool, u: Upload, v: Upload, step: Step)
    requires Leads(steady, u, v) && Enabled(v, step) && (steady ==> Steady(v, step))
    ensures Leads(steady, u, Do(v, step))
  {
    var steps :| Run(steady, u, steps) && After(u, steps) == v;
    assert (steps + [step])[..|steps|] == steps;
    assert Run(steady, u, steps + [step]) && After(u, steps + [step]) == Do(v, step);
  }

  /** An input is taken, with the given outcome. */
  lemma TakeGives(u: Upload, v: Upload, msg: Msg, b: Appender)
    requires Leads(true, u, v) && v.running && v.result.None? && msg in v.pending
    requires Work(msg.meta, v.files, {}, v.appender).0 == b && (b == Appender([], []) ==> v.base == [])
    ensures Leads(true, u, v.(appender := b, pending := v.pending - {msg}))
  {
    LeadsOn(true, u, v, Take(msg, {}));
    assert Do(v, Take(msg, {})) == v.(appender := b, pending := v.pending - {msg});
  }

  lemma WorkTakes(meta: seq<Part>, files: Files, a: Appender, i: nat)
    requires InOrder(meta) && i < |meta| && meta[i].number == |a.parts| + 1 && meta[i].number in files
    ensures Work(meta, files, {}, a)
            == Work(meta, files, {}, Appender(a.parts + [meta[i]], a.file + files[meta[i].number]))
  {
    FoundAt(meta, i, 0);
  }

  /** Nothing to append. */
  lemma WorkRests(meta: seq<Part>, files: Files, a: Appender)
    requires forall i | 0 <= i < |meta| :: meta[i].number != |a.parts| + 1
    ensures Work(meta, files, {}, a) == (a, if meta == a.parts then None else Some(PartsMissing))
  {
  }

  lemma TwoListed(p: Part, q: Part, info: map<int, Part>)
    requires p.number < q.number && info.Keys == {p.number, q.number} && info[p.number] == p && info[q.number] == q
    ensures Lists(info, [p, q])
  {
  }
}
