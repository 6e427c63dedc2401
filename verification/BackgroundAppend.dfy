/**
  Appending the parts of a multipart upload in the background while they arrive
  (cmd/fs-v1-background-append.go), for one upload.
 */
module BackgroundAppend {
  import opened Wrappers
  import opened PartList

  // ------------------------------------------------------------ one input

  /** The part of a number in a list that has it. */
  function PartAt(meta: seq<Part>, n: int): (p: Part)
    requires Listed(meta, n)
    ensures p in meta && p.number == n
  {
    meta[Find(meta, n, 0)]
  }

  /** The next part to append, if the snapshot has it: the one numbered after those appended. */
  function PartToAppend(meta: seq<Part>, appended: seq<Part>): Option<Part> {
    var next := |appended| + 1;
    if Listed(meta, next) then Some(PartAt(meta, next)) else None
  }

  /** How many of the first `k` parts have a number above `n`. */
  function Above(parts: seq<Part>, n: int, k: nat): nat
    requires k <= |parts|
  {
    if k == 0 then 0 else Above(parts, n, k - 1) + (if parts[k - 1].number > n then 1 else 0)
  }

  lemma {:induction false} AboveShrinks(parts: seq<Part>, n: int, k: nat)
    requires k <= |parts|
    ensures Above(parts, n + 1, k) <= Above(parts, n, k)
    ensures (exists i | 0 <= i < k :: parts[i].number == n + 1) ==> Above(parts, n + 1, k) < Above(parts, n, k)
  {
    if k > 0 { AboveShrinks(parts, n, k - 1); }
  }

  lemma NextIsAbove(meta: seq<Part>, n: int)
    requires Listed(meta, n + 1)
    ensures Above(meta, n + 1, |meta|) < Above(meta, n, |meta|)
  {
    AboveShrinks(meta, n, |meta|);
    assert meta[Find(meta, n + 1, 0)].number == n + 1;
  }

  /** The appender between two inputs: the parts it has appended and the append file. */
  datatype Appender = Appender(parts: seq<Part>, file: Bytes)

  /** Appending this part fails this time: its file is missing, or opening, allocating or copying fails. */
  predicate Fails(files: Files, faults: set<int>, p: Part) {
    p.number !in files || p.number in faults
  }

  /** What one input does: append while the next part is there; a failure removes the file and starts over. */
  function Work(meta: seq<Part>, files: Files, faults: set<int>, a: Appender): (r: (Appender, Option<PartError>))
    decreases Above(meta, |a.parts|, |meta|)
  {
    match PartToAppend(meta, a.parts)
    case None => (a, if meta == a.parts then None else Some(PartsMissing))
    case Some(p) =>
      if Fails(files, faults, p) then
        (Appender([], []), Some(if p.number !in files then PartsMissing else AppendFailed))
      else
        NextIsAbove(meta, |a.parts|);
        Work(meta, files, faults, Appender(a.parts + [p], a.file + files[p.number]))
  }

  /** The parts appended are those numbered from one. */
  predicate Numbered(parts: seq<Part>) {
    forall i | 0 <= i < |parts| :: parts[i].number == i + 1
  }

  /** Adding the next part to the list of those appended puts it last. */
  lemma NextIsLast(parts: seq<Part>, p: Part, now: seq<Part>)
    requires Numbered(parts) && p.number == |parts| + 1 && AddedTo(parts, p, now)
    ensures now == parts + [p]
  {
    forall x ensures x in now <==> x in parts + [p] {
      if x in parts {
        var i :| 0 <= i < |parts| && parts[i] == x;
      }
    }
    OrderIsUnique(now, parts + [p]);
  }

  /** The bytes of every part that was uploaded. */
  type Seen = map<Part, Bytes>

  predicate AllSeen(seen: Seen, parts: seq<Part>) {
    forall i | 0 <= i < |parts| :: parts[i] in seen
  }

  function Joined(seen: Seen, parts: seq<Part>): Bytes
    requires AllSeen(seen, parts)
  {
    if parts == [] then [] else Joined(seen, parts[..|parts| - 1]) + seen[parts[|parts| - 1]]
  }

  /** The append file is what it started from followed by the parts recorded, in order. */
  ghost predicate Holds(seen: Seen, base: Bytes, a: Appender) {
    Numbered(a.parts) && AllSeen(seen, a.parts) && a.file == base + Joined(seen, a.parts)
  }

  /** The list has every number from `k + 1` to `n`, so that an appender with `k` parts gets to part `n`. */
  ghost predicate Reaches(meta: seq<Part>, k: nat, n: int) {
    k < n && forall g | k < g <= n :: Listed(meta, g)
  }

  /**
    Every part that an appender with `k` parts gets to, and whose file is there, has the bytes it
    was uploaded with.
   */
  ghost predicate Current(files: Files, seen: Seen, meta: seq<Part>, k: nat) {
    forall n | Reaches(meta, k, n) && n in files :: PartAt(meta, n) in seen && files[n] == seen[PartAt(meta, n)]
  }

  lemma HoldsNext(files: Files, seen: Seen, base: Bytes, a: Appender, p: Part)
    requires Holds(seen, base, a) && p.number == |a.parts| + 1
    requires p.number in files && p in seen && files[p.number] == seen[p]
    ensures Holds(seen, base, Appender(a.parts + [p], a.file + files[p.number]))
  {
    var parts := a.parts + [p];
    assert parts[..|parts| - 1] == a.parts;
    assert a.file + files[p.number] == base + (Joined(seen, a.parts) + seen[p]);
  }

  lemma CurrentNext(files: Files, seen: Seen, meta: seq<Part>, k: nat)
    requires Current(files, seen, meta, k) && Listed(meta, k + 1)
    ensures Current(files, seen, meta, k + 1)
    ensures k + 1 in files ==> PartAt(meta, k + 1) in seen && files[k + 1] == seen[PartAt(meta, k + 1)]
  {
    assert Reaches(meta, k, k + 1);
    forall n | Reaches(meta, k + 1, n) ensures Reaches(meta, k, n) {}
  }

  /**
    Whatever the faults, and as long as no part it gets to was replaced: the file stays so, from the old base or
    from nothing.
   */
  lemma {:induction false} WorkHolds(meta: seq<Part>, files: Files, seen: Seen, faults: set<int>, base: Bytes,
                                     a: Appender)
    requires Holds(seen, base, a) && Current(files, seen, meta, |a.parts|)
    ensures var (b, err) := Work(meta, files, faults, a);
            && (Holds(seen, base, b) || (b == Appender([], []) && err.Some?))
            && (err.None? ==> Holds(seen, base, b) && b.parts == meta)
    decreases Above(meta, |a.parts|, |meta|)
  {
    var next := PartToAppend(meta, a.parts);
    if next.Some? && !Fails(files, faults, next.value) {
      CurrentNext(files, seen, meta, |a.parts|);
      HoldsNext(files, seen, base, a, next.value);
      NextIsAbove(meta, |a.parts|);
      WorkHolds(meta, files, seen, faults, base, Appender(a.parts + [next.value], a.file + files[next.value.number]));
    }
  }

  /** Parts of the list were appended, as many as follow on those there were. */
  ghost predicate Grown(meta: seq<Part>, a: Appender, b: Appender) {
    && a.parts <= b.parts && Numbered(b.parts) && !Listed(meta, |b.parts| + 1)
    && forall g | |a.parts| < g <= |b.parts| :: Listed(meta, g) && b.parts[g - 1] == PartAt(meta, g)
  }

  lemma GrownNext(meta: seq<Part>, a: Appender, p: Part, file: Bytes, b: Appender)
    requires Numbered(a.parts) && Listed(meta, |a.parts| + 1) && p == PartAt(meta, |a.parts| + 1)
    requires Grown(meta, Appender(a.parts + [p], file), b)
    ensures Grown(meta, a, b)
  {
    assert b.parts[|a.parts|] == p;
  }

  /** What one input does to the parts. */
  lemma {:induction false} WorkGrows(meta: seq<Part>, files: Files, faults: set<int>, a: Appender)
    requires Numbered(a.parts)
    ensures var (b, err) := Work(meta, files, faults, a);
            && (Grown(meta, a, b) || (b == Appender([], []) && err.Some?))
            && (err.None? ==> Grown(meta, a, b) && b.parts == meta)
            && (faults == {} && (forall p | p in meta :: p.number in files) ==> Grown(meta, a, b))
    decreases Above(meta, |a.parts|, |meta|)
  {
    var next := PartToAppend(meta, a.parts);
    if next.Some? && !Fails(files, faults, next.value) {
      var p := next.value;
      NextIsAbove(meta, |a.parts|);
      WorkGrows(meta, files, faults, Appender(a.parts + [p], a.file + files[p.number]));
      var (b, err) := Work(meta, files, faults, a);
      if Grown(meta, Appender(a.parts + [p], a.file + files[p.number]), b) {
        GrownNext(meta, a, p, a.file + files[p.number], b);
      }
    }
  }

  // ------------------------------------------------------------ the appender

  /** The appender of one upload; `running` while it is in the table of appenders. */
  class BackgroundAppender {
    var running: bool
    var appendMeta: FsMeta
    var file: Bytes

    constructor ()
      ensures !running && file == [] && fresh(appendMeta)
    {
      running, file := false, [];
      appendMeta := new FsMeta();
    }

    function View(): Appender
      reads this, appendMeta
    {
      Appender(appendMeta.parts, file)
    }

    method AppendPart(p: Part, files: Files, faults: set<int>) returns (err: Option<PartError>)
      modifies this`file
      ensures if Fails(files, faults, p) then err == Some(if p.number !in files then PartsMissing else AppendFailed)
              else err == None && file == old(file) + files[p.number]
    {
      if p.number !in files { return Some(PartsMissing); }
      if p.number in faults { return Some(AppendFailed); }
      file := file + files[p.number];
      return None;
    }

    /** The loop of the goroutine over one input. */
    method HandleInput(meta: seq<Part>, files: Files, faults: set<int>) returns (err: Option<PartError>)
      requires Numbered(appendMeta.parts)
      modifies this`file, appendMeta
      ensures (View(), err) == Work(meta, files, faults, old(View())) && Numbered(appendMeta.parts)
    {
      while true
        invariant Numbered(appendMeta.parts)
                  && Work(meta, files, faults, View()) == Work(meta, files, faults, old(View()))
        decreases Above(meta, |appendMeta.parts|, |meta|)
      {
        var next := PartToAppend(meta, appendMeta.parts);
        if next.None? {
          return if meta == appendMeta.parts then None else Some(PartsMissing);
        }
        var failed := AppendPart(next.value, files, faults);
        if failed.Some? {
          file := [];
          appendMeta.parts := [];
          return failed;
        }
        NextIsAbove(meta, |appendMeta.parts|);
        NumberedInOrder(appendMeta.parts);
        ghost var was := appendMeta.parts;
        appendMeta.AddObjectPart(next.value);
        NextIsLast(was, next.value, appendMeta.parts);
      }
    }

    /** A part was uploaded: starts the appender if there is none. A new one does not look at the append file. */
    method Append(meta: seq<Part>, files: Files, faults: set<int>) returns (err: Option<PartError>)
      requires Numbered(appendMeta.parts)
      modifies this, appendMeta
      ensures running && appendMeta == old(appendMeta) && Numbered(appendMeta.parts)
      ensures (View(), err) == Work(meta, files, faults, if old(running) then old(View()) else Appender([], old(file)))
    {
      if !running {
        running := true;
        appendMeta.parts := [];
      }
      err := HandleInput(meta, files, faults);
    }

    /** The upload is completed: asks the appender whether it has all parts, and ends it. The append file stays. */
    method Complete(meta: seq<Part>, files: Files, faults: set<int>) returns (err: Option<PartError>)
      requires Numbered(appendMeta.parts)
      modifies this, appendMeta
      ensures !running && appendMeta == old(appendMeta) && Numbered(appendMeta.parts)
      ensures if old(running) then (View(), err) == Work(meta, files, faults, old(View()))
              else err == Some(PartsMissing) && View() == old(View())
    {
      if !running { return Some(PartsMissing); }
      running := false;
      err := HandleInput(meta, files, faults);
    }

    method Abort()
      modifies this
      ensures !running && appendMeta == old(appendMeta) && file == if old(running) then [] else old(file)
    {
      if running {
        running := false;
        file := [];
      }
    }
  }

  lemma NumberedInOrder(parts: seq<Part>)
    requires Numbered(parts)
    ensures InOrder(parts)
  {
  }
}
