/**
  Loading the formats of a set of disks that arrive in any order (cmd/format-config-v1.go,
  `loadFormat` and `loadFormatXL`).
 */
module FormatLoad {
  import opened Wrappers
  import opened Sets
  import opened Format

  const META_BUCKET := ".minio.sys"

  /** The erasure part of an object's metadata that names the disk's slot. */
  datatype XlMeta = XlMeta(distribution: seq<int>, index: int)

  /** What a disk answers when it is asked for its format, its volumes, their entries and an object's metadata. */
  datatype Disk = Disk(file: Result<FormatConfig, FormatError>, vols: Result<seq<string>, FormatError>,
                       dirs: map<string, Result<seq<string>, FormatError>>,
                       metas: map<(string, string), Result<XlMeta, FormatError>>, writable: bool)

  /** Disks that cannot be reached are not in the map. */
  type World = map<DiskId, Disk>

  /** A missing format means a fresh disk, or a damaged one if there is data on it. */
  function LoadFormat(d: Disk): Result<FormatConfig, FormatError> {
    match d.file
    case Ok(f) => Ok(f)
    case Err(e) =>
      if e != FileNotFound && e != VolumeNotFound then Err(e)
      else match d.vols
           case Err(e2) => Err(e2)
           case Ok(vols) => if |vols| > 1 then Err(CorruptedFormat) else Err(UnformattedDisk)
  }

  function Load(w: World, d: Option<DiskId>): Result<FormatConfig, FormatError> {
    if d.Some? && d.value in w then LoadFormat(w[d.value]) else Err(DiskNotFound)
  }

  function FormatAt(w: World, d: Option<DiskId>): Option<FormatConfig> {
    var r := Load(w, d);
    if r.Ok? then Some(r.value) else None
  }

  function FormatsOf(w: World, b: Disks): (fs: Formats)
    ensures |fs| == |b| && forall i | 0 <= i < |b| :: fs[i] == FormatAt(w, b[i])
  {
    seq(|b|, i requires 0 <= i < |b| => FormatAt(w, b[i]))
  }

  /** Not an error that ends loading at once. */
  predicate Expected(r: Result<FormatConfig, FormatError>) {
    r.Ok? || r.error == UnformattedDisk || r.error == DiskNotFound || r.error == CorruptedFormat
  }

  predicate AllExpected(w: World, b: Disks) {
    forall i | 0 <= i < |b| :: Expected(Load(w, b[i]))
  }

  /** How many of the first `k` disks answer with an error. */
  function Count(w: World, b: Disks, k: nat, e: FormatError): (c: nat)
    requires k <= |b|
    ensures c <= k
  {
    if k == 0 then 0 else Count(w, b, k - 1, e) + (if Load(w, b[k - 1]) == Err(e) then 1 else 0)
  }

  /** The error that too many bad disks give. */
  function QuorumError(w: World, b: Disks, readQuorum: int): Option<FormatError> {
    var n := |b|;
    if Count(w, b, n, UnformattedDisk) > n - readQuorum then Some(UnformattedDisk)
    else if Count(w, b, n, CorruptedFormat) > n - readQuorum then Some(CorruptedFormat)
    else if Count(w, b, n, DiskNotFound) == n then Some(DiskNotFound)
    else if Count(w, b, n, DiskNotFound) > n - readQuorum then Some(ReadQuorum)
    else None
  }

  predicate Loadable(w: World, b: Disks, readQuorum: int) {
    && AllExpected(w, b) && QuorumError(w, b, readQuorum).None?
    && Consistent(FormatsOf(w, b)) && Recognized(FormatsOf(w, b))
  }

  function Slots(w: World, b: Disks): Disks {
    Placed(b, FormatsOf(w, b), SavedJbod(FormatsOf(w, b)))
  }

  method LoadFormatXL(w: World, b: Disks, readQuorum: int) returns (r: Result<Disks, FormatError>)
    ensures r.Ok? <==> Loadable(w, b, readQuorum)
    ensures r.Ok? ==> r.value == Slots(w, b)
    ensures AllExpected(w, b) && QuorumError(w, b, readQuorum).Some? ==> r == Err(QuorumError(w, b, readQuorum).value)
  {
    var fs, unformatted, notFound, corrupted, err := LoadAll(w, b);
    if err.Some? { return Err(err.value); }
    if unformatted > |b| - readQuorum { return Err(UnformattedDisk); }
    if corrupted > |b| - readQuorum { return Err(CorruptedFormat); }
    if notFound == |b| { return Err(DiskNotFound); }
    if notFound > |b| - readQuorum { return Err(ReadQuorum); }
    r := CheckAndPlace(b, fs);
  }

  /** The loop over the disks: formats found, errors counted by kind. */
  method LoadAll(w: World, b: Disks)
    returns (formats: Formats, unformatted: nat, notFound: nat, corrupted: nat, err: Option<FormatError>)
    ensures err.None? <==> AllExpected(w, b)
    ensures err.None? ==> && formats == FormatsOf(w, b) && unformatted == Count(w, b, |b|, UnformattedDisk)
                          && notFound == Count(w, b, |b|, DiskNotFound)
                          && corrupted == Count(w, b, |b|, CorruptedFormat)
  {
    unformatted, notFound, corrupted, err := 0, 0, 0, None;
    formats := seq(|b|, _ => None);
    for i := 0 to |b|
      invariant Tallied(w, b, i, formats, unformatted, notFound, corrupted) && err.None?
    {
      formats, unformatted, notFound, corrupted, err := LoadNext(w, b, i, formats, unformatted, notFound, corrupted);
      if err.Some? { return; }
    }
  }

  /** The first `i` disks are loaded, and their errors counted. */
  ghost predicate Tallied(w: World, b: Disks, i: nat, fs: Formats, unformatted: nat, notFound: nat, corrupted: nat) {
    && i <= |b| == |fs| && unformatted == Count(w, b, i, UnformattedDisk) && notFound == Count(w, b, i, DiskNotFound)
    && corrupted == Count(w, b, i, CorruptedFormat) && (forall k | 0 <= k < i :: Expected(Load(w, b[k])))
    && forall k | 0 <= k < |b| :: fs[k] == if k < i then FormatAt(w, b[k]) else None
  }

  method LoadNext(w: World, b: Disks, i: nat, fs: Formats, unformatted: nat, notFound: nat, corrupted: nat)
    returns (formats: Formats, u: nat, n: nat, c: nat, err: Option<FormatError>)
    requires i < |b| && Tallied(w, b, i, fs, unformatted, notFound, corrupted)
    ensures if Expected(Load(w, b[i])) then err.None? && Tallied(w, b, i + 1, formats, u, n, c) else err.Some?
  {
    formats, u, n, c, err := fs, unformatted, notFound, corrupted, None;
    var loaded := Load(w, b[i]);
    if loaded.Ok? {
      formats := formats[i := Some(loaded.value)];
    } else {
      u, n, c, err := CountOne(loaded.error, unformatted, notFound, corrupted);
    }
  }

  method CountOne(e: FormatError, unformatted: nat, notFound: nat, corrupted: nat)
    returns (u: nat, n: nat, c: nat, err: Option<FormatError>)
    ensures err == if Expected(Err(e)) then None else Some(e)
    ensures u == unformatted + (if e == UnformattedDisk then 1 else 0)
    ensures n == notFound + (if e == DiskNotFound then 1 else 0)
    ensures c == corrupted + (if e == CorruptedFormat then 1 else 0)
  {
    u, n, c, err := unformatted, notFound, corrupted, None;
    if e == UnformattedDisk {
      u := u + 1;
    } else if e == DiskNotFound {
      n := n + 1;
    } else if e == CorruptedFormat {
      c := c + 1;
    } else {
      err := Some(e);
    }
  }

  method CheckAndPlace(b: Disks, fs: Formats) returns (r: Result<Disks, FormatError>)
    requires |fs| == |b|
    ensures r.Ok? <==> Consistent(fs) && Recognized(fs)
    ensures r.Ok? ==> r.value == Placed(b, fs, SavedJbod(fs))
  {
    var err := CheckFormatXL(fs);
    if err.Some? { return Err(err.value); }
    SavedIsOneOf(fs);
    r := ReorderDisks(b, fs);
  }

  // ------------------------------------------------------------ any order

  predicate Permutes(p: seq<nat>, n: nat) {
    && |p| == n && (forall i | 0 <= i < n :: p[i] < n)
    && (forall i, k | 0 <= i < k < n :: p[i] != p[k])
  }

  function Shuffled(b: Disks, p: seq<nat>): (r: Disks)
    requires Permutes(p, |b|)
    ensures |r| == |b| && forall i | 0 <= i < |b| :: r[i] == b[p[i]]
  {
    seq(|b|, i requires 0 <= i < |b| => b[p[i]])
  }

  /** Which of the first `k` disks answer with an error. */
  function Bad(w: World, b: Disks, k: nat, e: FormatError): (s: set<nat>)
    requires k <= |b|
    ensures |s| == Count(w, b, k, e) && forall i: nat :: i in s <==> i < k && Load(w, b[i]) == Err(e)
  {
    if k == 0 then {} else Bad(w, b, k - 1, e) + (if Load(w, b[k - 1]) == Err(e) then {k - 1} else {})
  }

  /** Every disk has a format, or is fresh, damaged or offline. */
  predicate Tolerable(w: World, b: Disks) {
    forall i | 0 <= i < |b| ::
      Load(w, b[i]).Ok? || Load(w, b[i]).error in {UnformattedDisk, CorruptedFormat, DiskNotFound}
  }

  /** Every disk answers with the error. */
  predicate Everywhere(w: World, b: Disks, e: FormatError) {
    forall i | 0 <= i < |b| :: Load(w, b[i]) == Err(e)
  }

  lemma FullIff(s: set<nat>, n: nat)
    requires forall i | i in s :: i < n
    ensures |s| == n <==> forall i: nat | i < n :: i in s
  {
    if |s| == n { Everyone(s, n); }
    if forall i: nat | i < n :: i in s { assert s == Upto(n); }
  }

  lemma FullIsEverywhere(w: World, b: Disks, e: FormatError, s: set<nat>)
    requires forall i: nat :: i in s <==> i < |b| && Load(w, b[i]) == Err(e)
    ensures |s| == |b| <==> Everywhere(w, b, e)
  {
    FullIff(s, |b|);
    if Everywhere(w, b, e) {
      forall i: nat | i < |b| ensures i in s {}
    }
  }

  lemma AllBad(w: World, b: Disks, e: FormatError)
    ensures |Bad(w, b, |b|, e)| == |b| <==> Everywhere(w, b, e)
  {
    FullIsEverywhere(w, b, e, Bad(w, b, |b|, e));
  }

  lemma CountIsBad(w: World, b: Disks, e: FormatError)
    ensures Count(w, b, |b|, e) == |Bad(w, b, |b|, e)|
  {
  }

  /** The fault that is too frequent is named, the first of these. */
  lemma QuorumErrorExactly(w: World, b: Disks, readQuorum: int)
    ensures var most, e := |b| - readQuorum, QuorumError(w, b, readQuorum);
            if |Bad(w, b, |b|, UnformattedDisk)| > most then e == Some(UnformattedDisk)
            else if |Bad(w, b, |b|, CorruptedFormat)| > most then e == Some(CorruptedFormat)
            else if Everywhere(w, b, DiskNotFound) then e == Some(DiskNotFound)
            else if |Bad(w, b, |b|, DiskNotFound)| > most then e == Some(ReadQuorum)
            else e == None
  {
    CountIsBad(w, b, UnformattedDisk);
    CountIsBad(w, b, CorruptedFormat);
    CountIsBad(w, b, DiskNotFound);
    AllBad(w, b, DiskNotFound);
  }

  lemma TolerableIsExpected(w: World, b: Disks)
    ensures AllExpected(w, b) <==> Tolerable(w, b)
  {
  }

  /** Disks load exactly if all are tolerable, none of the three faults is too frequent, and the formats agree. */
  lemma LoadableExactly(w: World, b: Disks, readQuorum: int)
    ensures Loadable(w, b, readQuorum) <==>
            && Tolerable(w, b) && Consistent(FormatsOf(w, b)) && Recognized(FormatsOf(w, b))
            && |Bad(w, b, |b|, UnformattedDisk)| <= |b| - readQuorum
            && |Bad(w, b, |b|, CorruptedFormat)| <= |b| - readQuorum
            && |Bad(w, b, |b|, DiskNotFound)| <= |b| - readQuorum
            && !Everywhere(w, b, DiskNotFound)
  {
    QuorumErrorExactly(w, b, readQuorum);
    TolerableIsExpected(w, b);
  }

  lemma {:induction false} Injects(s: set<nat>, p: seq<nat>, n: nat, t: set<nat>)
    requires Permutes(p, n) && forall i | i in s :: i < n && p[i] in t
    ensures |s| <= |t|
    decreases |s|
  {
    if s != {} {
      var i :| i in s;
      forall k | k in s - {i} ensures p[k] in t - {p[i]} {
        assert k < i || i < k;
      }
      Injects(s - {i}, p, n, t - {p[i]});
    }
  }

  /** Every position is taken from somewhere. */
  lemma Onto(p: seq<nat>, n: nat, x: nat) returns (i: nat)
    requires Permutes(p, n) && x < n
    ensures i < n && p[i] == x
  {
    if forall k: nat | k < n :: p[k] != x {
      OneLess(Upto(n), x);
      Injects(Upto(n), p, n, Upto(n) - {x});
      assert false;
    }
    i :| i < n && p[i] == x;
  }

  lemma CountShuffled(w: World, b: Disks, p: seq<nat>, e: FormatError)
    requires Permutes(p, |b|)
    ensures Count(w, Shuffled(b, p), |b|, e) <= Count(w, b, |b|, e)
  {
    Injects(Bad(w, Shuffled(b, p), |b|, e), p, |b|, Bad(w, b, |b|, e));
  }

  lemma ShuffledFormats(w: World, b: Disks, p: seq<nat>)
    requires Permutes(p, |b|)
    ensures var fs, gs := FormatsOf(w, b), FormatsOf(w, Shuffled(b, p));
            && (forall i | 0 <= i < |b| :: gs[i] == fs[p[i]])
            && (Consistent(fs) ==> Consistent(gs)) && (DistinctUuids(fs) ==> DistinctUuids(gs))
  {
    var fs, gs := FormatsOf(w, b), FormatsOf(w, Shuffled(b, p));
    assert forall i | 0 <= i < |b| :: gs[i] == fs[p[i]];
    if DistinctUuids(fs) {
      forall i, k | 0 <= i < k < |gs| && gs[i].Some? && gs[k].Some? ensures gs[i].value.disk != gs[k].value.disk {
        assert p[i] < p[k] || p[k] < p[i];
      }
    }
  }

  /** All formats of a consistent set name one list, in whatever order the first is looked for. */
  lemma ShuffledJbod(w: World, b: Disks, p: seq<nat>)
    requires Permutes(p, |b|) && Consistent(FormatsOf(w, b))
    ensures SavedJbod(FormatsOf(w, Shuffled(b, p))) == SavedJbod(FormatsOf(w, b))
  {
    var fs, gs := FormatsOf(w, b), FormatsOf(w, Shuffled(b, p));
    ShuffledFormats(w, b, p);
    SavedIsOneOf(gs);
    SavedIsOneOf(fs);
    if i :| 0 <= i < |gs| && gs[i].Some? {
      SavedIsSome(gs, i);
      SavedIsSome(fs, p[i]);
    } else {
      forall k | 0 <= k < |fs| ensures fs[k].None? {
        var i := Onto(p, |b|, k);
        assert gs[i] == fs[k];
      }
    }
  }

  lemma ShuffledQuorum(w: World, b: Disks, p: seq<nat>, readQuorum: int)
    requires Permutes(p, |b|) && QuorumError(w, b, readQuorum).None?
    ensures QuorumError(w, Shuffled(b, p), readQuorum).None?
  {
    CountShuffled(w, b, p, UnformattedDisk);
    CountShuffled(w, b, p, CorruptedFormat);
    CountShuffled(w, b, p, DiskNotFound);
  }

  lemma ShuffledLoadable(w: World, b: Disks, p: seq<nat>, readQuorum: int)
    requires Permutes(p, |b|) && Loadable(w, b, readQuorum)
    ensures Loadable(w, Shuffled(b, p), readQuorum)
  {
    ShuffledQuorum(w, b, p, readQuorum);
    ShuffledFormats(w, b, p);
    ShuffledJbod(w, b, p);
  }

  /** Loading succeeds for every order of the disks and then gives every order the same slots, if uuids are distinct. */
  lemma OrderIndependent(w: World, b: Disks, p: seq<nat>, readQuorum: int)
    requires Permutes(p, |b|) && Loadable(w, b, readQuorum) && DistinctUuids(FormatsOf(w, b))
    ensures Loadable(w, Shuffled(b, p), readQuorum) && Slots(w, Shuffled(b, p)) == Slots(w, b)
  {
    ShuffledLoadable(w, b, p, readQuorum);
    forall j | 0 <= j < |b| ensures Slots(w, Shuffled(b, p))[j] == Slots(w, b)[j] {
      SameSlot(w, b, p, j);
    }
  }

  lemma SameSlot(w: World, b: Disks, p: seq<nat>, j: nat)
    requires Permutes(p, |b|) && j < |b| && Consistent(FormatsOf(w, b)) && Recognized(FormatsOf(w, b))
             && DistinctUuids(FormatsOf(w, b))
    requires Recognized(FormatsOf(w, Shuffled(b, p)))
    ensures Slots(w, Shuffled(b, p))[j] == Slots(w, b)[j]
  {
    var c := Shuffled(b, p);
    var fs, gs := FormatsOf(w, b), FormatsOf(w, c);
    ShuffledFormats(w, b, p);
    ShuffledJbod(w, b, p);
    var jbod := SavedJbod(fs);
    if i :| 0 <= i < |fs| && fs[i].Some? && Index(jbod, fs[i].value.disk) == j {
      var k := Onto(p, |b|, i);
      EachInItsSlot(b, fs, i);
      EachInItsSlot(c, gs, k);
    } else {
      NoOccupant(b, fs, jbod, |fs|, j);
      NoOccupant(c, gs, jbod, |gs|, j);
    }
  }

  // ------------------------------------------------------------ when uuids repeat

  /** The supplied disks are all different ones. */
  predicate DistinctDisks(b: Disks) {
    forall i, k | 0 <= i < k < |b| && b[i].Some? :: b[i] != b[k]
  }

  function Identity(n: nat): (p: seq<nat>)
    ensures |p| == n && forall i | 0 <= i < n :: p[i] == i
  {
    seq(n, i => i)
  }

  function Swap(n: nat, i: nat, k: nat): (p: seq<nat>)
    requires i < n && k < n
    ensures Permutes(p, n)
  {
    Identity(n)[i := k][k := i]
  }

  lemma {:induction false} LastWith(fs: Formats, uuid: string, n: nat) returns (k: nat)
    requires n <= |fs| && exists i | 0 <= i < n && fs[i].Some? :: fs[i].value.disk == uuid
    ensures k < n && fs[k].Some? && fs[k].value.disk == uuid
    ensures forall m | k < m < n && fs[m].Some? :: fs[m].value.disk != uuid
    decreases n
  {
    if fs[n - 1].Some? && fs[n - 1].value.disk == uuid { return n - 1; }
    k := LastWith(fs, uuid, n - 1);
  }

  /** If two disks carry one uuid, some order of the disks puts the other one into the slot. */
  lemma RepeatedUuidMatters(w: World, b: Disks, readQuorum: int) returns (p: seq<nat>)
    requires Loadable(w, b, readQuorum) && DistinctDisks(b) && !DistinctUuids(FormatsOf(w, b))
    ensures Permutes(p, |b|) && Loadable(w, Shuffled(b, p), readQuorum) && Slots(w, Shuffled(b, p)) != Slots(w, b)
  {
    var fs := FormatsOf(w, b);
    var i, k :| 0 <= i < k < |fs| && fs[i].Some? && fs[k].Some? && fs[i].value.disk == fs[k].value.disk;
    var last := LastWith(fs, fs[i].value.disk, |fs|);
    p := Swap(|b|, i, last);
    ShuffledLoadable(w, b, p, readQuorum);
    SwappedOccupant(w, b, i, last);
  }

  lemma SwappedOccupant(w: World, b: Disks, i: nat, k: nat)
    requires i < k < |b| && DistinctDisks(b)
    requires var fs := FormatsOf(w, b); Consistent(fs) && Recognized(fs)
                                        && Recognized(FormatsOf(w, Shuffled(b, Swap(|b|, i, k))))
                                        && fs[i].Some? && fs[k].Some? && fs[i].value.disk == fs[k].value.disk
                                        && forall m | k < m < |b| && fs[m].Some? :: fs[m].value.disk != fs[k].value.disk
    ensures Slots(w, Shuffled(b, Swap(|b|, i, k))) != Slots(w, b)
  {
    var p := Swap(|b|, i, k);
    var c := Shuffled(b, p);
    var fs, gs := FormatsOf(w, b), FormatsOf(w, c);
    ShuffledFormats(w, b, p);
    ShuffledJbod(w, b, p);
    var jbod := SavedJbod(fs);
    SavedIsSome(fs, k);
    var j := Index(jbod, fs[k].value.disk);
    LastKeeps(b, fs, jbod, k);
    LastKeeps(c, gs, jbod, k);
    assert Slots(w, b)[j] == b[k] && Slots(w, c)[j] == c[k] == b[i];
  }

  lemma LastKeeps(b: Disks, fs: Formats, jbod: seq<string>, k: nat)
    requires |fs| == |b| && k < |b| && fs[k].Some? && fs[k].value.disk in jbod
    requires forall m | k < m < |b| && fs[m].Some? :: fs[m].value.disk in jbod && fs[m].value.disk != fs[k].value.disk
    ensures Occupant(b, fs, jbod, |fs|, Index(jbod, fs[k].value.disk)) == b[k]
  {
    OccupantIsLast(b, fs, jbod, |fs|, Index(jbod, fs[k].value.disk), k);
  }

  /** The order of the disks does not matter exactly if no two carry one uuid. */
  lemma OrderIndependentIff(w: World, b: Disks, readQuorum: int)
    requires Loadable(w, b, readQuorum) && DistinctDisks(b)
    ensures DistinctUuids(FormatsOf(w, b)) <==>
            forall p | Permutes(p, |b|) :: Loadable(w, Shuffled(b, p), readQuorum)
                                           && Slots(w, Shuffled(b, p)) == Slots(w, b)
  {
    if DistinctUuids(FormatsOf(w, b)) {
      forall p | Permutes(p, |b|)
        ensures Loadable(w, Shuffled(b, p), readQuorum) && Slots(w, Shuffled(b, p)) == Slots(w, b)
      {
        OrderIndependent(w, b, p, readQuorum);
      }
    } else {
      var p := RepeatedUuidMatters(w, b, readQuorum);
    }
  }
}
