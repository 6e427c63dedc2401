/**
  Formatting and healing the disks of an erasure set (cmd/format-config-v1.go,
  `initFormatXL`, `healFormatXLFreshDisks`, `healFormatXLCorruptedDisks`).
 */
module FormatHeal {
  import opened Wrappers
  import opened Sets
  import opened Format
  import opened FormatLoad
  import opened FormatSlots

  // ------------------------------------------------------------ loading for a heal

  predicate Healable(r: Result<FormatConfig, FormatError>, corruptedToo: bool) {
    r.Ok? || r.error == UnformattedDisk || (corruptedToo && r.error == CorruptedFormat)
  }

  predicate AllHealable(w: World, storage: Disks, corruptedToo: bool) {
    forall i | 0 <= i < |storage| :: Healable(Load(w, storage[i]), corruptedToo)
  }

  /** Healing stops at the first disk that is neither formatted nor to be healed; offline is no error. */
  function Blocker(w: World, storage: Disks, corruptedToo: bool, from: nat): Option<FormatError>
    requires from <= |storage|
    decreases |storage| - from
  {
    if from == |storage| then None
    else if Healable(Load(w, storage[from]), corruptedToo) then Blocker(w, storage, corruptedToo, from + 1)
    else var e := Load(w, storage[from]).error; if e == DiskNotFound then None else Some(e)
  }

  /** Disk `i` is the first that is neither formatted nor to be healed. */
  predicate StopsAt(w: World, storage: Disks, corruptedToo: bool, i: nat)
    requires i < |storage|
  {
    && Load(w, storage[i]).Err? && Load(w, storage[i]).error != UnformattedDisk
    && (corruptedToo ==> Load(w, storage[i]).error != CorruptedFormat)
    && forall k | 0 <= k < i :: Healable(Load(w, storage[k]), corruptedToo)
  }

  method LoadForHeal(w: World, storage: Disks, corruptedToo: bool)
    returns (ready: bool, fs: Formats, err: Option<FormatError>)
    ensures ready <==> AllHealable(w, storage, corruptedToo)
    ensures if ready then fs == FormatsOf(w, storage) else err == Blocker(w, storage, corruptedToo, 0)
    ensures !ready ==> exists i: nat | i < |storage| ::
              StopsAt(w, storage, corruptedToo, i)
              && err == if Load(w, storage[i]) == Err(DiskNotFound) then None else Some(Load(w, storage[i]).error)
  {
    fs := seq(|storage|, _ => None);
    err := None;
    for i := 0 to |storage|
      invariant |fs| == |storage| && forall k | 0 <= k < |fs| :: fs[k] == if k < i then FormatAt(w, storage[k])
                else None
      invariant forall k | 0 <= k < i :: Healable(Load(w, storage[k]), corruptedToo)
      invariant Blocker(w, storage, corruptedToo, 0) == Blocker(w, storage, corruptedToo, i)
    {
      var loaded := Load(w, storage[i]);
      if loaded.Ok? {
        fs := fs[i := Some(loaded.value)];
      } else if !(loaded.error == UnformattedDisk || (corruptedToo && loaded.error == CorruptedFormat)) {
        return false, fs, if loaded.error == DiskNotFound then None else Some(loaded.error);
      }
    }
    ready := true;
  }

  /** The disk has no format and can list its volumes. */
  predicate LostFormat(d: Disk) {
    (d.file == Err(FileNotFound) || d.file == Err(VolumeNotFound)) && d.vols.Ok?
  }

  function UserVols(vols: seq<string>): set<string> {
    (set v | v in vols) - {META_BUCKET}
  }

  predicate Distinct(vols: seq<string>) {
    forall i, k | 0 <= i < k < |vols| :: vols[i] != vols[k]
  }

  /** The disks without the one in position `i`. */
  function Without(storage: Disks, i: nat): (r: Disks)
    requires i < |storage|
    ensures |r| == |storage| - 1 && forall k | 0 <= k < |r| :: r[k] == if k < i then storage[k] else storage[k + 1]
  {
    storage[..i] + storage[i + 1..]
  }

  lemma OthersHealable(w: World, storage: Disks, corruptedToo: bool, i: nat)
    requires i < |storage| && Healable(Load(w, storage[i]), corruptedToo)
    ensures AllHealable(w, storage, corruptedToo) <==> AllHealable(w, Without(storage, i), corruptedToo)
  {
    var others := Without(storage, i);
    if AllHealable(w, others, corruptedToo) {
      forall k | 0 <= k < |storage| && k != i ensures Healable(Load(w, storage[k]), corruptedToo) {
        assert storage[k] == others[if k < i then k else k - 1];
      }
    }
  }

  lemma {:induction false} OthersBlock(w: World, storage: Disks, corruptedToo: bool, i: nat, from: nat)
    requires from <= i < |storage| && Healable(Load(w, storage[i]), corruptedToo)
    ensures Blocker(w, storage, corruptedToo, from) == Blocker(w, Without(storage, i), corruptedToo, from)
    decreases i - from
  {
    if from < i {
      assert Without(storage, i)[from] == storage[from];
      OthersBlock(w, storage, corruptedToo, i, from + 1);
    } else {
      BlockerShifts(w, storage, corruptedToo, i, i);
    }
  }

  lemma {:induction false} BlockerShifts(w: World, storage: Disks, corruptedToo: bool, i: nat, from: nat)
    requires i <= from < |storage|
    ensures Blocker(w, Without(storage, i), corruptedToo, from) == Blocker(w, storage, corruptedToo, from + 1)
    decreases |storage| - from
  {
    if from + 1 < |storage| {
      assert Without(storage, i)[from] == storage[from + 1];
      BlockerShifts(w, storage, corruptedToo, i, from + 1);
    }
  }

  lemma VolumeCount(vols: seq<string>)
    requires Distinct(vols)
    ensures |vols| == |UserVols(vols)| + if META_BUCKET in vols then 1 else 0
  {
    var all := set v | v in vols;
    DistinctCount(vols);
    if META_BUCKET in vols {
      assert all == UserVols(vols) + {META_BUCKET};
    } else {
      assert all == UserVols(vols);
    }
  }

  lemma {:induction false} DistinctCount(vols: seq<string>)
    requires Distinct(vols)
    ensures |set v | v in vols| == |vols|
  {
    if vols != [] {
      var n := |vols| - 1;
      DistinctCount(vols[..n]);
      assert (set v | v in vols) == (set v | v in vols[..n]) + {vols[n]};
    }
  }

  /**
    A disk that lost its format and has no user volumes never stops a heal of fresh disks. One with user volumes
    stops it exactly if its meta volume is still there or the user volumes are more than one.
   */
  lemma LostFormatStopsIff(w: World, storage: Disks, i: nat, d: DiskId)
    requires i < |storage| && storage[i] == Some(d) && d in w && LostFormat(w[d]) && Distinct(w[d].vols.value)
    ensures var vols := w[d].vols.value;
            if UserVols(vols) == {} || (META_BUCKET !in vols && |UserVols(vols)| == 1)
            then (AllHealable(w, storage, false) <==> AllHealable(w, Without(storage, i), false))
                 && Blocker(w, storage, false, 0) == Blocker(w, Without(storage, i), false, 0)
            else !AllHealable(w, storage, false) && Load(w, storage[i]) == Err(CorruptedFormat)
  {
    VolumeCount(w[d].vols.value);
    if Healable(Load(w, storage[i]), false) {
      OthersHealable(w, storage, false, i);
      OthersBlock(w, storage, false, i, 0);
    }
  }

  /** A disk that lost its meta volume and has one volume of user data counts as fresh. */
  lemma OneVolumeLooksFresh(name: string)
    requires name != META_BUCKET
    ensures var d := Disk(Err(VolumeNotFound), Ok([name]), map[], map[], true);
            UserVols(d.vols.value) == {name} && LoadFormat(d) == Err(UnformattedDisk)
  {
  }

  predicate AllFound(fs: Formats) {
    forall i | 0 <= i < |fs| :: fs[i].Some?
  }

  predicate NoneFound(fs: Formats) {
    forall i | 0 <= i < |fs| :: fs[i].None?
  }

  method IsFormatFound(fs: Formats) returns (found: bool)
    ensures found == AllFound(fs)
  {
    for i := 0 to |fs|
      invariant forall k | 0 <= k < i :: fs[k].Some?
    {
      if fs[i].None? { return false; }
    }
    return true;
  }

  method IsFormatNotFound(fs: Formats) returns (missing: bool)
    ensures missing == NoneFound(fs)
  {
    for i := 0 to |fs|
      invariant forall k | 0 <= k < i :: fs[k].None?
    {
      if fs[i].Some? { return false; }
    }
    return true;
  }

  // ------------------------------------------------------------ new uuids, new slots

  /** Slots without a disk get a new uuid. */
  function NewJbod(slots: Disks, jbod: seq<string>, uuids: seq<string>): (r: seq<string>)
    requires |slots| == |jbod| == |uuids|
    ensures |r| == |slots| && forall j | 0 <= j < |slots| :: r[j] == if slots[j].None? then uuids[j] else jbod[j]
  {
    seq(|slots|, j requires 0 <= j < |slots| => if slots[j].None? then uuids[j] else jbod[j])
  }

  method FillUuids(slots: Disks, jbod: seq<string>, uuids: seq<string>) returns (newJBOD: seq<string>)
    requires |slots| == |jbod| == |uuids|
    ensures newJBOD == NewJbod(slots, jbod, uuids)
  {
    newJBOD := jbod;
    for j := 0 to |slots|
      invariant |newJBOD| == |jbod|
      invariant forall k | 0 <= k < |jbod| :: newJBOD[k] == if k < j && slots[k].None? then uuids[k] else jbod[k]
    {
      if slots[j].None? { newJBOD := newJBOD[j := uuids[j]]; }
    }
  }

  ghost predicate Keeps(slots: Disks, ordered: Disks) {
    |ordered| == |slots| && forall j | 0 <= j < |slots| && slots[j].Some? :: ordered[j] == slots[j]
  }

  /** The disks with a format, and those without among the first `i`. */
  ghost function Done(fs: Formats, i: nat): set<nat> {
    set k: nat | k < |fs| && (fs[k].Some? || k < i)
  }

  lemma DoneNext(fs: Formats, i: nat)
    requires i < |fs|
    ensures if fs[i].Some? then Done(fs, i + 1) == Done(fs, i)
            else i !in Done(fs, i) && Done(fs, i + 1) == Done(fs, i) + {i}
  {
  }

  lemma DoneFirst(fs: Formats)
    ensures Done(fs, 0) == Formatted(fs, |fs|)
  {
  }

  lemma DoneLast(fs: Formats)
    ensures |Done(fs, |fs|)| == |fs|
  {
    assert Done(fs, |fs|) == Upto(|fs|);
  }

  method FirstHole(ordered: Disks) returns (j: nat)
    ensures j <= |ordered| && (j < |ordered| ==> ordered[j].None?)
            && (j == |ordered| ==> forall k | 0 <= k < |ordered| :: ordered[k].Some?)
  {
    j := 0;
    while j < |ordered| && ordered[j].Some?
      invariant j <= |ordered| && forall k | 0 <= k < j :: ordered[k].Some?
    {
      j := j + 1;
    }
  }

  /** While a disk is not placed there is an empty slot. */
  lemma StillAHole(storage: Disks, ordered: Disks, done: set<nat>, i: nat)
    requires Partway(storage, ordered, done) && i < |storage| && i !in done
    ensures exists j | 0 <= j < |ordered| :: ordered[j].None?
  {
    OneLess(Upto(|storage|), i);
    Smaller(done, Upto(|storage|) - {i});
    NoHoles(ordered, |ordered|);
  }

  /** A slot that changed was given to a disk without a format. */
  ghost predicate OnlyMissing(storage: Disks, fs: Formats, slots: Disks, ordered: Disks)
    requires |storage| == |fs| && |slots| == |ordered|
  {
    forall j | 0 <= j < |slots| && ordered[j] != slots[j] :: exists k | 0 <= k < |fs| ::
        fs[k].None?
        && ordered[j] == storage[k]
  }

  /** Each disk without a format goes to the first empty slot. */
  method FillMissing(storage: Disks, fs: Formats, slots: Disks) returns (ordered: Disks)
    requires |storage| == |fs| == |slots|
    ensures Keeps(slots, ordered) && OnlyMissing(storage, fs, slots, ordered)
    ensures Supplied(storage) && Partway(storage, slots, Formatted(fs, |fs|)) ==> Arranged(storage, ordered)
  {
    ordered := slots;
    ghost var sound := Supplied(storage) && Partway(storage, slots, Formatted(fs, |fs|));
    DoneFirst(fs);
    for i := 0 to |fs|
      invariant Keeps(slots, ordered) && OnlyMissing(storage, fs, slots, ordered)
      invariant sound ==> Partway(storage, ordered, Done(fs, i))
    {
      DoneNext(fs, i);
      if fs[i].None? {
        ghost var was := ordered;
        ordered := PutInFirstHole(storage, ordered, i, slots, Done(fs, i), sound);
        forall j | 0 <= j < |slots| && ordered[j] != slots[j]
          ensures exists k | 0 <= k < |fs| :: fs[k].None? && ordered[j] == storage[k]
        {
          if ordered[j] == was[j] { assert was[j] != slots[j]; }
        }
      }
    }
    DoneLast(fs);
    if sound { AllPlaced(storage, ordered, Done(fs, |fs|)); }
  }

  method PutInFirstHole(storage: Disks, ordered: Disks, i: nat, ghost slots: Disks, ghost done: set<nat>,
                        ghost sound: bool) returns (ordered': Disks)
    requires i < |storage| && Keeps(slots, ordered)
    requires sound ==> Supplied(storage) && Partway(storage, ordered, done) && i !in done
    ensures Keeps(slots, ordered') && forall j | 0 <= j < |ordered| ::
            ordered'[j] == ordered[j]
            || ordered'[j] == storage[i]
    ensures sound ==> Partway(storage, ordered', done + {i})
  {
    var j := FirstHole(ordered);
    ordered' := ordered;
    if sound { StillAHole(storage, ordered, done, i); }
    if j < |ordered| {
      ordered' := ordered[j := storage[i]];
      if sound { PlaceOne(storage, ordered, done, i, j); }
    }
  }
}
