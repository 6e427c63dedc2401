/**
  The formatting and healing operations on the disks themselves
  (cmd/format-config-v1.go, `saveFormatXL`, `initFormatXL` and the two heals).
 */
module FormatStore {
  import opened Wrappers
  import opened Format
  import opened FormatLoad
  import opened FormatSlots
  import opened FormatHeal
  import opened FormatInspect

  function NewFormat(jbod: seq<string>, j: nat): FormatConfig
    requires j < |jbod|
  {
    FormatConfig("1", "xl", "1", jbod[j], jbod)
  }

  predicate Writable(w: World, d: Option<DiskId>) {
    d.Some? && d.value in w && w[d.value].writable
  }

  /** The disks after the formats of the first `k` slots were written; a disk that fails keeps what it has. */
  function Saved(w: World, ordered: Disks, jbod: seq<string>, k: nat): World
    requires k <= |ordered| == |jbod|
  {
    if k == 0 then w
    else
      var was := Saved(w, ordered, jbod, k - 1);
      var d := ordered[k - 1];
      if Writable(was, d) then was[d.value := was[d.value].(file := Ok(NewFormat(jbod, k - 1)))] else was
  }

  lemma {:induction false} SavedWritable(w: World, ordered: Disks, jbod: seq<string>, k: nat, d: Option<DiskId>)
    requires k <= |ordered| == |jbod|
    ensures Writable(Saved(w, ordered, jbod, k), d) == Writable(w, d)
  {
    if k > 0 {
      SavedWritable(w, ordered, jbod, k - 1, d);
    }
  }

  lemma {:induction false} SavedAt(w: World, ordered: Disks, jbod: seq<string>, k: nat, j: nat)
    requires k <= |ordered| == |jbod| && j < k && DistinctDisks(ordered) && Writable(w, ordered[j])
    ensures Load(Saved(w, ordered, jbod, k), ordered[j]) == Ok(NewFormat(jbod, j))
  {
    SavedWritable(w, ordered, jbod, k, ordered[j]);
    if j == k - 1 {
      SavedWritable(w, ordered, jbod, k - 1, ordered[j]);
    } else {
      SavedAt(w, ordered, jbod, k - 1, j);
    }
  }

  /** Every slot's disk carries the slot's uuid and the one list of all of them. */
  ghost predicate WellFormatted(w: World, ordered: Disks, jbod: seq<string>) {
    && Supplied(ordered) && |jbod| == |ordered| && (forall i, k | 0 <= i < k < |jbod| :: jbod[i] != jbod[k])
    && forall j | 0 <= j < |ordered| :: Load(w, ordered[j]) == Ok(NewFormat(jbod, j))
  }

  lemma SavedIsWell(w: World, ordered: Disks, jbod: seq<string>)
    requires Supplied(ordered) && |jbod| == |ordered| && (forall i, k | 0 <= i < k < |jbod| :: jbod[i] != jbod[k])
    requires forall j | 0 <= j < |ordered| :: Writable(w, ordered[j])
    ensures WellFormatted(Saved(w, ordered, jbod, |ordered|), ordered, jbod)
  {
    var w' := Saved(w, ordered, jbod, |ordered|);
    forall j | 0 <= j < |ordered| ensures Load(w', ordered[j]) == Ok(NewFormat(jbod, j)) {
      SavedWritable(w, ordered, jbod, |ordered|, ordered[j]);
      SavedAt(w, ordered, jbod, |ordered|, j);
    }
  }

  lemma {:induction false} NoErrors(w: World, b: Disks, k: nat, e: FormatError)
    requires k <= |b| && forall i | 0 <= i < k :: Load(w, b[i]).Ok?
    ensures Count(w, b, k, e) == 0
  {
    if k > 0 { NoErrors(w, b, k - 1, e); }
  }

  /** A well formatted set loads, and every disk gets the slot it was given. */
  lemma WellLoads(w: World, ordered: Disks, jbod: seq<string>, readQuorum: int)
    requires WellFormatted(w, ordered, jbod) && |ordered| > 0 && readQuorum <= |ordered|
    ensures Loadable(w, ordered, readQuorum) && DistinctUuids(FormatsOf(w, ordered)) && Slots(w, ordered) == ordered
  {
    var fs := FormatsOf(w, ordered);
    assert forall j | 0 <= j < |ordered| :: fs[j] == Some(NewFormat(jbod, j));
    NoErrors(w, ordered, |ordered|, UnformattedDisk);
    NoErrors(w, ordered, |ordered|, CorruptedFormat);
    NoErrors(w, ordered, |ordered|, DiskNotFound);
    SavedIsSome(fs, 0);
    forall j | 0 <= j < |ordered| ensures Slots(w, ordered)[j] == ordered[j] {
      EachInItsSlot(ordered, fs, j);
      assert Index(jbod, jbod[j]) == j;
    }
  }

  /** Loading gives back the same slots whatever order the disks come in afterwards. */
  lemma WellLoadsInAnyOrder(w: World, ordered: Disks, jbod: seq<string>, p: seq<nat>, readQuorum: int)
    requires WellFormatted(w, ordered, jbod) && |ordered| > 0 && readQuorum <= |ordered| && Permutes(p, |ordered|)
    ensures Loadable(w, Shuffled(ordered, p), readQuorum) && Slots(w, Shuffled(ordered, p)) == ordered
  {
    WellLoads(w, ordered, jbod, readQuorum);
    OrderIndependent(w, ordered, p, readQuorum);
  }

  // ------------------------------------------------------------ operations

  function InitJbod(storage: Disks, uuids: seq<string>): (r: seq<string>)
    requires |storage| == |uuids|
    ensures |r| == |storage| && forall j | 0 <= j < |storage| :: r[j] == if storage[j].Some? then uuids[j] else ""
  {
    seq(|storage|, j requires 0 <= j < |storage| => if storage[j].Some? then uuids[j] else "")
  }

  predicate AllWritable(w: World, ordered: Disks) {
    forall j | 0 <= j < |ordered| && ordered[j].Some? :: Writable(w, ordered[j])
  }

  /**
    What a heal that gets past its early returns does: slots kept, new uuids in the empty ones, all
    disks placed and written.
   */
  ghost predicate HealedTo(w: World, storage: Disks, uuids: seq<string>, ordered: Disks, w': World)
    requires |uuids| == |storage| && Consistent(FormatsOf(w, storage)) && !NoneFound(FormatsOf(w, storage))
  {
    var fs := FormatsOf(w, storage);
    var jbod := SavedJbod(fs);
    JbodSized(fs);
    var slots := Placed(storage, fs, jbod);
    && Keeps(slots, ordered)
    && w' == Saved(w, ordered, NewJbod(slots, jbod, uuids), |ordered|)
  }

  lemma JbodSized(fs: Formats)
    requires Consistent(fs) && !NoneFound(fs)
    ensures |SavedJbod(fs)| == |fs|
  {
    SavedIsOneOf(fs);
  }

  class Storage {
    var disks: World

    constructor (w: World)
      ensures disks == w
    {
      disks := w;
    }

    /** Writes the formats in slot order; every disk is tried. */
    method SaveFormatXL(ordered: Disks, jbod: seq<string>) returns (err: Option<FormatError>)
      requires |jbod| == |ordered|
      modifies this
      ensures disks == Saved(old(disks), ordered, jbod, |ordered|)
      ensures err.None? <==> AllWritable(old(disks), ordered)
    {
      err := None;
      for j := 0 to |ordered|
        invariant disks == Saved(old(disks), ordered, jbod, j)
        invariant err.None? <==> forall k | 0 <= k < j && ordered[k].Some? :: Writable(old(disks), ordered[k])
      {
        if ordered[j].Some? {
          SavedWritable(old(disks), ordered, jbod, j, ordered[j]);
          if Writable(disks, ordered[j]) {
            disks := disks[ordered[j].value := disks[ordered[j].value].(file := Ok(NewFormat(jbod, j)))];
          } else if err.None? {
            err := Some(OtherError);
          }
        }
      }
    }

    method InitFormatXL(storage: Disks, uuids: seq<string>) returns (err: Option<FormatError>)
      requires |uuids| == |storage|
      modifies this
      ensures disks == Saved(old(disks), storage, InitJbod(storage, uuids), |storage|)
      ensures err.None? <==> AllWritable(old(disks), storage)
    {
      var jbod := seq(|storage|, _ => "");
      for j := 0 to |storage|
        invariant |jbod| == |storage| && disks == old(disks)
        invariant forall k | 0 <= k < |storage| :: jbod[k] == if k < j && storage[k].Some? then uuids[k] else ""
      {
        if storage[j].Some? { jbod := jbod[j := uuids[j]]; }
      }
      assert jbod == InitJbod(storage, uuids);
      err := SaveFormatXL(storage, jbod);
    }

    /** Heals disks that are fresh. */
    method HealFormatXLFreshDisks(storage: Disks, uuids: seq<string>)
      returns (err: Option<FormatError>, ghost ordered: Disks)
      requires |uuids| == |storage|
      modifies this
      ensures var w, fs := old(disks), FormatsOf(old(disks), storage);
              if !AllHealable(w, storage, false) then disks == w && err == Blocker(w, storage, false, 0)
              else if AllFound(fs) then disks == w && err == None
              else if NoneFound(fs) then disks == Saved(w, storage, InitJbod(storage, uuids), |storage|)
              && (err.None? <==> AllWritable(w, storage))
              else if !Consistent(fs) || !Recognized(fs) then disks == w && err.Some?
              else && HealedTo(w, storage, uuids, ordered, disks) && (err.None? <==> AllWritable(w, ordered))
                   && OnlyMissing(storage, fs, Placed(storage, fs, SavedJbod(fs)), ordered)
                   && (Supplied(storage) ==> (Arranged(storage, ordered) <==> DistinctUuids(fs)))
    {
      ordered := [];
      var ready, fs, blocked := LoadForHeal(disks, storage, false);
      if !ready { return blocked, []; }
      var found := IsFormatFound(fs);
      if found { return None, []; }
      var missing := IsFormatNotFound(fs);
      if missing {
        err := InitFormatXL(storage, uuids);
        return;
      }
      var placed := CheckAndPlace(storage, fs);
      if placed.Err? { return Some(placed.error), []; }
      JbodSized(fs);
      var jbod := FirstJbod(fs);
      var newJBOD := FillUuids(placed.value, jbod, uuids);
      var filled := FillMissing(storage, fs, placed.value);
      ordered := filled;
      ghost var done := PlacedIsPartway(storage, fs);
      if Supplied(storage) && !DistinctUuids(fs) { RepeatedIsLost(storage, fs, filled); }
      err := SaveFormatXL(filled, newJBOD);
    }

    /** Heals disks that lost their format too: those with objects go where their metadata says. */
    method HealFormatXLCorruptedDisks(storage: Disks, uuids: seq<string>)
      returns (err: Option<FormatError>, ghost ordered: Disks)
      requires |uuids| == |storage|
      modifies this
      ensures var w, fs := old(disks), FormatsOf(old(disks), storage);
              if !AllHealable(w, storage, true) then disks == w && err == Blocker(w, storage, true, 0)
              else if AllFound(fs) then disks == w && err == None
              else if NoneFound(fs) then disks == Saved(w, storage, InitJbod(storage, uuids), |storage|)
              && (err.None? <==> AllWritable(w, storage))
              else if !Consistent(fs) || !Recognized(fs) then disks == w && err.Some?
              else var inspected := Inspected(w, fs, storage, Placed(storage, fs, SavedJbod(fs)), |fs|);
                   if inspected.Err? then disks == w && err == Some(inspected.error)
                   else && HealedTo(w, storage, uuids, ordered, disks) && (err.None? <==> AllWritable(w, ordered))
                        && InNamedSlots(w, fs, storage, ordered, |fs|)
                        && (Supplied(storage) ==> Arranged(storage, ordered))
    {
      ordered := [];
      var ready, fs, blocked := LoadForHeal(disks, storage, true);
      if !ready { return blocked, []; }
      var found := IsFormatFound(fs);
      if found { return None, []; }
      var missing := IsFormatNotFound(fs);
      if missing {
        err := InitFormatXL(storage, uuids);
        return;
      }
      var placed := CheckAndPlace(storage, fs);
      if placed.Err? { return Some(placed.error), []; }
      JbodSized(fs);
      var jbod := FirstJbod(fs);
      var newJBOD := FillUuids(placed.value, jbod, uuids);
      ghost var done := PlacedIsPartway(storage, fs);
      HealableAreThere(disks, storage, true);
      var arranged := PlaceRest(disks, storage, fs, placed.value, done);
      if arranged.Err? { return Some(arranged.error), []; }
      ordered := arranged.value;
      err := SaveFormatXL(arranged.value, newJBOD);
    }
  }

  lemma HealableAreThere(w: World, storage: Disks, corruptedToo: bool)
    requires AllHealable(w, storage, corruptedToo)
    ensures forall i | 0 <= i < |storage| :: storage[i].Some?
  {
    assert forall i | 0 <= i < |storage| :: Healable(Load(w, storage[i]), corruptedToo);
  }

  /** By inspection first; then the disks that are still unused. */
  method PlaceRest(w: World, storage: Disks, fs: Formats, slots: Disks, ghost done0: set<nat>)
    returns (r: Result<Disks, FormatError>)
    requires |slots| == |fs| == |storage| && (forall i | 0 <= i < |storage| :: storage[i].Some?)
    requires forall i | i in done0 :: i < |fs| && fs[i].Some?
    ensures r.Err? <==> Inspected(w, fs, storage, slots, |fs|).Err?
    ensures r.Err? ==> r.error == Inspected(w, fs, storage, slots, |fs|).error
    ensures r.Ok? ==> Keeps(slots, r.value) && InNamedSlots(w, fs, storage, r.value, |fs|)
    ensures r.Ok? && Supplied(storage) && Partway(storage, slots, done0) ==> Arranged(storage, r.value)
  {
    r := ReorderDisksByInspection(w, slots, storage, fs);
    if r.Err? { return; }
    var ordered := r.value;
    var _, notInUse := SplitDisksByUse(storage, ordered);
    ghost var sound := Supplied(storage) && Partway(storage, slots, done0);
    ghost var done := InspectedPlaces(w, fs, storage, slots, |fs|, done0, sound);
    if sound { UnusedToPlace(storage, ordered, done); }
    var all := AssignRest(storage, ordered, notInUse, done, Numbers(storage, ordered, |storage|, false), sound);
    NamedStay(w, fs, storage, ordered, all);
    r := Ok(all);
  }

  lemma NamedStay(w: World, fs: Formats, storage: Disks, slots: Disks, ordered: Disks)
    requires |fs| == |storage| == |slots| && Keeps(slots, ordered) && InNamedSlots(w, fs, storage, slots, |fs|)
    requires forall i | 0 <= i < |storage| :: storage[i].Some?
    ensures InNamedSlots(w, fs, storage, ordered, |fs|)
  {
  }

  lemma PlacedIsPartway(storage: Disks, fs: Formats) returns (done: set<nat>)
    requires |fs| == |storage| && Consistent(fs) && Recognized(fs) && !NoneFound(fs)
    ensures forall i | i in done :: i < |fs| && fs[i].Some?
    ensures Supplied(storage) ==>
                Partway(storage, Placed(storage, fs, SavedJbod(fs)), done)
                && FromFormats(fs, |fs|, done, DistinctUuids(fs))
  {
    JbodSized(fs);
    done := {};
    if Supplied(storage) { done := PlacedPartway(storage, fs, SavedJbod(fs)); }
  }

  // ------------------------------------------------------------ what a heal achieves

  /** New uuids are new: different from each other and from all saved ones. */
  predicate Fresh(uuids: seq<string>, jbod: seq<string>) {
    && (forall i, k | 0 <= i < k < |uuids| :: uuids[i] != uuids[k])
    && (forall i | 0 <= i < |uuids| :: uuids[i] !in jbod)
  }

  lemma {:induction false} OccupiedBy(b: Disks, fs: Formats, jbod: seq<string>, k: nat, j: nat) returns (i: nat)
    requires k <= |fs| == |b| && Occupant(b, fs, jbod, k, j).Some?
    ensures i < k && fs[i].Some? && Index(jbod, fs[i].value.disk) == j && Occupant(b, fs, jbod, k, j) == b[i]
  {
    if fs[k - 1].Some? && Index(jbod, fs[k - 1].value.disk) == j { return k - 1; }
    i := OccupiedBy(b, fs, jbod, k - 1, j);
  }

  /** An occupied slot's uuid is listed there first. */
  lemma OccupiedIsFirst(b: Disks, fs: Formats, jbod: seq<string>, j: nat)
    requires |fs| == |b| == |jbod| && j < |b| && AllListed(fs, jbod) && Placed(b, fs, jbod)[j].Some?
    ensures Index(jbod, jbod[j]) == j
  {
    var i := OccupiedBy(b, fs, jbod, |fs|, j);
  }

  lemma NewJbodDistinct(b: Disks, fs: Formats, jbod: seq<string>, uuids: seq<string>)
    requires |fs| == |b| == |jbod| == |uuids| && AllListed(fs, jbod) && Fresh(uuids, jbod)
    ensures var nj := NewJbod(Placed(b, fs, jbod), jbod, uuids); forall i, k | 0 <= i < k < |nj| :: nj[i] != nj[k]
  {
    var slots := Placed(b, fs, jbod);
    forall i, k | 0 <= i < k < |b| ensures NewJbod(slots, jbod, uuids)[i] != NewJbod(slots, jbod, uuids)[k] {
      if slots[i].Some? { OccupiedIsFirst(b, fs, jbod, i); }
      if slots[k].Some? { OccupiedIsFirst(b, fs, jbod, k); }
    }
  }

  /** After a heal that gave every supplied disk a slot, each has the slot's uuid and the one list on it. */
  lemma HealedIsWell(w: World, storage: Disks, uuids: seq<string>, ordered: Disks, w': World)
    requires |uuids| == |storage| && Consistent(FormatsOf(w, storage)) && Recognized(FormatsOf(w, storage))
             && !NoneFound(FormatsOf(w, storage))
    requires Arranged(storage, ordered) && Fresh(uuids, SavedJbod(FormatsOf(w, storage)))
    requires HealedTo(w, storage, uuids, ordered, w') && AllWritable(w, ordered)
    ensures exists jbod :: WellFormatted(w', ordered, jbod)
  {
    var fs := FormatsOf(w, storage);
    JbodSized(fs);
    var jbod := SavedJbod(fs);
    var nj := NewJbod(Placed(storage, fs, jbod), jbod, uuids);
    NewJbodDistinct(storage, fs, jbod, uuids);
    SavedIsWell(w, ordered, nj);
  }

  /** Of two disks with one uuid the one that was placed first has no slot and gets none from a heal of fresh disks. */
  lemma OverwrittenIsLost(storage: Disks, fs: Formats, ordered: Disks, i: nat, last: nat)
    requires |fs| == |storage| == |ordered| && Supplied(storage) && Consistent(fs) && Recognized(fs)
    requires OnlyMissing(storage, fs, Placed(storage, fs, SavedJbod(fs)), ordered)
    requires i < |fs| && last < |fs| && i != last && fs[i].Some? && fs[last].Some?
             && fs[i].value.disk == fs[last].value.disk
    requires forall m | last < m < |fs| && fs[m].Some? :: fs[m].value.disk != fs[last].value.disk
    ensures storage[i] !in ordered
  {
    var jbod := SavedJbod(fs);
    var slots := Placed(storage, fs, jbod);
    forall m | 0 <= m < |ordered| ensures ordered[m] != storage[i] {
      if ordered[m] == slots[m] && slots[m].Some? {
        var x := OccupiedBy(storage, fs, jbod, |fs|, m);
        LastKeeps(storage, fs, jbod, last);
      }
    }
  }

  /** So with a repeated uuid such a heal does not give every disk a slot. */
  lemma RepeatedIsLost(storage: Disks, fs: Formats, ordered: Disks)
    requires |fs| == |storage| == |ordered| && Supplied(storage) && Consistent(fs) && Recognized(fs)
    requires OnlyMissing(storage, fs, Placed(storage, fs, SavedJbod(fs)), ordered) && !DistinctUuids(fs)
    ensures !Arranged(storage, ordered)
  {
    var i, k :| 0 <= i < k < |fs| && fs[i].Some? && fs[k].Some? && fs[i].value.disk == fs[k].value.disk;
    var last := LastWith(fs, fs[i].value.disk, |fs|);
    OverwrittenIsLost(storage, fs, ordered, i, last);
    assert storage[i] in storage;
  }

  /** Disks that had a format keep their uuid and their slot. */
  lemma HealedKeepsFormatted(w: World, storage: Disks, uuids: seq<string>, ordered: Disks, w': World, i: nat)
    requires |uuids| == |storage| && Consistent(FormatsOf(w, storage)) && Recognized(FormatsOf(w, storage))
             && !NoneFound(FormatsOf(w, storage))
    requires DistinctUuids(FormatsOf(w, storage)) && HealedTo(w, storage, uuids, ordered, w')
             && Arranged(storage, ordered) && AllWritable(w, ordered)
    requires i < |storage| && FormatsOf(w, storage)[i].Some?
    ensures var uuid := FormatsOf(w, storage)[i].value.disk; var j := Index(SavedJbod(FormatsOf(w, storage)), uuid);
            && j < |ordered| && ordered[j] == storage[i]
            && Load(w', storage[i]).Ok? && Load(w', storage[i]).value.disk == uuid
  {
    var fs := FormatsOf(w, storage);
    JbodSized(fs);
    var jbod := SavedJbod(fs);
    EachInItsSlot(storage, fs, i);
    var j := Index(jbod, fs[i].value.disk);
    SavedAt(w, ordered, NewJbod(Placed(storage, fs, jbod), jbod, uuids), |ordered|, j);
  }

  /** No two disks of a well formatted set carry one uuid. */
  lemma WellIsDistinct(w: World, ordered: Disks, jbod: seq<string>, i: nat, k: nat)
    requires WellFormatted(w, ordered, jbod) && i < |ordered| && k < |ordered| && i != k
    ensures Load(w, ordered[i]).value.disk != Load(w, ordered[k]).value.disk
  {
  }

  /** Every disk that had a format still has its uuid. */
  ghost predicate KeepsUuids(w: World, storage: Disks, w': World) {
    forall i | 0 <= i < |storage| && FormatsOf(w, storage)[i].Some? ::
      Load(w', storage[i]).Ok? && Load(w', storage[i]).value.disk == FormatsOf(w, storage)[i].value.disk
  }

  /**
    A heal that gave every disk a slot, as a heal of corrupted disks always does, leaves the formatted disks their
    uuids exactly if no two of them carry one.
   */
  lemma HealKeepsUuidsIff(w: World, storage: Disks, uuids: seq<string>, ordered: Disks, w': World)
    requires |uuids| == |storage| && Consistent(FormatsOf(w, storage)) && Recognized(FormatsOf(w, storage))
             && !NoneFound(FormatsOf(w, storage))
    requires Supplied(storage) && Arranged(storage, ordered) && Fresh(uuids, SavedJbod(FormatsOf(w, storage)))
    requires HealedTo(w, storage, uuids, ordered, w') && AllWritable(w, ordered)
    ensures KeepsUuids(w, storage, w') <==> DistinctUuids(FormatsOf(w, storage))
  {
    var fs := FormatsOf(w, storage);
    if DistinctUuids(fs) {
      forall i | 0 <= i < |storage| && fs[i].Some?
        ensures Load(w', storage[i]).Ok? && Load(w', storage[i]).value.disk == fs[i].value.disk
      {
        HealedKeepsFormatted(w, storage, uuids, ordered, w', i);
      }
    } else {
      HealedIsWell(w, storage, uuids, ordered, w');
      var jbod :| WellFormatted(w', ordered, jbod);
      var i, k :| 0 <= i < k < |fs| && fs[i].Some? && fs[k].Some? && fs[i].value.disk == fs[k].value.disk;
      assert storage[i] in storage && storage[k] in storage && storage[i] != storage[k];
      var a :| 0 <= a < |ordered| && ordered[a] == storage[i];
      var b :| 0 <= b < |ordered| && ordered[b] == storage[k];
      WellIsDistinct(w', ordered, jbod, a, b);
    }
  }

  /** Healed disks load again, in whatever order, and give every disk the slot it was healed into. */
  lemma HealThenLoad(w: World, storage: Disks, uuids: seq<string>, ordered: Disks, w': World, p: seq<nat>,
                     readQuorum: int)
    requires |uuids| == |storage| && Consistent(FormatsOf(w, storage)) && Recognized(FormatsOf(w, storage))
             && !NoneFound(FormatsOf(w, storage))
    requires Arranged(storage, ordered) && Fresh(uuids, SavedJbod(FormatsOf(w, storage)))
    requires HealedTo(w, storage, uuids, ordered, w') && AllWritable(w, ordered)
    requires Permutes(p, |ordered|) && readQuorum <= |ordered|
    ensures Loadable(w', Shuffled(ordered, p), readQuorum) && Slots(w', Shuffled(ordered, p)) == ordered
  {
    HealedIsWell(w, storage, uuids, ordered, w');
    var jbod :| WellFormatted(w', ordered, jbod);
    WellLoadsInAnyOrder(w', ordered, jbod, p, readQuorum);
  }

  /** A set that was just formatted loads with every disk where it was given. */
  lemma InitThenLoad(w: World, storage: Disks, uuids: seq<string>, p: seq<nat>, readQuorum: int)
    requires |uuids| == |storage| > 0 && Supplied(storage) && Fresh(uuids, []) && AllWritable(w, storage)
    requires Permutes(p, |storage|) && readQuorum <= |storage|
    ensures var w' := Saved(w, storage, InitJbod(storage, uuids), |storage|);
            Loadable(w', Shuffled(storage, p), readQuorum) && Slots(w', Shuffled(storage, p)) == storage
  {
    SavedIsWell(w, storage, InitJbod(storage, uuids));
    WellLoadsInAnyOrder(Saved(w, storage, InitJbod(storage, uuids), |storage|), storage, InitJbod(storage, uuids), p,
                        readQuorum);
  }
}
