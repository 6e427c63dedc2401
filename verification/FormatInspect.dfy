/**
  Finding the slots of disks that lost their format but still have objects, and giving the
  rest to the unused disks (cmd/format-config-v1.go, `reorderDisksByInspection`,
  `splitDisksByUse` and the loop behind it).
 */
module FormatInspect {
  import opened Wrappers
  import opened Sets
  import opened Format
  import opened FormatLoad
  import opened FormatSlots
  import opened FormatHeal

  /** The first volume that is not the meta bucket. */
  function UserVolume(vols: seq<string>): string {
    if vols == [] then "" else if vols[0] != META_BUCKET then vols[0] else UserVolume(vols[1..])
  }

  /** The metadata of the first object of the first volume, if there is any. */
  function Inspect(d: Disk): Result<Option<XlMeta>, FormatError> {
    if d.vols.Err? then Err(d.vols.error)
    else
      var vol := UserVolume(d.vols.value);
      if vol == "" then Ok(None)
      else if vol !in d.dirs then Err(VolumeNotFound)
      else if d.dirs[vol].Err? then Err(d.dirs[vol].error)
      else if d.dirs[vol].value == [] then Ok(None)
      else
        var entry := d.dirs[vol].value[0];
        if (vol, entry) !in d.metas then Ok(None)
        else match d.metas[(vol, entry)]
             case Ok(m) => Ok(Some(m))
             case Err(e) => if e == FileNotFound then Ok(None) else Err(e)
  }

  /** Volume `k` is the first one that is not the meta bucket. */
  predicate FirstUserVolume(vols: seq<string>, k: nat) {
    k < |vols| && vols[k] != META_BUCKET && forall i | 0 <= i < k :: vols[i] == META_BUCKET
  }

  lemma {:induction false} UserVolumeIs(vols: seq<string>, k: nat)
    requires FirstUserVolume(vols, k)
    ensures UserVolume(vols) == vols[k]
  {
    if k > 0 {
      assert vols[1..][k - 1] == vols[k];
      assert forall i | 0 <= i < k - 1 :: vols[1..][i] == vols[i + 1];
      UserVolumeIs(vols[1..], k - 1);
    }
  }

  lemma {:induction false} NoUserVolume(vols: seq<string>)
    requires forall i | 0 <= i < |vols| :: vols[i] == META_BUCKET
    ensures UserVolume(vols) == ""
  {
    if vols != [] { NoUserVolume(vols[1..]); }
  }

  lemma {:induction false} UserVolumeFound(vols: seq<string>) returns (k: nat)
    requires exists i | 0 <= i < |vols| :: vols[i] != META_BUCKET
    ensures FirstUserVolume(vols, k)
  {
    if vols[0] != META_BUCKET { return 0; }
    assert exists i | 0 <= i < |vols[1..]| :: vols[1..][i] != META_BUCKET by {
      var i :| 0 <= i < |vols| && vols[i] != META_BUCKET;
      assert vols[1..][i - 1] == vols[i];
    }
    var j := UserVolumeFound(vols[1..]);
    assert forall i | 0 < i < |vols| :: vols[i] == vols[1..][i - 1];
    return j + 1;
  }

  /** Inspection finds the metadata of the first entry of the first volume that is not the meta bucket, if any. */
  lemma InspectExactly(d: Disk, m: XlMeta)
    requires d.vols.Ok? && "" !in d.vols.value
    ensures Inspect(d) == Ok(Some(m)) <==>
            exists k: nat | FirstUserVolume(d.vols.value, k) ::
              var vol := d.vols.value[k];
              && vol in d.dirs && d.dirs[vol].Ok? && d.dirs[vol].value != []
              && (vol, d.dirs[vol].value[0]) in d.metas && d.metas[(vol, d.dirs[vol].value[0])] == Ok(m)
  {
    var vols := d.vols.value;
    if exists i | 0 <= i < |vols| :: vols[i] != META_BUCKET {
      var k := UserVolumeFound(vols);
      UserVolumeIs(vols, k);
      assert vols[k] != "";
      assert forall j: nat | FirstUserVolume(vols, j) :: j == k;
    } else {
      NoUserVolume(vols);
      assert forall j: nat :: !FirstUserVolume(vols, j);
    }
  }

  function InspectAt(w: World, d: Option<DiskId>): Result<Option<XlMeta>, FormatError> {
    if d.Some? && d.value in w then Inspect(w[d.value]) else Err(DiskNotFound)
  }

  /** The last position of a block index in a distribution; -1 if it is not there. */
  function SlotOf(distribution: seq<int>, index: int, k: nat): (slot: int)
    requires k <= |distribution|
    ensures -1 <= slot < k && (slot >= 0 ==> distribution[slot] == index)
    ensures forall i | slot < i < k :: distribution[i] != index
  {
    if k == 0 then -1 else if distribution[k - 1] == index then k - 1 else SlotOf(distribution, index, k - 1)
  }

  function SlotNamed(m: XlMeta): (slot: int)
    ensures -1 <= slot < |m.distribution| && (slot == -1 <==> m.index !in m.distribution)
    ensures slot != -1 ==> m.distribution[slot] == m.index
  {
    SlotOf(m.distribution, m.index, |m.distribution|)
  }

  predicate HasObjects(w: World, fs: Formats, storage: Disks, i: nat)
    requires |fs| == |storage| && i < |fs|
  {
    fs[i].None? && InspectAt(w, storage[i]).Ok? && InspectAt(w, storage[i]).value.Some?
  }

  function MetaAt(w: World, fs: Formats, storage: Disks, i: nat): XlMeta
    requires |fs| == |storage| && i < |fs| && HasObjects(w, fs, storage, i)
  {
    InspectAt(w, storage[i]).value.value
  }

  /** Among the first `k`, disks with surviving objects are in the slots their metadata names. */
  ghost predicate InNamedSlots(w: World, fs: Formats, storage: Disks, ordered: Disks, k: nat)
    requires |fs| == |storage| == |ordered| && k <= |fs|
  {
    forall i | 0 <= i < k && HasObjects(w, fs, storage, i) ::
      var slot := SlotNamed(MetaAt(w, fs, storage, i)); 0 <= slot < |ordered| && ordered[slot] == storage[i]
  }

  method FindSlot(m: XlMeta) returns (diskIndex: int)
    ensures diskIndex == SlotNamed(m)
  {
    diskIndex := -1;
    for i := 0 to |m.distribution|
      invariant diskIndex == SlotOf(m.distribution, m.index, i)
    {
      if m.distribution[i] == m.index { diskIndex := i; }
    }
  }

  /** The slots after the first `k` disks were inspected, or why inspection stops. */
  function Inspected(w: World, fs: Formats, storage: Disks, slots: Disks, k: nat): (r: Result<Disks, FormatError>)
    requires |slots| == |fs| == |storage| && k <= |fs|
    ensures r.Ok? ==> |r.value| == |slots|
  {
    if k == 0 then Ok(slots)
    else
      var was := Inspected(w, fs, storage, slots, k - 1);
      if was.Err? then was else InspectedOne(w, fs, storage, was.value, k - 1)
  }

  function InspectedOne(w: World, fs: Formats, storage: Disks, ordered: Disks, i: nat): (r: Result<Disks, FormatError>)
    requires |ordered| == |fs| == |storage| && i < |fs|
    ensures r.Ok? ==> |r.value| == |ordered|
  {
    var found := InspectAt(w, storage[i]);
    if fs[i].Some? then Ok(ordered)
    else if found.Err? then Err(found.error)
    else if found.value.None? then Ok(ordered)
    else
      assert HasObjects(w, fs, storage, i) && MetaAt(w, fs, storage, i) == found.value.value;
      var slot := SlotNamed(found.value.value);
      if slot >= |ordered| then Err(IndexPanic)
      else if slot == -1 || ordered[slot].Some? then Err(CorruptedFormat)
      else Ok(ordered[slot := storage[i]])
  }

  /** Placing one more disk keeps what is in its named slot there. */
  lemma NamedKept(w: World, fs: Formats, storage: Disks, ordered: Disks, i: nat, j: nat)
    requires |fs| == |storage| == |ordered| && i < |fs| && (forall k | 0 <= k < |storage| :: storage[k].Some?)
    requires InNamedSlots(w, fs, storage, ordered, i) && HasObjects(w, fs, storage, i)
    requires j == SlotNamed(MetaAt(w, fs, storage, i)) && j < |ordered| && ordered[j].None?
    ensures InNamedSlots(w, fs, storage, ordered[j := storage[i]], i + 1)
  {
  }

  /** What inspection keeps: the slots given before, the named slots of those inspected, and one slot per disk. */
  ghost predicate WellPlaced(w: World, fs: Formats, storage: Disks, slots: Disks, ordered: Disks, k: nat,
                             done: set<nat>, sound: bool)
    requires |slots| == |fs| == |storage| == |ordered| && k <= |fs|
  {
    && Keeps(slots, ordered) && InNamedSlots(w, fs, storage, ordered, k)
    && (forall i | k <= i < |fs| && fs[i].None? :: i !in done)
    && (sound ==> Partway(storage, ordered, done))
  }

  lemma InspectedOnePlaces(w: World, fs: Formats, storage: Disks, slots: Disks, ordered: Disks, i: nat,
                           done: set<nat>, sound: bool)
    returns (done': set<nat>)
    requires |slots| == |fs| == |storage| == |ordered| && i < |fs|
             && (forall k | 0 <= k < |storage| :: storage[k].Some?)
    requires WellPlaced(w, fs, storage, slots, ordered, i, done, sound) && (sound ==> Supplied(storage))
    requires InspectedOne(w, fs, storage, ordered, i).Ok?
    ensures WellPlaced(w, fs, storage, slots, InspectedOne(w, fs, storage, ordered, i).value, i + 1, done', sound)
  {
    done' := done;
    if HasObjects(w, fs, storage, i) {
      var j := SlotNamed(MetaAt(w, fs, storage, i));
      NamedKept(w, fs, storage, ordered, i, j);
      if sound { PlaceOne(storage, ordered, done, i, j); }
      done' := done + {i};
    }
  }

  lemma {:induction false} InspectedPlaces(w: World, fs: Formats, storage: Disks, slots: Disks, k: nat,
                                           done0: set<nat>, sound: bool)
    returns (done: set<nat>)
    requires |slots| == |fs| == |storage| && k <= |fs| && (forall i | 0 <= i < |storage| :: storage[i].Some?)
    requires Inspected(w, fs, storage, slots, k).Ok?
    requires (forall i | i in done0 :: i < |fs| && fs[i].Some?)
             && (sound ==> Supplied(storage) && Partway(storage, slots, done0))
    ensures WellPlaced(w, fs, storage, slots, Inspected(w, fs, storage, slots, k).value, k, done, sound)
  {
    if k == 0 {
      done := done0;
    } else {
      var done1 := InspectedPlaces(w, fs, storage, slots, k - 1, done0, sound);
      done := InspectedOnePlaces(w, fs, storage, slots, Inspected(w, fs, storage, slots, k - 1).value, k - 1, done1,
                                 sound);
    }
  }

  method ReorderDisksByInspection(w: World, slots: Disks, storage: Disks, fs: Formats)
    returns (r: Result<Disks, FormatError>)
    requires |slots| == |fs| == |storage|
    ensures r == Inspected(w, fs, storage, slots, |fs|)
  {
    var ordered := slots;
    for i := 0 to |fs|
      invariant Inspected(w, fs, storage, slots, i) == Ok(ordered)
    {
      r := InspectOne(w, ordered, storage, fs, i);
      if r.Err? {
        InspectionStops(w, fs, storage, slots, i + 1, |fs|);
        return;
      }
      ordered := r.value;
    }
    r := Ok(ordered);
  }

  /** One disk: left alone, put into its named slot, or found in conflict. */
  method InspectOne(w: World, ordered: Disks, storage: Disks, fs: Formats, i: nat)
    returns (r: Result<Disks, FormatError>)
    requires |fs| == |storage| == |ordered| && i < |fs|
    ensures r == InspectedOne(w, fs, storage, ordered, i)
  {
    if fs[i].Some? { return Ok(ordered); }
    var found := InspectAt(w, storage[i]);
    if found.Err? { return Err(found.error); }
    if found.value.None? { return Ok(ordered); }
    assert HasObjects(w, fs, storage, i) && MetaAt(w, fs, storage, i) == found.value.value;
    var diskIndex := FindSlot(found.value.value);
    if diskIndex >= |ordered| { return Err(IndexPanic); }
    if diskIndex == -1 || ordered[diskIndex].Some? { return Err(CorruptedFormat); }
    return Ok(ordered[diskIndex := storage[i]]);
  }

  lemma {:induction false} InspectionStops(w: World, fs: Formats, storage: Disks, slots: Disks, i: nat, k: nat)
    requires |slots| == |fs| == |storage| && i <= k <= |fs| && Inspected(w, fs, storage, slots, i).Err?
    ensures Inspected(w, fs, storage, slots, k) == Inspected(w, fs, storage, slots, i)
  {
    if i < k { InspectionStops(w, fs, storage, slots, i, k - 1); }
  }

  // ------------------------------------------------------------ the unused disks

  /** The numbers of the disks among the first `k` that have a slot, or have none, in order. */
  function Numbers(storage: Disks, ordered: Disks, k: nat, used: bool): (left: seq<nat>)
    requires k <= |storage|
    ensures forall m | 0 <= m < |left| :: left[m] < k && (storage[left[m]] in ordered) == used
    ensures forall a, b | 0 <= a < b < |left| :: left[a] < left[b]
    ensures forall i | 0 <= i < k && (storage[i] in ordered) == used :: i in left
  {
    if k == 0 then [] else Numbers(storage, ordered, k - 1, used)
                           + (if (storage[k - 1] in ordered) == used then [k - 1] else [])
  }

  function Pick(storage: Disks, left: seq<nat>): (r: Disks)
    requires forall m | 0 <= m < |left| :: left[m] < |storage|
    ensures |r| == |left| && forall m | 0 <= m < |left| :: r[m] == storage[left[m]]
  {
    seq(|left|, m requires 0 <= m < |left| => storage[left[m]])
  }

  method Contains(ordered: Disks, d: Option<DiskId>) returns (found: bool)
    ensures found == (d in ordered)
  {
    for j := 0 to |ordered|
      invariant forall k | 0 <= k < j :: ordered[k] != d
    {
      if d == ordered[j] { return true; }
    }
    return false;
  }

  /** Splits the disks into those with a slot and those without. */
  method SplitDisksByUse(storage: Disks, ordered: Disks) returns (inUse: Disks, notInUse: Disks)
    ensures inUse == Pick(storage, Numbers(storage, ordered, |storage|, true))
    ensures notInUse == Pick(storage, Numbers(storage, ordered, |storage|, false))
  {
    inUse, notInUse := [], [];
    for i := 0 to |storage|
      invariant inUse == Pick(storage, Numbers(storage, ordered, i, true))
      invariant notInUse == Pick(storage, Numbers(storage, ordered, i, false))
    {
      var found := Contains(ordered, storage[i]);
      PickNext(storage, ordered, i);
      if found {
        inUse := inUse + [storage[i]];
      } else {
        notInUse := notInUse + [storage[i]];
      }
    }
  }

  lemma PickNext(storage: Disks, ordered: Disks, i: nat)
    requires i < |storage|
    ensures forall used :: Pick(storage, Numbers(storage, ordered, i + 1, used))
                           == Pick(storage, Numbers(storage, ordered, i, used))
                               + (if (storage[i] in ordered) == used then [storage[i]] else [])
  {
  }

  /** What is still to be placed: the disks numbered `left`, each once, and no other. */
  ghost predicate ToPlace(storage: Disks, done: set<nat>, left: seq<nat>, rest: Disks) {
    && (forall m | 0 <= m < |left| :: left[m] < |storage| && left[m] !in done)
    && (forall a, b | 0 <= a < b < |left| :: left[a] < left[b])
    && (forall i | 0 <= i < |storage| && i !in done :: i in left)
    && rest == Pick(storage, left)
  }

  lemma UnusedToPlace(storage: Disks, ordered: Disks, done: set<nat>)
    requires Supplied(storage) && Partway(storage, ordered, done)
    ensures ToPlace(storage, done, Numbers(storage, ordered, |storage|, false),
                    Pick(storage, Numbers(storage, ordered, |storage|, false)))
  {
    forall i | 0 <= i < |storage| ensures i in done <==> storage[i] in ordered {
      if i !in done { NotYetPlaced(storage, ordered, done, i); }
    }
  }

  lemma PlacedNext(storage: Disks, done: set<nat>, left: seq<nat>, rest: Disks)
    requires ToPlace(storage, done, left, rest) && left != []
    ensures ToPlace(storage, done + {left[0]}, left[1..], rest[1..])
  {
    forall i | 0 <= i < |storage| && i !in done + {left[0]} ensures i in left[1..] {
      var m :| 0 <= m < |left| && left[m] == i;
      assert left[1..][m - 1] == i;
    }
  }

  /** Hands the unused disks to the empty slots, both in order. */
  method AssignRest(storage: Disks, slots: Disks, notInUse: Disks, ghost done0: set<nat>, ghost left0: seq<nat>,
                    ghost sound: bool)
    returns (ordered: Disks)
    requires |slots| == |storage|
             && (sound ==> Supplied(storage) && Partway(storage, slots, done0)
                           && ToPlace(storage, done0, left0, notInUse))
    ensures Keeps(slots, ordered)
    ensures sound ==> Arranged(storage, ordered)
  {
    ordered := slots;
    var rest := notInUse;
    ghost var done, left := done0, left0;
    for j := 0 to |slots|
      invariant Keeps(slots, ordered)
      invariant sound ==> Partway(storage, ordered, done) && ToPlace(storage, done, left, rest)
                          && SomeUpto(ordered, rest, j)
    {
      if ordered[j].None? && |rest| > 0 {
        if sound {
          PlaceNext(storage, ordered, done, left, rest, j);
          done, left := done + {left[0]}, left[1..];
        }
        ordered := ordered[j := rest[0]];
        rest := rest[1..];
      }
    }
    if sound { AllAssigned(storage, ordered, done, left, rest); }
  }

  /** Slots are passed over only while they are taken. */
  ghost predicate SomeUpto(ordered: Disks, rest: Disks, j: nat)
    requires j <= |ordered|
  {
    rest != [] ==> forall k | 0 <= k < j :: ordered[k].Some?
  }

  lemma PlaceNext(storage: Disks, ordered: Disks, done: set<nat>, left: seq<nat>, rest: Disks, j: nat)
    requires Supplied(storage) && Partway(storage, ordered, done) && ToPlace(storage, done, left, rest) && rest != []
    requires j < |ordered| && ordered[j].None? && SomeUpto(ordered, rest, j)
    ensures Partway(storage, ordered[j := rest[0]], done + {left[0]})
            && ToPlace(storage, done + {left[0]}, left[1..], rest[1..])
    ensures SomeUpto(ordered[j := rest[0]], rest[1..], j + 1)
  {
    PlaceOne(storage, ordered, done, left[0], j);
    PlacedNext(storage, done, left, rest);
  }

  lemma AllAssigned(storage: Disks, ordered: Disks, done: set<nat>, left: seq<nat>, rest: Disks)
    requires Partway(storage, ordered, done) && ToPlace(storage, done, left, rest)
    requires rest != [] ==> forall k | 0 <= k < |ordered| :: ordered[k].Some?
    ensures Arranged(storage, ordered)
  {
    if rest == [] {
      assert left == [];
      assert Upto(|storage|) <= done;
      Smaller(Upto(|storage|), done);
    } else {
      NoHoles(ordered, |ordered|);
    }
    AllPlaced(storage, ordered, done);
  }
}
