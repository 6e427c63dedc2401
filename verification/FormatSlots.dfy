/**
  Filling the slots of an erasure set one disk at a time, so that in the end every
  supplied disk has exactly one of them.
 */
module FormatSlots {
  import opened Wrappers
  import opened Sets
  import opened Format
  import opened FormatLoad

  /** Empty slots among the first `k`. */
  function Holes(ordered: Disks, k: nat): (h: nat)
    requires k <= |ordered|
    ensures h <= k
  {
    if k == 0 then 0 else Holes(ordered, k - 1) + (if ordered[k - 1].None? then 1 else 0)
  }

  lemma {:induction false} HolesSame(a: Disks, b: Disks, k: nat)
    requires k <= |a| && k <= |b| && forall j | 0 <= j < k :: a[j] == b[j]
    ensures Holes(a, k) == Holes(b, k)
  {
    if k > 0 { HolesSame(a, b, k - 1); }
  }

  lemma {:induction false} HolesFill(ordered: Disks, j: nat, d: DiskId, k: nat)
    requires j < k <= |ordered| && ordered[j].None?
    ensures Holes(ordered[j := Some(d)], k) == Holes(ordered, k) - 1
  {
    if j == k - 1 {
      HolesSame(ordered[j := Some(d)], ordered, k - 1);
    } else {
      HolesFill(ordered, j, d, k - 1);
    }
  }

  lemma {:induction false} NoHoles(ordered: Disks, k: nat)
    requires k <= |ordered|
    ensures Holes(ordered, k) == 0 <==> forall j | 0 <= j < k :: ordered[j].Some?
  {
    if k > 0 { NoHoles(ordered, k - 1); }
  }

  predicate Among(storage: Disks, done: set<nat>, d: Option<DiskId>) {
    exists i | i in done :: i < |storage| && storage[i] == d
  }

  ghost predicate AllIn(storage: Disks, ordered: Disks, done: set<nat>) {
    forall i | i in done :: i < |storage| && storage[i] in ordered
  }

  ghost predicate AllFrom(storage: Disks, ordered: Disks, done: set<nat>) {
    forall j | 0 <= j < |ordered| && ordered[j].Some? :: Among(storage, done, ordered[j])
  }

  /** The disks numbered `done`, and only these, have one slot each. */
  ghost predicate Partway(storage: Disks, ordered: Disks, done: set<nat>) {
    && |ordered| == |storage| && AllIn(storage, ordered, done) && AllFrom(storage, ordered, done)
    && DistinctDisks(ordered) && Holes(ordered, |ordered|) + |done| == |storage|
  }

  /** Different disks, all of them there. */
  ghost predicate Supplied(storage: Disks) {
    DistinctDisks(storage) && forall i | 0 <= i < |storage| :: storage[i].Some?
  }

  lemma PlaceOne(storage: Disks, ordered: Disks, done: set<nat>, i: nat, j: nat)
    requires Supplied(storage) && Partway(storage, ordered, done)
    requires i < |storage| && i !in done && j < |ordered| && ordered[j].None?
    ensures Partway(storage, ordered[j := storage[i]], done + {i})
  {
    HolesFill(ordered, j, storage[i].value, |ordered|);
    NotYetPlaced(storage, ordered, done, i);
    PlacedIn(storage, ordered, done, i, j);
    PlacedFrom(storage, ordered, done, i, j);
  }

  lemma PlacedIn(storage: Disks, ordered: Disks, done: set<nat>, i: nat, j: nat)
    requires Supplied(storage) && AllIn(storage, ordered, done) && i < |storage| && j < |ordered| && ordered[j].None?
    ensures AllIn(storage, ordered[j := storage[i]], done + {i})
  {
    assert ordered[j := storage[i]][j] == storage[i];
    forall k | k in done ensures storage[k] in ordered[j := storage[i]] {
      StillThere(ordered, j, storage[i], storage[k]);
    }
  }

  lemma PlacedFrom(storage: Disks, ordered: Disks, done: set<nat>, i: nat, j: nat)
    requires AllFrom(storage, ordered, done) && i < |storage| && j < |ordered|
    ensures AllFrom(storage, ordered[j := storage[i]], done + {i})
  {
    var ordered' := ordered[j := storage[i]];
    assert i in done + {i};
    forall m | 0 <= m < |ordered'| && ordered'[m].Some? ensures Among(storage, done + {i}, ordered'[m]) {
      if m != j {
        var k :| k in done && k < |storage| && storage[k] == ordered[m];
        assert k in done + {i};
      }
    }
  }

  lemma NotYetPlaced(storage: Disks, ordered: Disks, done: set<nat>, i: nat)
    requires Supplied(storage) && AllFrom(storage, ordered, done) && i < |storage| && i !in done
    ensures storage[i] !in ordered
  {
  }

  lemma StillThere(ordered: Disks, j: nat, d: Option<DiskId>, e: Option<DiskId>)
    requires j < |ordered| && ordered[j].None? && e.Some? && e in ordered
    ensures e in ordered[j := d]
  {
    var m :| 0 <= m < |ordered| && ordered[m] == e;
    assert ordered[j := d][m] == e;
  }

  /** Every supplied disk occupies exactly one slot and no slot is left. */
  ghost predicate Arranged(storage: Disks, ordered: Disks) {
    && |ordered| == |storage| && Supplied(ordered)
    && forall d :: d in ordered <==> d in storage
  }

  lemma AllPlaced(storage: Disks, ordered: Disks, done: set<nat>)
    requires Partway(storage, ordered, done) && |done| >= |storage|
    ensures Arranged(storage, ordered)
  {
    NoHoles(ordered, |ordered|);
    Everyone(done, |storage|);
    forall d ensures d in ordered <==> d in storage {
      if d in ordered {
        var m :| 0 <= m < |ordered| && ordered[m] == d;
        assert Among(storage, done, ordered[m]);
      }
      if d in storage {
        var i :| 0 <= i < |storage| && storage[i] == d;
        assert i in done;
      }
    }
  }

  // ------------------------------------------------------------ formatted disks first

  function Formatted(fs: Formats, k: nat): (s: set<nat>)
    requires k <= |fs|
    ensures forall i: nat :: i in s <==> i < k && fs[i].Some?
  {
    if k == 0 then {} else Formatted(fs, k - 1) + (if fs[k - 1].Some? then {k - 1} else {})
  }

  function NoDisks(n: nat): (r: Disks)
    ensures |r| == n && forall j | 0 <= j < n :: r[j].None?
  {
    seq(n, _ => None)
  }

  /** The slots after the first `k` formats were placed. */
  function Filled(b: Disks, fs: Formats, jbod: seq<string>, k: nat): (r: Disks)
    requires k <= |fs| == |b| && |jbod| == |b|
    ensures |r| == |b|
  {
    if k == 0 then NoDisks(|b|)
    else
      var was := Filled(b, fs, jbod, k - 1);
      if fs[k - 1].Some? && fs[k - 1].value.disk in jbod then was[Index(jbod, fs[k - 1].value.disk) := b[k - 1]]
      else was
  }

  lemma {:induction false} FilledOccupant(b: Disks, fs: Formats, jbod: seq<string>, k: nat, j: nat)
    requires k <= |fs| == |b| && |jbod| == |b| && j < |b|
    ensures Filled(b, fs, jbod, k)[j] == Occupant(b, fs, jbod, k, j)
  {
    if k > 0 { FilledOccupant(b, fs, jbod, k - 1, j); }
  }

  ghost predicate AllListed(fs: Formats, jbod: seq<string>) {
    forall i | 0 <= i < |fs| && fs[i].Some? :: fs[i].value.disk in jbod
  }

  /** A new uuid names a slot that is still empty. */
  lemma SlotIsFree(b: Disks, fs: Formats, jbod: seq<string>, k: nat)
    requires k < |fs| == |b| && |jbod| == |b| && DistinctUuids(fs) && AllListed(fs, jbod) && fs[k].Some?
    ensures var j := Index(jbod, fs[k].value.disk); j < |b| && Filled(b, fs, jbod, k)[j].None?
  {
    var j := Index(jbod, fs[k].value.disk);
    NoOccupant(b, fs, jbod, k, j);
    FilledOccupant(b, fs, jbod, k, j);
  }

  /** Taking a disk out of its slot. */
  lemma TakeOut(storage: Disks, ordered: Disks, done: set<nat>, i: nat, j: nat)
    requires Supplied(storage) && Partway(storage, ordered, done) && i in done && i < |storage| && j < |ordered|
             && ordered[j] == storage[i]
    ensures Partway(storage, ordered[j := None], done - {i})
  {
    var less := ordered[j := None];
    assert less[j := Some(storage[i].value)] == ordered;
    HolesFill(less, j, storage[i].value, |less|);
    forall k | k in done - {i} ensures storage[k] in less {
      var m :| 0 <= m < |ordered| && ordered[m] == storage[k];
      assert less[m] == storage[k];
    }
    forall m | 0 <= m < |less| && less[m].Some? ensures Among(storage, done - {i}, less[m]) {
      var k :| k in done && k < |storage| && storage[k] == ordered[m];
      assert k in done - {i};
    }
  }

  /** A later disk with the same uuid takes the slot over. */
  lemma TakeOver(storage: Disks, ordered: Disks, done: set<nat>, i: nat, k: nat, j: nat)
    requires Supplied(storage) && Partway(storage, ordered, done) && i in done && i < |storage| && j < |ordered|
             && ordered[j] == storage[i]
    requires k < |storage| && k !in done
    ensures Partway(storage, ordered[j := storage[k]], done - {i} + {k})
  {
    TakeOut(storage, ordered, done, i, j);
    PlaceOne(storage, ordered[j := None], done - {i}, k, j);
    assert ordered[j := None][j := storage[k]] == ordered[j := storage[k]];
  }

  /** The disks placed are formatted, and, with distinct uuids, all of these. */
  ghost predicate FromFormats(fs: Formats, k: nat, done: set<nat>, distinct: bool)
    requires k <= |fs|
  {
    (forall i | i in done :: i < k && fs[i].Some?) && (distinct ==> done == Formatted(fs, k))
  }

  lemma {:induction false} FilledPartway(b: Disks, fs: Formats, jbod: seq<string>, k: nat, distinct: bool)
    returns (done: set<nat>)
    requires k <= |fs| == |b| && |jbod| == |b| && Supplied(b) && AllListed(fs, jbod) && (distinct ==> DistinctUuids(fs))
    ensures Partway(b, Filled(b, fs, jbod, k), done) && FromFormats(fs, k, done, distinct)
  {
    if k == 0 {
      NonePlaced(b, Filled(b, fs, jbod, 0));
      return {};
    }
    done := FilledPartway(b, fs, jbod, k - 1, distinct);
    if fs[k - 1].Some? {
      if distinct { SlotIsFree(b, fs, jbod, k - 1); }
      done := FormatNext(b, fs, Filled(b, fs, jbod, k - 1), k, Index(jbod, fs[k - 1].value.disk), done, distinct);
    }
  }

  /** One disk more, and perhaps one less. */
  ghost predicate OneMore(done: set<nat>, done': set<nat>, k: nat, free: bool) {
    k in done' && (forall i | i in done' :: i in done || i == k) && (free ==> done' == done + {k})
  }

  /** A disk goes into a slot, where it may take the place of another one. */
  lemma PutNext(b: Disks, was: Disks, done: set<nat>, k: nat, j: nat) returns (done': set<nat>)
    requires Supplied(b) && Partway(b, was, done) && k < |b| && k !in done && j < |was|
    ensures Partway(b, was[j := b[k]], done') && OneMore(done, done', k, was[j].None?)
  {
    if was[j].None? {
      PlaceOne(b, was, done, k, j);
      done' := done + {k};
    } else {
      var i :| i in done && i < |b| && b[i] == was[j];
      TakeOver(b, was, done, i, k, j);
      done' := done - {i} + {k};
    }
  }

  lemma NextFormats(fs: Formats, k: nat, done: set<nat>, done': set<nat>, distinct: bool)
    requires 0 < k <= |fs| && fs[k - 1].Some? && FromFormats(fs, k - 1, done, distinct)
             && OneMore(done, done', k - 1, distinct)
    ensures FromFormats(fs, k, done', distinct)
  {
  }

  lemma FormatNext(b: Disks, fs: Formats, was: Disks, k: nat, j: nat, done: set<nat>, distinct: bool)
    returns (done': set<nat>)
    requires 0 < k <= |fs| == |b| && Supplied(b) && fs[k - 1].Some? && j < |was| && (distinct ==> was[j].None?)
    requires Partway(b, was, done) && FromFormats(fs, k - 1, done, distinct)
    ensures Partway(b, was[j := b[k - 1]], done') && FromFormats(fs, k, done', distinct)
  {
    done' := PutNext(b, was, done, k - 1, j);
    NextFormats(fs, k, done, done', distinct);
  }

  /** After the formatted disks are in their slots, some of these are placed, and with distinct uuids all of them. */
  lemma PlacedPartway(b: Disks, fs: Formats, jbod: seq<string>) returns (done: set<nat>)
    requires |fs| == |b| && |jbod| == |b| && Supplied(b) && AllListed(fs, jbod)
    ensures Partway(b, Placed(b, fs, jbod), done) && FromFormats(fs, |fs|, done, DistinctUuids(fs))
  {
    done := FilledPartway(b, fs, jbod, |fs|, DistinctUuids(fs));
    forall j | 0 <= j < |b| ensures Filled(b, fs, jbod, |fs|)[j] == Placed(b, fs, jbod)[j] {
      FilledOccupant(b, fs, jbod, |fs|, j);
    }
    assert Filled(b, fs, jbod, |fs|) == Placed(b, fs, jbod);
  }

  lemma NonePlaced(b: Disks, ordered: Disks)
    requires |ordered| == |b| && forall j | 0 <= j < |b| :: ordered[j].None?
    ensures Partway(b, ordered, {})
  {
    AllHoles(ordered, |b|);
  }

  lemma {:induction false} AllHoles(ordered: Disks, k: nat)
    requires k <= |ordered| && forall j | 0 <= j < k :: ordered[j].None?
    ensures Holes(ordered, k) == k
  {
    if k > 0 { AllHoles(ordered, k - 1); }
  }
}
