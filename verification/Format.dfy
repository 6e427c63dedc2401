/**
  `format.json` of the disks of an erasure set: what makes formats consistent and which
  slot each disk gets (cmd/format-config-v1.go).
 */
module Format {
  import opened Wrappers
  import opened Seqs

  /** A parsed format.json of the erasure backend. */
  datatype FormatConfig = FormatConfig(version: string, format: string, xlVersion: string, disk: string,
                                       jbod: seq<string>)

  type Formats = seq<Option<FormatConfig>>

  datatype FormatError =
    | UnsupportedFormat
    | DiskCountMismatch
    | InconsistentJBOD
    | UuidNotInJBOD(uuid: string)
    | UnrecognizedUuid(uuid: string)
    | UnformattedDisk
    | CorruptedFormat
    | DiskNotFound
    | ReadQuorum
    | FileNotFound
    | VolumeNotFound
    | InvalidAccessKey
    | Authentication
    | ServerVersionMismatch
    | ServerTimeMismatch
    | OtherError
    | IndexPanic  // the Go runtime stops the process

  // ------------------------------------------------------------ consistency

  function Index(jbod: seq<string>, uuid: string): (k: nat)
    ensures k <= |jbod| && (k < |jbod| ==> jbod[k] == uuid) && (k < |jbod| <==> uuid in jbod)
  {
    var k := IndexFrom(jbod, uuid, 0);
    assert k == |jbod| ==> uuid !in jbod;
    k
  }

  predicate ValueOk(f: FormatConfig, n: nat) {
    f.version == "1" && f.format == "xl" && f.xlVersion == "1" && |f.jbod| == n
  }

  predicate ValuesOk(fs: Formats) {
    forall i | 0 <= i < |fs| && fs[i].Some? :: ValueOk(fs[i].value, |fs|)
  }

  predicate SameJbods(fs: Formats) {
    forall i, k | 0 <= i < |fs| && 0 <= k < |fs| && fs[i].Some? && fs[k].Some? :: fs[i].value.jbod == fs[k].value.jbod
  }

  /** Every saved uuid is listed. */
  predicate UuidsListed(fs: Formats) {
    forall i | 0 <= i < |fs| && fs[i].Some? && fs[i].value.disk != "" :: fs[i].value.disk in fs[i].value.jbod
  }

  /** What a passing format check comes to: one list of disks, of the right length, that lists every disk. */
  predicate Consistent(fs: Formats) {
    ValuesOk(fs) && SameJbods(fs) && UuidsListed(fs)
  }

  method FindDiskIndex(disk: string, jbod: seq<string>) returns (index: int)
    ensures index == if disk in jbod then Index(jbod, disk) as int else -1
  {
    for k := 0 to |jbod|
      invariant disk !in jbod[..k] && IndexFrom(jbod, disk, 0) >= k
    {
      if jbod[k] == disk { return k; }
      assert jbod[..k + 1] == jbod[..k] + [jbod[k]];
    }
    assert jbod[..|jbod|] == jbod;
    return -1;
  }

  /** Written by this version of the erasure backend. */
  predicate Supported(f: FormatConfig) {
    f.version == "1" && f.format == "xl" && f.xlVersion == "1"
  }

  method CheckFormatXLValues(fs: Formats) returns (err: Option<FormatError>)
    ensures err.None? <==> ValuesOk(fs)
    ensures err.Some? ==> exists i | 0 <= i < |fs| && fs[i].Some? ::
              err == Some(if Supported(fs[i].value) then DiskCountMismatch else UnsupportedFormat)
              && !(Supported(fs[i].value) && |fs[i].value.jbod| == |fs|)
  {
    for i := 0 to |fs|
      invariant forall k | 0 <= k < i && fs[k].Some? :: ValueOk(fs[k].value, |fs|)
    {
      if fs[i].Some? {
        var f := fs[i].value;
        if f.version != "1" { return Some(UnsupportedFormat); }
        if f.format != "xl" { return Some(UnsupportedFormat); }
        if f.xlVersion != "1" { return Some(UnsupportedFormat); }
        if |fs| != |f.jbod| { return Some(DiskCountMismatch); }
      }
    }
    return None;
  }

  /** The list of the first format there is. */
  function SavedJbod(fs: Formats): seq<string> {
    if fs == [] then [] else if fs[0].Some? then fs[0].value.jbod else SavedJbod(fs[1..])
  }

  lemma {:induction false} SavedIsSome(fs: Formats, i: nat)
    requires i < |fs| && fs[i].Some? && SameJbods(fs)
    ensures SavedJbod(fs) == fs[i].value.jbod
    decreases |fs|
  {
    if fs[0].None? {
      forall a, b | 0 <= a < |fs| - 1 && 0 <= b < |fs| - 1 && fs[1..][a].Some? && fs[1..][b].Some?
        ensures fs[1..][a].value.jbod == fs[1..][b].value.jbod
      {
        assert fs[1..][a] == fs[a + 1] && fs[1..][b] == fs[b + 1];
      }
      SavedIsSome(fs[1..], i - 1);
    }
  }

  lemma {:induction false} SavedIsOneOf(fs: Formats)
    ensures (exists i | 0 <= i < |fs| :: fs[i].Some?) ==>
                exists i | 0 <= i < |fs| && fs[i].Some? :: SavedJbod(fs) == fs[i].value.jbod
    ensures (forall i | 0 <= i < |fs| :: fs[i].None?) ==> SavedJbod(fs) == []
    decreases |fs|
  {
    if fs != [] && fs[0].None? {
      SavedIsOneOf(fs[1..]);
      if i :| 0 <= i < |fs| - 1 && fs[1..][i].Some? && SavedJbod(fs[1..]) == fs[1..][i].value.jbod {
        assert fs[i + 1].Some?;
      }
      forall i | 0 <= i < |fs| && fs[i].Some? ensures exists k | 0 <= k < |fs[1..]| :: fs[1..][k].Some? {
        assert fs[1..][i - 1].Some?;
      }
    }
  }

  /** The first list found, as the source picks it. */
  method FirstJbod(fs: Formats) returns (jbod: seq<string>)
    ensures jbod == SavedJbod(fs)
  {
    var i := 0;
    while i < |fs|
      invariant 0 <= i <= |fs| && SavedJbod(fs) == SavedJbod(fs[i..])
    {
      assert fs[i..][1..] == fs[i + 1..];
      if fs[i].Some? { return fs[i].value.jbod; }
      i := i + 1;
    }
    return [];
  }

  method CheckJBODConsistency(fs: Formats) returns (err: Option<FormatError>)
    ensures err.None? <==> SameJbods(fs)
  {
    var sentinel := FirstJbod(fs);
    SavedIsOneOf(fs);
    for i := 0 to |fs|
      invariant forall k | 0 <= k < i && fs[k].Some? :: fs[k].value.jbod == sentinel
    {
      if fs[i].Some? && fs[i].value.jbod != sentinel { return Some(InconsistentJBOD); }
    }
    return None;
  }

  /** A uuid is in every list, at one position. */
  predicate InOrder(uuid: string, fs: Formats) {
    && (forall i | 0 <= i < |fs| && fs[i].Some? :: uuid in fs[i].value.jbod)
    && (forall i, k | 0 <= i < |fs| && 0 <= k < |fs| && fs[i].Some?
        && fs[k].Some? :: Index(fs[i].value.jbod, uuid) == Index(fs[k].value.jbod, uuid))
  }

  /** Collects the positions, then compares them; reads the first without looking, so there must be one. */
  method IsSavedUUIDInOrder(uuid: string, fs: Formats) returns (ok: bool)
    requires exists i | 0 <= i < |fs| :: fs[i].Some?
    ensures ok <==> InOrder(uuid, fs)
  {
    var orderIndexes: seq<int> := [];
    ghost var from: seq<nat> := [];
    for i := 0 to |fs|
      invariant forall k | 0 <= k < i && fs[k].Some? :: uuid in fs[k].value.jbod && k in from
      invariant |from| == |orderIndexes| && forall m | 0 <= m < |from| ::
                  from[m] < i && fs[from[m]].Some? && orderIndexes[m] == Index(fs[from[m]].value.jbod, uuid) + 1
    {
      if fs[i].Some? {
        var uuidIndex := FindDiskIndex(uuid, fs[i].value.jbod);
        if uuidIndex == -1 { return false; }
        orderIndexes := orderIndexes + [uuidIndex + 1];
        from := from + [i];
      }
    }
    var prevOrderIndex := orderIndexes[0];
    for m := 0 to |orderIndexes|
      invariant forall k | 0 <= k < m :: orderIndexes[k] == prevOrderIndex
    {
      if prevOrderIndex != orderIndexes[m] { return false; }
    }
    return true;
  }

  method CheckDisksConsistency(fs: Formats) returns (err: Option<FormatError>)
    ensures err.None? <==> forall i | 0 <= i < |fs| && fs[i].Some?
            && fs[i].value.disk != "" :: InOrder(fs[i].value.disk, fs)
  {
    for i := 0 to |fs|
      invariant forall k | 0 <= k < i && fs[k].Some? && fs[k].value.disk != "" :: InOrder(fs[k].value.disk, fs)
    {
      var uuid := if fs[i].Some? then fs[i].value.disk else "";
      if uuid != "" {
        var ok := IsSavedUUIDInOrder(uuid, fs);
        if !ok { return Some(UuidNotInJBOD(uuid)); }
      }
    }
    return None;
  }

  lemma ListedIsInOrder(fs: Formats, i: nat)
    requires SameJbods(fs) && i < |fs| && fs[i].Some?
    ensures InOrder(fs[i].value.disk, fs) <==> fs[i].value.disk in fs[i].value.jbod
  {
  }

  lemma ConsistentExactly(fs: Formats)
    ensures Consistent(fs) <==> forall i | 0 <= i < |fs| && fs[i].Some? ::
              && Supported(fs[i].value) && |fs[i].value.jbod| == |fs|
              && (fs[i].value.disk == "" || fs[i].value.disk in fs[i].value.jbod)
              && forall k | 0 <= k < |fs| && fs[k].Some? :: fs[k].value.jbod == fs[i].value.jbod
  {
  }

  /** The format check is exact: it passes just the consistent formats. */
  method CheckFormatXL(fs: Formats) returns (err: Option<FormatError>)
    ensures err.None? <==> Consistent(fs)
    ensures err.None? <==> forall i | 0 <= i < |fs| && fs[i].Some? ::
              && Supported(fs[i].value) && |fs[i].value.jbod| == |fs|
              && (fs[i].value.disk == "" || fs[i].value.disk in fs[i].value.jbod)
              && forall k | 0 <= k < |fs| && fs[k].Some? :: fs[k].value.jbod == fs[i].value.jbod
  {
    ConsistentExactly(fs);
    err := CheckFormatXLValues(fs);
    if err.Some? { return; }
    err := CheckJBODConsistency(fs);
    if err.Some? { return; }
    err := CheckDisksConsistency(fs);
    forall i | 0 <= i < |fs| && fs[i].Some?
      ensures InOrder(fs[i].value.disk, fs) <==> fs[i].value.disk in fs[i].value.jbod
    {
      ListedIsInOrder(fs, i);
    }
  }

  // ------------------------------------------------------------ slots

  type DiskId = nat

  type Disks = seq<Option<DiskId>>

  /** Who is in slot `j` after the first `k` formats were placed: the last one that named it. */
  function Occupant(disks: Disks, fs: Formats, jbod: seq<string>, k: nat, j: nat): Option<DiskId>
    requires k <= |fs| == |disks|
  {
    if k == 0 then None
    else if fs[k - 1].Some? && Index(jbod, fs[k - 1].value.disk) == j then disks[k - 1]
    else Occupant(disks, fs, jbod, k - 1, j)
  }

  function Placed(disks: Disks, fs: Formats, jbod: seq<string>): (r: Disks)
    requires |fs| == |disks|
    ensures |r| == |disks| && forall j | 0 <= j < |disks| :: r[j] == Occupant(disks, fs, jbod, |fs|, j)
  {
    seq(|disks|, j requires 0 <= j => Occupant(disks, fs, jbod, |fs|, j))
  }

  predicate Recognized(fs: Formats) {
    forall i | 0 <= i < |fs| && fs[i].Some? :: fs[i].value.disk in SavedJbod(fs)
  }

  /** Slots are filled in the order of the formats; two disks with one uuid name one slot and the later stays. */
  method ReorderDisks(disks: Disks, fs: Formats) returns (r: Result<Disks, FormatError>)
    requires |fs| == |disks| && |SavedJbod(fs)| <= |disks|
    ensures r.Ok? <==> Recognized(fs)
    ensures r.Ok? ==> r.value == Placed(disks, fs, SavedJbod(fs))
  {
    var savedJBOD := FirstJbod(fs);
    var newDisks := new Option<DiskId>[|disks|](_ => None);
    for i := 0 to |fs|
      invariant forall k | 0 <= k < i && fs[k].Some? :: fs[k].value.disk in savedJBOD
      invariant forall j | 0 <= j < |disks| :: newDisks[j] == Occupant(disks, fs, savedJBOD, i, j)
    {
      if fs[i].Some? {
        var jIndex := FindDiskIndex(fs[i].value.disk, savedJBOD);
        if jIndex == -1 { return Err(UnrecognizedUuid(fs[i].value.disk)); }
        newDisks[jIndex] := disks[i];
      }
    }
    return Ok(newDisks[..]);
  }

  /** After a passing check, placing fails exactly if a formatted disk has an empty uuid that is not listed. */
  lemma PlacingFailsIff(fs: Formats)
    requires Consistent(fs)
    ensures !Recognized(fs)
            <==> exists i | 0 <= i < |fs| && fs[i].Some? :: fs[i].value.disk == "" && "" !in fs[i].value.jbod
  {
    forall i | 0 <= i < |fs| && fs[i].Some? ensures SavedJbod(fs) == fs[i].value.jbod { SavedIsSome(fs, i); }
  }

  predicate DistinctUuids(fs: Formats) {
    forall i, k | 0 <= i < k < |fs| && fs[i].Some? && fs[k].Some? :: fs[i].value.disk != fs[k].value.disk
  }

  lemma {:induction false} OccupantIsLast(disks: Disks, fs: Formats, jbod: seq<string>, k: nat, j: nat, i: nat)
    requires i < k <= |fs| == |disks| && fs[i].Some? && Index(jbod, fs[i].value.disk) == j
    requires forall m | i < m < k && fs[m].Some? :: Index(jbod, fs[m].value.disk) != j
    ensures Occupant(disks, fs, jbod, k, j) == disks[i]
  {
    if i < k - 1 { OccupantIsLast(disks, fs, jbod, k - 1, j, i); }
  }

  lemma {:induction false} NoOccupant(disks: Disks, fs: Formats, jbod: seq<string>, k: nat, j: nat)
    requires k <= |fs| == |disks|
    requires forall m | 0 <= m < k && fs[m].Some? :: Index(jbod, fs[m].value.disk) != j
    ensures Occupant(disks, fs, jbod, k, j) == None
  {
    if k > 0 { NoOccupant(disks, fs, jbod, k - 1, j); }
  }

  /** With distinct uuids every formatted disk keeps the slot its uuid names: none is lost. */
  lemma EachInItsSlot(disks: Disks, fs: Formats, i: nat)
    requires |fs| == |disks| && Consistent(fs) && Recognized(fs) && DistinctUuids(fs) && i < |fs| && fs[i].Some?
    ensures var j := Index(SavedJbod(fs), fs[i].value.disk); j < |disks|
                                                             && Placed(disks, fs, SavedJbod(fs))[j] == disks[i]
  {
    var jbod := SavedJbod(fs);
    SavedIsSome(fs, i);
    var j := Index(jbod, fs[i].value.disk);
    forall m | i < m < |fs| && fs[m].Some? ensures Index(jbod, fs[m].value.disk) != j {
      assert fs[m].value.disk in jbod;
    }
    OccupantIsLast(disks, fs, jbod, |fs|, j, i);
  }
}
