/** What create, read and heal promise together. */
module ErasureTheorems {
  import opened Wrappers
  import opened Sets
  import opened ErasureCode
  import opened Storage
  import opened ErasureRead
  import opened ErasureCreate

  /** The disks of a new file: empty files, and disks that stop for good when one of the `n` appends fails. */
  ghost predicate FreshFailStop(ds: seq<Option<Disk>>, n: nat) {
    forall i | 0 <= i < |ds| && ds[i].Some? :: ds[i].value.file == [] && FailStop(ds[i].value, n)
  }

  /** After a write, a disk's file is its whole shard file exactly when the disk took every append. */
  lemma CompleteIff(d: Disk, c: Code, data: Bytes, blockSize: nat, i: nat)
    requires blockSize > 0 && i < c.Width() && d.file == [] && data != []
    ensures AppendAll(d, Sends(c, data, blockSize, i), Appends(|data|, blockSize)).file
            == ShardFile(c, data, blockSize, i)
            <==> TookAll(d, Appends(|data|, blockSize))
  {
    var all, n := Sends(c, data, blockSize, i), Appends(|data|, blockSize);
    AppendAllIs(d, all, n);
    SendsAreShardFile(c, data, blockSize, i);
    TakenAll(d, all, n);
    assert all[..n] == all;
    assert d.file + Taken(d, all, n) == Taken(d, all, n);
  }

  /**
    Files written to fail-stop disks may be lost, damaged or cut afterwards: as long as the checksum finds every
    file that is not what was written, reads are faithful.
   */
  lemma WrittenIsFaithful(ds: seq<Option<Disk>>, now: seq<Option<Disk>>, took: seq<Bytes>, later: seq<Option<Disk>>,
                          checks: Checks, c: Code, data: Bytes, blockSize: nat)
    requires blockSize > 0 && FreshFailStop(ds, Appends(|data|, blockSize))
    requires Wrote(ds, c, data, blockSize, Appends(|data|, blockSize), now, took)
    requires |later| == |checks.sums| == c.Width()
    requires forall i | 0 <= i < |later|
             && Intact(later[i], checks.sums[i], checks.digest) :: later[i].value.file == took[i]
    ensures Faithful(later, checks, c, blockSize, data)
  {
    forall i | 0 <= i < |later| && Intact(later[i], checks.sums[i], checks.digest)
      ensures later[i].value.file <= ShardFile(c, data, blockSize, i)
    {
      if ds[i].Some? {
        var all, n := Sends(c, data, blockSize, i), Appends(|data|, blockSize);
        assert SlotWrote(ds[i].value, all, n, now[i], took[i]);
        SendsAreShardFile(c, data, blockSize, i);
        TakenAll(ds[i].value, all, n);
        assert all[..n] == all;
      }
    }
  }

  /** A complete and intact file on a disk whose reads succeed. */
  ghost predicate Good(d: Option<Disk>, checks: Checks, c: Code, data: Bytes, blockSize: nat, i: nat)
    requires blockSize > 0 && i < |checks.sums| == c.Width()
  {
    && Intact(d, checks.sums[i], checks.digest)
    && d.value.file == ShardFile(c, data, blockSize, i)
    && forall off: nat, n: nat :: d.value.readable(off, n)
  }

  /** Such a disk serves every block of the file. */
  lemma GoodServes(ds: seq<Option<Disk>>, checks: Checks, c: Code, data: Bytes, blockSize: nat, i: nat, b: nat)
    requires blockSize > 0 && |ds| == |checks.sums| == c.Width() && i < |ds|
    requires Good(ds[i], checks, c, data, blockSize, i) && Times(b, blockSize) < |data|
    ensures Serves(ds[i], checks, i, ChunkOffset(c, blockSize, b), ChunkLen(c, blockSize, |data|, b))
  {
    ChunkInFile(c, data, blockSize, i, b);
  }

  /** The round trip's availability half: `dataBlocks` good disks make any range of blocks readable. */
  lemma GoodDisksSuffice(ds: seq<Option<Disk>>, checks: Checks, c: Code, data: Bytes, blockSize: nat,
                         first: nat, last: nat, good: set<nat>)
    requires blockSize > 0 && |ds| == |checks.sums| == c.Width()
    requires first <= last && Times(last, blockSize) < |data|
    requires |good| >= c.dataBlocks && forall i | i in good :: i < |ds| && Good(ds[i], checks, c, data, blockSize, i)
    ensures Readable(ds, checks, c, blockSize, |data|, first, last)
  {
    forall i | i in good ensures ServesAll(ds, checks, c, blockSize, |data|, first, last, i) {
      forall a: nat | first <= a <= last && Times(a, blockSize) <= |data|
        ensures Serves(ds[i], checks, i, ChunkOffset(c, blockSize, a), ChunkLen(c, blockSize, |data|, a))
      {
        TimesMonotone(a, last, blockSize);
        GoodServes(ds, checks, c, data, blockSize, i, a);
      }
    }
    EnoughDisksSuffice(ds, checks, c, blockSize, |data|, first, last, good);
  }

  /** The blocks a range touches all lie in the data. */
  lemma BlocksOfRange(offset: nat, length: nat, blockSize: nat, total: nat) returns (first: nat, last: nat)
    requires blockSize > 0 && 0 < length && offset + length <= total
    ensures first == offset / blockSize && last == (offset + length - 1) / blockSize
    ensures first <= last && Times(last, blockSize) < total
  {
    first, last := offset / blockSize, (offset + length - 1) / blockSize;
    BlockOf(offset, blockSize);
    BlockOf(offset + length - 1, blockSize);
    BlockOrder(first, last, blockSize, offset);
  }

  /** So `dataBlocks` good disks make any range of bytes readable. */
  lemma GoodRangeReadable(ds: seq<Option<Disk>>, checks: Checks, c: Code, data: Bytes, blockSize: nat, offset: nat,
                          length: nat, good: set<nat>)
    requires blockSize > 0 && |ds| == |checks.sums| == c.Width() && 0 < length && offset + length <= |data|
    requires |good| >= c.dataBlocks && forall i | i in good :: i < |ds| && Good(ds[i], checks, c, data, blockSize, i)
    ensures RangeReadable(ds, checks, c, blockSize, |data|, offset, length)
  {
    var first, last := BlocksOfRange(offset, length, blockSize, |data|);
    GoodDisksSuffice(ds, checks, c, data, blockSize, first, last, good);
  }

  // ------------------------------------------------------------ what a write quorum is worth

  function Absent(ds: seq<Option<Disk>>): set<nat> {
    set i: nat | i < |ds| && ds[i].None?
  }

  /** Slots that hold a complete file. */
  ghost function Complete(now: seq<Option<Disk>>, c: Code, data: Bytes, blockSize: nat): set<nat>
    requires blockSize > 0 && |now| == c.Width()
  {
    set i: nat | i < |now| && now[i].Some? && now[i].value.file == ShardFile(c, data, blockSize, i)
  }

  /** Of fail-stop disks, those that take the last append took all. */
  lemma CleanShrinks(ds: seq<Option<Disk>>, n: nat, j: nat)
    requires FreshFailStop(ds, n) && j < n
    ensures CleanAfter(ds, n - 1) <= CleanAfter(ds, j)
  {
    forall i | i in CleanAfter(ds, n - 1) ensures i in CleanAfter(ds, j) {
      if ds[i].Some? { assert ds[i].value.Takes(n - 1) ==> ds[i].value.Takes(j); }
    }
  }

  lemma {:induction false} LastAppendDecides(ds: seq<Option<Disk>>, writeQuorum: nat, n: nat, m: nat)
    requires FreshFailStop(ds, n) && m <= n && n > 0 && |CleanAfter(ds, n - 1)| >= writeQuorum
    ensures QuorumUpTo(ds, writeQuorum, m)
  {
    if m > 0 {
      LastAppendDecides(ds, writeQuorum, n, m - 1);
      CleanShrinks(ds, n, m - 1);
      Smaller(CleanAfter(ds, n - 1), CleanAfter(ds, m - 1));
    }
  }

  /** One slot after the last append: without an error exactly if it is absent or complete. */
  lemma LastAppendSays(ds: seq<Option<Disk>>, now: seq<Option<Disk>>, took: seq<Bytes>, c: Code, data: Bytes,
                       blockSize: nat, i: nat)
    requires blockSize > 0 && FreshFailStop(ds, Appends(|data|, blockSize)) && i < |ds|
    requires Wrote(ds, c, data, blockSize, Appends(|data|, blockSize), now, took)
    ensures i in CleanAfter(ds, Appends(|data|, blockSize) - 1) ==>
                i in Complete(now, c, data, blockSize) || i in Absent(ds)
    ensures data != [] && i in Complete(now, c, data, blockSize) ==> i in CleanAfter(ds, Appends(|data|, blockSize) - 1)
  {
    if ds[i].Some? {
      var d, n := ds[i].value, Appends(|data|, blockSize);
      WroteFile(ds, c, data, blockSize, n, now, took, i);
      assert SlotWrote(d, Sends(c, data, blockSize, i), n, now[i], took[i]);
      if data != [] { CompleteIff(d, c, data, blockSize, i); }
      if i in CleanAfter(ds, n - 1) { FailStopTookAll(d, n); }
    }
  }

  /** The slots that gave no error are the complete and the absent ones; of an empty file every disk is complete. */
  ghost predicate Durable(clean: set<nat>, whole: set<nat>, absent: set<nat>, exact: bool) {
    && whole !! absent && (forall i | i in clean :: i in whole || i in absent)
    && (exact ==> forall i | i in whole || i in absent :: i in clean)
  }

  lemma CleanAreDurable(ds: seq<Option<Disk>>, now: seq<Option<Disk>>, took: seq<Bytes>, c: Code, data: Bytes,
                        blockSize: nat)
    requires blockSize > 0 && FreshFailStop(ds, Appends(|data|, blockSize))
    requires Wrote(ds, c, data, blockSize, Appends(|data|, blockSize), now, took)
    ensures Durable(CleanAfter(ds, Appends(|data|, blockSize) - 1), Complete(now, c, data, blockSize), Absent(ds),
                    data != [])
  {
    forall i: nat | i < |ds|
      ensures i in CleanAfter(ds, Appends(|data|, blockSize) - 1) ==>
                  i in Complete(now, c, data, blockSize) || i in Absent(ds)
      ensures data != [] && i in Complete(now, c, data, blockSize) ==>
                  i in CleanAfter(ds, Appends(|data|, blockSize) - 1)
    {
      LastAppendSays(ds, now, took, c, data, blockSize, i);
    }
  }

  lemma DurableCount(clean: set<nat>, whole: set<nat>, absent: set<nat>, exact: bool)
    requires Durable(clean, whole, absent, exact)
    ensures |clean| <= |whole| + |absent| && (exact ==> |clean| == |whole| + |absent|)
  {
    Covered(clean, whole, absent);
  }

  /**
    Durability: a write to fail-stop disks meets its quorum exactly if the complete files it leaves and the absent
    disks, which the quorum counts as successes, are together that many. (Of an empty file every disk is complete.)
   */
  lemma QuorumIffDurable(ds: seq<Option<Disk>>, now: seq<Option<Disk>>, took: seq<Bytes>, c: Code, data: Bytes,
                         blockSize: nat,
                         writeQuorum: nat)
    requires blockSize > 0 && FreshFailStop(ds, Appends(|data|, blockSize))
    requires Wrote(ds, c, data, blockSize, Appends(|data|, blockSize), now, took)
    ensures QuorumUpTo(ds, writeQuorum, Appends(|data|, blockSize)) ==>
                |Complete(now, c, data, blockSize)| + |Absent(ds)| >= writeQuorum
    ensures data != [] && |Complete(now, c, data, blockSize)| + |Absent(ds)| >= writeQuorum ==>
              QuorumUpTo(ds, writeQuorum, Appends(|data|, blockSize))
  {
    var n := Appends(|data|, blockSize);
    CleanAreDurable(ds, now, took, c, data, blockSize);
    DurableCount(CleanAfter(ds, n - 1), Complete(now, c, data, blockSize), Absent(ds), data != []);
    LastDecides(ds, writeQuorum, n);
  }

  lemma LastDecides(ds: seq<Option<Disk>>, writeQuorum: nat, n: nat)
    requires FreshFailStop(ds, n) && n > 0
    ensures QuorumUpTo(ds, writeQuorum, n) <==> |CleanAfter(ds, n - 1)| >= writeQuorum
  {
    if |CleanAfter(ds, n - 1)| >= writeQuorum { LastAppendDecides(ds, writeQuorum, n, n); }
  }

  /**
    Enough absent disks make every write succeed, whatever the others do; without as many, disks
    that refuse everything do not.
   */
  lemma {:induction false} AbsentDisksMeetQuorum(ds: seq<Option<Disk>>, writeQuorum: nat, m: nat)
    ensures |Absent(ds)| >= writeQuorum ==> QuorumUpTo(ds, writeQuorum, m)
    ensures |Absent(ds)| < writeQuorum && m > 0
            && (forall i, j: nat | 0 <= i < |ds| && ds[i].Some? :: !ds[i].value.Takes(j)) ==>
              !QuorumUpTo(ds, writeQuorum, m)
  {
    if m > 0 {
      AbsentDisksMeetQuorum(ds, writeQuorum, m - 1);
      Smaller(Absent(ds), CleanAfter(ds, m - 1));
      if forall i, j: nat | 0 <= i < |ds| && ds[i].Some? :: !ds[i].value.Takes(j) {
        assert CleanAfter(ds, m - 1) == Absent(ds);
      }
    }
  }

  // ------------------------------------------------------------ why fail-stop is needed

  /** With one data shard and blocks of one byte, a shard file is the data. */
  lemma {:induction false} MirrorFile(c: Code, data: Bytes)
    requires c == Mirror(1) && data != []
    ensures ShardFile(c, data, 1, 0) == data && Appends(|data|, 1) == |data|
    ensures forall k | 0 <= k < |data| :: Sends(c, data, 1, 0)[k] == [data[k]]
  {
    MirrorShard(c, data[0]);
    assert data[..1] == [data[0]];
    if |data| > 1 {
      MirrorFile(c, data[1..]);
      assert data == [data[0]] + data[1..];
      assert Sends(c, data, 1, 0) == [[data[0]]] + Sends(c, data[1..], 1, 0);
    } else {
      assert data[1..] == [] && ShardFile(c, data[1..], 1, 0) == [];
    }
  }

  lemma MirrorShard(c: Code, x: byte)
    requires c == Mirror(1)
    ensures EncodeBlock(c, [x])[0] == [x]
  {
    assert ChunkSize(1, 1) == 1;
    assert [x][..1] + Zeros(0) == [x];
    assert Cut([x], 1, 1) == [[x][..1] + Zeros(0)] + Cut([x][1..], 1, 0);
    assert Cut([x], 1, 1) == [[x]];
  }

  /** Zeros with a one at position `j`. */
  function Marked(n: nat, j: nat): (r: Bytes)
    ensures |r| == n && forall k | 0 <= k < n :: r[k] == if k == j then 1 else 0
  {
    seq(n, k => if k == j then 1 else 0)
  }

  /** A disk that refuses the one never has it, and has a zero in its place once it takes a later byte. */
  lemma {:induction false} MarkMissing(d: Disk, shards: seq<Bytes>, j: nat, m: nat)
    requires m <= |shards| && forall k | 0 <= k < |shards| :: shards[k] == [if k == j then 1 else 0]
    requires j < |shards| && !d.Takes(j) && TookAll(d, j)
    ensures m <= j ==> |Taken(d, shards, m)| == m
    ensures m > j ==> |Taken(d, shards, m)| >= j
    ensures forall k | 0 <= k < |Taken(d, shards, m)| :: Taken(d, shards, m)[k] == 0
    ensures (exists k: nat :: j < k < m && d.Takes(k)) ==> |Taken(d, shards, m)| > j
  {
    if m > 0 {
      MarkMissing(d, shards, j, m - 1);
      if m <= j { TookBefore(d, j, m - 1); }
    }
  }

  lemma {:induction false} TookBefore(d: Disk, n: nat, k: nat)
    requires TookAll(d, n) && k < n
    ensures d.Takes(k)
  {
    if k < n - 1 { TookBefore(d, n - 1, k); }
  }

  /** The first append that is refused. */
  lemma {:induction false} FirstRefused(d: Disk, j: nat) returns (i: nat)
    requires !d.Takes(j)
    ensures i <= j && !d.Takes(i) && TookAll(d, i)
  {
    if TookAll(d, j) { return j; }
    var k := SomeRefused(d, j);
    i := FirstRefused(d, k);
  }

  lemma {:induction false} SomeRefused(d: Disk, n: nat) returns (k: nat)
    requires !TookAll(d, n)
    ensures k < n && !d.Takes(k)
  {
    if !d.Takes(n - 1) { return n - 1; }
    k := SomeRefused(d, n - 1);
  }

  /** What the disk holds after a whole stream is a start of its shard file. */
  ghost predicate HoldsStart(d: Disk, c: Code, data: Bytes, blockSize: nat, i: nat)
    requires blockSize > 0 && i < c.Width()
  {
    AppendAll(d, Sends(c, data, blockSize, i), Appends(|data|, blockSize)).file <= ShardFile(c, data, blockSize, i)
  }

  /** ... for every stream that takes `n` appends, whatever the code and the block size. */
  ghost predicate AlwaysHoldsStart(d: Disk, n: nat) {
    forall c: Code, data: Bytes, blockSize: nat, i: nat | blockSize > 0 && i < c.Width()
    && Appends(|data|, blockSize) == n ::
      HoldsStart(d, c, data, blockSize, i)
  }

  lemma FailStopHoldsStart(d: Disk, c: Code, data: Bytes, blockSize: nat, i: nat)
    requires blockSize > 0 && i < c.Width() && d.file == [] && FailStop(d, Appends(|data|, blockSize))
    ensures HoldsStart(d, c, data, blockSize, i)
  {
    var all, n := Sends(c, data, blockSize, i), Appends(|data|, blockSize);
    AppendAllIs(d, all, n);
    SendsAreShardFile(c, data, blockSize, i);
    TakenAll(d, all, n);
    assert all[..n] == all;
    assert d.file + Taken(d, all, n) == Taken(d, all, n);
  }

  /** Bytes that differ from the shard file at one place are no start of it. */
  lemma NoStart(d: Disk, all: seq<Bytes>, n: nat, whole: Bytes, at: nat)
    requires d.file == [] && n <= |all| && at < |whole| && at < |Taken(d, all, n)| && Taken(d, all, n)[at] != whole[at]
    ensures !(AppendAll(d, all, n).file <= whole)
  {
    AppendAllIs(d, all, n);
    assert d.file + Taken(d, all, n) == Taken(d, all, n);
  }

  lemma MirrorMisses(d: Disk, c: Code, n: nat, first: nat, k: nat)
    requires c == Mirror(1) && d.file == [] && first < k < n && d.Takes(k) && !d.Takes(first) && TookAll(d, first)
    ensures Appends(|Marked(n, first)|, 1) == n && !HoldsStart(d, c, Marked(n, first), 1, 0)
  {
    var data := Marked(n, first);
    MirrorFile(c, data);
    var all := Sends(c, data, 1, 0);
    MarkMissing(d, all, first, n);
    NoStart(d, all, n, ShardFile(c, data, 1, 0), first);
  }

  lemma MissedAppendShifts(d: Disk, n: nat, j: nat, k: nat)
    requires d.file == [] && j < k < n && !d.Takes(j) && d.Takes(k)
    ensures !AlwaysHoldsStart(d, n)
  {
    var first := FirstRefused(d, j);
    MirrorIsLawful(1);
    var c: Code := Mirror(1);
    MirrorMisses(d, c, n, first, k);
  }

  /**
    Why fail-stop is needed: the file of a disk, which carries the recorded checksum, is a start of its shard file
    for every stream of `n` appends exactly if the disk takes none of them after one it refused.
   */
  lemma HoldsStartIffFailStop(d: Disk, n: nat)
    requires d.file == []
    ensures AlwaysHoldsStart(d, n) <==> FailStop(d, n)
  {
    if FailStop(d, n) {
      forall c: Code, data: Bytes, blockSize: nat, i: nat | blockSize > 0 && i < c.Width()
      && Appends(|data|, blockSize) == n
        ensures HoldsStart(d, c, data, blockSize, i)
      {
        FailStopHoldsStart(d, c, data, blockSize, i);
      }
    } else {
      var j: nat, k: nat :| j <= k < n && d.Takes(k) && !d.Takes(j);
      MissedAppendShifts(d, n, j, k);
    }
  }

  // ------------------------------------------------------------ write, damage, read

  function FileOf(d: Option<Disk>): Bytes {
    if d.Some? then d.value.file else []
  }

  /** Whatever happens to the disks, the checksum tells every file that changed. */
  ghost predicate Detected(damage: seq<Option<Disk>> -> seq<Option<Disk>>, digest: Bytes -> string) {
    forall x: seq<Option<Disk>> ::
      |damage(x)| == |x| && forall i | 0 <= i < |x| :: Telling(x[i], damage(x)[i], digest)
  }

  ghost predicate Telling(before: Option<Disk>, after: Option<Disk>, digest: Bytes -> string) {
    after.Some? && digest(after.value.file) == digest(FileOf(before)) ==> after.value.file == FileOf(before)
  }

  /** The slot still has its file, and every read of it succeeds. */
  ghost predicate Spares(damage: seq<Option<Disk>> -> seq<Option<Disk>>, x: seq<Option<Disk>>, i: nat) {
    && i < |x| == |damage(x)| && damage(x)[i].Some? && damage(x)[i].value.file == FileOf(x[i])
    && forall off: nat, len: nat :: damage(x)[i].value.readable(off, len)
  }

  /**
    The round trip: a stream is written to fresh fail-stop disks; disks are then lost, cut, damaged, replaced or
    made unreadable in any way that the checksums tell; a range is read. If the write succeeds, what is read is
    always a start of the range, and all of it without an error; and there is no error if `dataBlocks` of the disks
    took everything and were spared.
   */
  method WriteThenRead(disks: array<Option<Disk>>, reader: Stream, writer: Sink, blockSize: nat, c: Code, algo: string,
                       digest: (HashAlgo, Bytes) -> string, writeQuorum: nat,
                       damage: seq<Option<Disk>> -> seq<Option<Disk>>,
                       offset: nat, length: nat, ghost good: set<nat>)
    returns (written: Option<Error>, n: nat, err: Option<Error>)
    requires blockSize > 0 && disks.Length == c.Width() && FreshFailStop(disks[..], Appends(|reader.rest|, blockSize))
    requires 0 < length && offset + length <= |reader.rest|
    requires (forall m: nat :: writer.accepts(m)) && forall b: Bytes :: digest(NewHash(algo), b) != ""
    requires Detected(damage, (b: Bytes) => digest(NewHash(algo), b))
    requires Spared(disks[..], Appends(|reader.rest|, blockSize), damage, good)
    modifies disks, reader, writer
    ensures written.None? ==>
                old(writer.data) <= writer.data <= old(writer.data) + old(reader.rest)[offset..offset + length]
    ensures written.None? && err.None? ==>
                n == length && writer.data == old(writer.data) + old(reader.rest)[offset..offset + length]
    ensures written.None? && |good| >= c.dataBlocks ==> err.None?
  {
    ghost var ds, data := disks[..], reader.rest;
    var total, sums, failed;
    ghost var m, took;
    total, sums, failed, m, took := ErasureCreateFile(disks, reader, blockSize, c, algo, digest, writeQuorum);
    if failed.Some? { return failed, 0, None; }
    ghost var checks := ChecksOf(sums, algo, digest);
    ghost var now := disks[..];
    var later := damage(disks[..]);
    AfterDamage(ds, now, took, damage, checks, c, data, blockSize, offset, length, good);
    forall i | 0 <= i < disks.Length { disks[i] := later[i]; }
    assert disks[..] == later;
    n, err := ErasureReadFile(writer, disks, offset, length, total, blockSize, c, sums, algo, digest, data);
    written := None;
  }

  /** Disks that take all `n` appends, and are spared whatever the others suffer. */
  ghost predicate Spared(ds: seq<Option<Disk>>, n: nat, damage: seq<Option<Disk>> -> seq<Option<Disk>>,
                         good: set<nat>) {
    forall i | i in good ::
      && i < |ds| && ds[i].Some? && TookAll(ds[i].value, n)
      && forall x: seq<Option<Disk>> | |x| == |ds| :: Spares(damage, x, i)
  }

  lemma AfterDamage(ds: seq<Option<Disk>>, now: seq<Option<Disk>>, took: seq<Bytes>,
                    damage: seq<Option<Disk>> -> seq<Option<Disk>>, checks: Checks, c: Code, data: Bytes,
                    blockSize: nat,
                    offset: nat, length: nat, good: set<nat>)
    requires blockSize > 0 && FreshFailStop(ds, Appends(|data|, blockSize)) && 0 < length && offset + length <= |data|
    requires Wrote(ds, c, data, blockSize, Appends(|data|, blockSize), now, took)
    requires SumsOf(checks, took) && Detected(damage, checks.digest) && (forall b: Bytes :: checks.digest(b) != "")
    requires Spared(ds, Appends(|data|, blockSize), damage, good)
    ensures |damage(now)| == |now| && Faithful(damage(now), checks, c, blockSize, data)
    ensures |good| >= c.dataBlocks ==> RangeReadable(damage(now), checks, c, blockSize, |data|, offset, length)
  {
    StillFaithful(ds, now, took, damage, checks, c, data, blockSize);
    if |good| >= c.dataBlocks {
      StillReadable(ds, now, took, damage, checks, c, data, blockSize, offset, length, good);
    }
  }

  /** The checksums of what each disk took. */
  ghost predicate SumsOf(checks: Checks, took: seq<Bytes>) {
    |checks.sums| == |took| && forall i | 0 <= i < |took| :: checks.sums[i] == checks.digest(took[i])
  }

  lemma StillFaithful(ds: seq<Option<Disk>>, now: seq<Option<Disk>>, took: seq<Bytes>,
                      damage: seq<Option<Disk>> -> seq<Option<Disk>>,
                      checks: Checks, c: Code, data: Bytes, blockSize: nat)
    requires blockSize > 0 && FreshFailStop(ds, Appends(|data|, blockSize))
    requires Wrote(ds, c, data, blockSize, Appends(|data|, blockSize), now, took)
    requires SumsOf(checks, took) && Detected(damage, checks.digest)
    ensures |damage(now)| == |now| && Faithful(damage(now), checks, c, blockSize, data)
  {
    var later := damage(now);
    forall i | 0 <= i < |later| && Intact(later[i], checks.sums[i], checks.digest)
      ensures later[i].value.file == took[i]
    {
      if ds[i].Some? { WroteFile(ds, c, data, blockSize, Appends(|data|, blockSize), now, took, i); }
      assert Telling(now[i], later[i], checks.digest);
    }
    WrittenIsFaithful(ds, now, took, later, checks, c, data, blockSize);
  }

  lemma StillReadable(ds: seq<Option<Disk>>, now: seq<Option<Disk>>, took: seq<Bytes>,
                      damage: seq<Option<Disk>> -> seq<Option<Disk>>,
                      checks: Checks, c: Code, data: Bytes, blockSize: nat, offset: nat, length: nat, good: set<nat>)
    requires blockSize > 0 && FreshFailStop(ds, Appends(|data|, blockSize)) && 0 < length && offset + length <= |data|
    requires Wrote(ds, c, data, blockSize, Appends(|data|, blockSize), now, took)
    requires SumsOf(checks, took) && |damage(now)| == |now| && (forall b: Bytes :: checks.digest(b) != "")
             && |good| >= c.dataBlocks
    requires forall i | i in good :: i < |ds| && ds[i].Some? && TookAll(ds[i].value, Appends(|data|, blockSize))
                                     && Spares(damage, now, i)
    ensures RangeReadable(damage(now), checks, c, blockSize, |data|, offset, length)
  {
    forall i | i in good ensures Good(damage(now)[i], checks, c, data, blockSize, i) {
      WroteFile(ds, c, data, blockSize, Appends(|data|, blockSize), now, took, i);
    }
    GoodRangeReadable(damage(now), checks, c, data, blockSize, offset, length, good);
  }

  lemma WroteFile(ds: seq<Option<Disk>>, c: Code, data: Bytes, blockSize: nat, m: nat, now: seq<Option<Disk>>,
                  took: seq<Bytes>, i: nat)
    requires blockSize > 0 && Wrote(ds, c, data, blockSize, m, now, took) && m == Appends(|data|, blockSize)
    requires i < |ds| && ds[i].Some? && ds[i].value.file == []
    ensures now[i].Some? && now[i].value.file == took[i] && now[i].value.readable == ds[i].value.readable
    ensures TookAll(ds[i].value, m) ==> took[i] == ShardFile(c, data, blockSize, i)
  {
    var d, all := ds[i].value, Sends(c, data, blockSize, i);
    assert SlotWrote(d, all, m, now[i], took[i]);
    AppendAllIs(d, all, m);
    TakenAll(d, all, m);
    SendsAreShardFile(c, data, blockSize, i);
    assert all[..m] == all;
    assert d.file + Taken(d, all, m) == Taken(d, all, m);
  }
}
