/** Writing a stream as an erasure coded file (cmd/erasure-createfile.go). */
module ErasureCreate {
  import opened Wrappers
  import opened ErasureCode
  import opened Storage

  // ------------------------------------------------------------ what one disk gets

  /** How many appends a stream of `total` bytes takes. */
  function Appends(total: nat, blockSize: nat): nat
    requires blockSize > 0
  {
    if total <= blockSize then 1 else 1 + Appends(total - blockSize, blockSize)
  }

  /** The shards disk `i` is sent, one per block; an empty stream sends one empty append. */
  ghost function Sends(c: Code, data: Bytes, blockSize: nat, i: nat): (r: seq<Bytes>)
    requires blockSize > 0 && i < c.Width()
    ensures |r| == Appends(|data|, blockSize)
    decreases |data|
  {
    if data == [] then [[]]
    else
      var n := Min(blockSize, |data|);
      [EncodeBlock(c, data[..n])[i]] + (if n == |data| then [] else Sends(c, data[n..], blockSize, i))
  }

  /** A disk after it was sent the first `n` of `shards`, one append each. */
  function AppendAll(d: Disk, shards: seq<Bytes>, n: nat): Disk
    requires n <= |shards|
  {
    if n == 0 then d else AppendAll(d, shards, n - 1).AppendFile(shards[n - 1])
  }

  /** The shards among the first `n` that the disk took, joined: what its file gains and what its hash is made of. */
  function Taken(d: Disk, shards: seq<Bytes>, n: nat): Bytes
    requires n <= |shards|
  {
    if n == 0 then []
    else if d.Takes(n - 1) then Taken(d, shards, n - 1) + shards[n - 1]
    else Taken(d, shards, n - 1)
  }

  lemma {:induction false} AppendAllIs(d: Disk, shards: seq<Bytes>, n: nat)
    requires n <= |shards|
    ensures AppendAll(d, shards, n) == d.(file := d.file + Taken(d, shards, n), appends := d.appends + n)
  {
    if n > 0 {
      AppendAllIs(d, shards, n - 1);
    } else {
      assert d.file + [] == d.file;
    }
  }

  /** The disk takes its next `n` appends. */
  ghost predicate TookAll(d: Disk, n: nat) {
    n == 0 || (d.Takes(n - 1) && TookAll(d, n - 1))
  }

  /** Among its next `n` appends the disk takes none after one it refused. */
  ghost predicate FailStop(d: Disk, n: nat) {
    forall j: nat, k: nat {:trigger d.Takes(j), d.Takes(k)} ::
      j <= k < n && d.Takes(k) ==> d.Takes(j)
  }

  lemma {:induction false} FailStopTookAll(d: Disk, n: nat)
    requires FailStop(d, n) && n > 0 && d.Takes(n - 1)
    ensures TookAll(d, n)
  {
    if n > 1 {
      assert d.Takes(n - 1) && d.Takes(n - 2);
      FailStopTookAll(d, n - 1);
    }
  }

  lemma {:induction false} SendsAreShardFile(c: Code, data: Bytes, blockSize: nat, i: nat)
    requires blockSize > 0 && i < c.Width()
    ensures Flatten(Sends(c, data, blockSize, i)) == ShardFile(c, data, blockSize, i)
    ensures data != [] ==> forall s | s in Sends(c, data, blockSize, i) :: s != []
    decreases |data|
  {
    if data != [] {
      var n := Min(blockSize, |data|);
      ChunkSizeIsLeast(n, c.dataBlocks);
      if n < |data| {
        SendsAreShardFile(c, data[n..], blockSize, i);
      } else {
        assert ShardFile(c, data[n..], blockSize, i) == [];
      }
    } else {
      assert Flatten([[]]) == [];
    }
  }

  lemma FlattenStep(shards: seq<Bytes>, n: nat)
    requires 0 < n <= |shards|
    ensures Flatten(shards[..n]) == Flatten(shards[..n - 1]) + shards[n - 1]
  {
    assert shards[..n] == shards[..n - 1] + [shards[n - 1]];
    FlattenAppend(shards[..n - 1], [shards[n - 1]]);
    assert Flatten([shards[n - 1]]) == shards[n - 1];
  }

  /** A disk's file is complete exactly when it took every append; a fail-stop disk holds the start of it. */
  lemma {:induction false} TakenAll(d: Disk, shards: seq<Bytes>, n: nat)
    requires n <= |shards|
    ensures TookAll(d, n) ==> Taken(d, shards, n) == Flatten(shards[..n])
    ensures |Taken(d, shards, n)| <= |Flatten(shards[..n])|
    ensures !TookAll(d, n) && (forall s | s in shards :: s != []) ==> |Taken(d, shards, n)| < |Flatten(shards[..n])|
    ensures FailStop(d, n) ==> Taken(d, shards, n) <= Flatten(shards[..n])
  {
    if n > 0 {
      TakenAll(d, shards, n - 1);
      FlattenStep(shards, n);
      assert shards[n - 1] in shards;
      if FailStop(d, n) && d.Takes(n - 1) {
        FailStopTookAll(d, n);
      }
    }
  }

  // ------------------------------------------------------------ all disks

  /** Slots whose next append gives no error: an absent disk gives none either. */
  function Clean(ds: seq<Option<Disk>>): set<nat> {
    set i: nat | i < |ds| && (ds[i].None? || ds[i].value.Accepting())
  }

  /** The same for the append after `j` more. */
  function CleanAfter(ds: seq<Option<Disk>>, j: nat): set<nat> {
    set i: nat | i < |ds| && (ds[i].None? || ds[i].value.Takes(j))
  }

  lemma CleanStep(ds: seq<Option<Disk>>, i: nat)
    requires i < |ds|
    ensures |Clean(ds[..i + 1])| == |Clean(ds[..i])| + (if ds[i].None? || ds[i].value.Accepting() then 1 else 0)
  {
    var a, b := Clean(ds[..i]), Clean(ds[..i + 1]);
    assert b == if ds[i].None? || ds[i].value.Accepting() then a + {i} else a;
  }

  /** The disks and the bytes hashed for each, after `shards[i]` was appended to disk `i`. */
  ghost predicate Appended(ds: seq<Option<Disk>>, hashed: seq<Bytes>, shards: seq<Bytes>,
                           ds': seq<Option<Disk>>, hashed': seq<Bytes>)
  {
    && |ds| == |hashed| == |shards| == |ds'| == |hashed'|
    && forall i | 0 <= i < |ds| ::
         SlotAppended(ds[i], hashed[i], shards[i], ds'[i], hashed'[i])
  }

  /** appendFile: sends every disk its shard; the goroutines of the source touch disjoint disks. */
  method AppendFile(disks: array<Option<Disk>>, shards: seq<Bytes>, hashed: array<Bytes>, writeQuorum: nat)
    returns (ok: bool)
    requires disks.Length == hashed.Length == |shards|
    modifies disks, hashed
    ensures Appended(old(disks[..]), old(hashed[..]), shards, disks[..], hashed[..])
    ensures ok <==> |Clean(old(disks[..]))| >= writeQuorum
  {
    ghost var ds, hs := disks[..], hashed[..];
    var clean := 0;
    for i := 0 to disks.Length
      invariant Appended(ds[..i], hs[..i], shards[..i], disks[..i], hashed[..i])
      invariant forall j | i <= j < disks.Length :: disks[j] == ds[j] && hashed[j] == hs[j]
      invariant clean == |Clean(ds[..i])|
    {
      CleanStep(ds, i);
      if disks[i].None? {
        clean := clean + 1;
        continue;
      }
      var d := disks[i].value;
      disks[i] := Some(d.AppendFile(shards[i]));
      if d.Accepting() {
        hashed[i] := hashed[i] + shards[i];
        clean := clean + 1;
      }
    }
    assert ds[..disks.Length] == ds && hs[..disks.Length] == hs && shards[..disks.Length] == shards;
    assert disks[..disks.Length] == disks[..] && hashed[..disks.Length] == hashed[..];
    ok := clean >= writeQuorum;
  }

  /** After `m` appends: every disk present got the first `m` of its shards. */
  ghost predicate Wrote(ds: seq<Option<Disk>>, c: Code, data: Bytes, blockSize: nat, m: nat,
                        ds': seq<Option<Disk>>, hashed: seq<Bytes>)
    requires blockSize > 0
  {
    && |ds| == |ds'| == |hashed| == c.Width() && m <= Appends(|data|, blockSize)
    && forall i | 0 <= i < |ds| ::
         if ds[i].None? then ds'[i] == None && hashed[i] == []
         else SlotWrote(ds[i].value, Sends(c, data, blockSize, i), m, ds'[i], hashed[i])
  }

  /** `rest` is what is left of `data` after `m` appends. */
  ghost predicate Left(c: Code, data: Bytes, blockSize: nat, m: nat, rest: Bytes)
    requires blockSize > 0
  {
    && (m > 0 && rest == [] ==> m == Appends(|data|, blockSize))
    && (m == 0 || rest != [] ==>
          m < Appends(|data|, blockSize)
          && forall i | 0 <= i < c.Width() :: Sends(c, data, blockSize, i)[m..] == Sends(c, rest, blockSize, i))
  }

  function Empties(n: nat): (r: seq<Bytes>)
    ensures |r| == n
  {
    seq(n, _ => [])
  }

  /** The shards of the next append. */
  ghost function NextShards(c: Code, rest: Bytes, blockSize: nat): (r: seq<Bytes>)
    requires blockSize > 0
    ensures |r| == c.Width()
  {
    if rest == [] then Empties(c.Width()) else EncodeBlock(c, rest[..Min(blockSize, |rest|)])
  }

  lemma LeftStep(c: Code, data: Bytes, blockSize: nat, m: nat, rest: Bytes)
    requires blockSize > 0 && Left(c, data, blockSize, m, rest) && (m == 0 || rest != [])
    ensures m < Appends(|data|, blockSize)
    ensures forall i | 0 <= i < c.Width() :: Sends(c, data, blockSize, i)[m] == NextShards(c, rest, blockSize)[i]
    ensures Left(c, data, blockSize, m + 1, rest[Min(blockSize, |rest|)..])
  {
    var n := Min(blockSize, |rest|);
    forall i | 0 <= i < c.Width()
      ensures Sends(c, data, blockSize, i)[m] == NextShards(c, rest, blockSize)[i]
      ensures n < |rest| ==> Sends(c, data, blockSize, i)[m + 1..] == Sends(c, rest[n..], blockSize, i)
    {
      var all := Sends(c, data, blockSize, i);
      assert all[m] == all[m..][0] && all[m + 1..] == all[m..][1..];
    }
    LeftCount(c, data, blockSize, m, rest);
  }

  lemma LeftCount(c: Code, data: Bytes, blockSize: nat, m: nat, rest: Bytes)
    requires blockSize > 0 && Left(c, data, blockSize, m, rest) && (m == 0 || rest != [])
    ensures Appends(|data|, blockSize) - m == Appends(|rest|, blockSize)
  {
    assert 0 < c.Width();
    var all := Sends(c, data, blockSize, 0);
    assert |all[m..]| == |all| - m;
  }

  /** Slot by slot, what `Wrote` says of a disk that is present. */
  ghost predicate SlotWrote(d: Disk, all: seq<Bytes>, m: nat, now: Option<Disk>, hashed: Bytes)
    requires m <= |all|
  {
    now == Some(AppendAll(d, all, m)) && hashed == Taken(d, all, m)
  }

  /** Effect of one append on one disk and its hash. */
  ghost predicate SlotAppended(now: Option<Disk>, hashed: Bytes, shard: Bytes, now': Option<Disk>, hashed': Bytes) {
    if now.None? then now' == None && hashed' == hashed
    else now' == Some(now.value.AppendFile(shard))
         && hashed' == if now.value.Accepting() then hashed + shard else hashed
  }

  lemma SlotStep(d: Disk, all: seq<Bytes>, m: nat, now: Option<Disk>, hashed: Bytes, now': Option<Disk>, hashed': Bytes)
    requires m < |all| && SlotWrote(d, all, m, now, hashed) && SlotAppended(now, hashed, all[m], now', hashed')
    ensures SlotWrote(d, all, m + 1, now', hashed')
    ensures now.Some? && now.value.Accepting() == d.Takes(m)
  {
    AppendAllIs(d, all, m);
  }

  lemma WroteStep(ds: seq<Option<Disk>>, c: Code, data: Bytes, blockSize: nat, m: nat, rest: Bytes,
                  now: seq<Option<Disk>>, hashed: seq<Bytes>, now': seq<Option<Disk>>, hashed': seq<Bytes>)
    requires blockSize > 0 && Wrote(ds, c, data, blockSize, m, now, hashed)
    requires Left(c, data, blockSize, m, rest) && (m == 0 || rest != [])
    requires Appended(now, hashed, NextShards(c, rest, blockSize), now', hashed')
    ensures m < Appends(|data|, blockSize) && Wrote(ds, c, data, blockSize, m + 1, now', hashed')
    ensures Clean(now) == CleanAfter(ds, m)
  {
    LeftStep(c, data, blockSize, m, rest);
    forall i | 0 <= i < |ds| && ds[i].Some?
      ensures SlotWrote(ds[i].value, Sends(c, data, blockSize, i), m + 1, now'[i], hashed'[i])
      ensures now[i].Some? && now[i].value.Accepting() == ds[i].value.Takes(m)
    {
      SlotStep(ds[i].value, Sends(c, data, blockSize, i), m, now[i], hashed[i], now'[i], hashed'[i]);
    }
    CleanLater(ds, now, m);
  }

  lemma CleanLater(ds: seq<Option<Disk>>, now: seq<Option<Disk>>, m: nat)
    requires |now| == |ds|
    requires forall i | 0 <= i < |ds| ::
               if ds[i].None? then now[i].None?
               else now[i].Some? && now[i].value.Accepting() == ds[i].value.Takes(m)
    ensures Clean(now) == CleanAfter(ds, m)
  {
  }

  /** Sends the next block (or, for an empty stream, the empty append) to all disks. */
  method SendNext(disks: array<Option<Disk>>, hashed: array<Bytes>, shards: seq<Bytes>, writeQuorum: nat,
                  ghost ds: seq<Option<Disk>>, c: Code, ghost data: Bytes, ghost blockSize: nat, ghost m: nat,
                  ghost rest: Bytes)
    returns (ok: bool)
    requires blockSize > 0 && disks.Length == hashed.Length
    requires Wrote(ds, c, data, blockSize, m, disks[..], hashed[..])
    requires Left(c, data, blockSize, m, rest) && (m == 0 || rest != []) && shards == NextShards(c, rest, blockSize)
    modifies disks, hashed
    ensures m < Appends(|data|, blockSize) && Wrote(ds, c, data, blockSize, m + 1, disks[..], hashed[..])
    ensures ok <==> |CleanAfter(ds, m)| >= writeQuorum
    ensures Left(c, data, blockSize, m + 1, rest[Min(blockSize, |rest|)..])
  {
    ghost var now, hs := disks[..], hashed[..];
    ok := AppendFile(disks, shards, hashed, writeQuorum);
    WroteStep(ds, c, data, blockSize, m, rest, now, hs, disks[..], hashed[..]);
    LeftStep(c, data, blockSize, m, rest);
  }

  /** Every append up to the `m`-th met the write quorum. */
  ghost predicate QuorumUpTo(ds: seq<Option<Disk>>, writeQuorum: nat, m: nat) {
    m == 0 || (QuorumUpTo(ds, writeQuorum, m - 1) && |CleanAfter(ds, m - 1)| >= writeQuorum)
  }

  lemma {:induction false} QuorumPrefix(ds: seq<Option<Disk>>, writeQuorum: nat, m: nat, n: nat)
    requires m <= n && QuorumUpTo(ds, writeQuorum, n)
    ensures QuorumUpTo(ds, writeQuorum, m)
    decreases n
  {
    if m < n { QuorumPrefix(ds, writeQuorum, m, n - 1); }
  }

  /** What the write has done after `m` appends. */
  ghost predicate Sending(ds: seq<Option<Disk>>, c: Code, data: Bytes, blockSize: nat, writeQuorum: nat,
                          m: nat, rest: Bytes, now: seq<Option<Disk>>, hashed: seq<Bytes>)
    requires blockSize > 0
  {
    && Wrote(ds, c, data, blockSize, m, now, hashed)
    && Left(c, data, blockSize, m, rest)
    && QuorumUpTo(ds, writeQuorum, m)
  }

  datatype Step = More(n: nat) | Finished | Failed(error: Error)

  /** How one iteration ends, `rest` being what the stream held before it and `rest'` after it. */
  ghost predicate Iterated(ds: seq<Option<Disk>>, c: Code, data: Bytes, blockSize: nat, writeQuorum: nat, m: nat,
                           rest: Bytes,
                           step: Step, m': nat, rest': Bytes, now: seq<Option<Disk>>, hashed: seq<Bytes>)
    requires blockSize > 0
  {
    && Wrote(ds, c, data, blockSize, m', now, hashed)
    && match step
       case More(n) => && m' == m + 1 && 0 < n && n + |rest'| == |rest|
                       && Sending(ds, c, data, blockSize, writeQuorum, m', rest', now, hashed)
       case Finished => rest == [] && m' == Appends(|data|, blockSize) && QuorumUpTo(ds, writeQuorum, m')
       case Failed(e) => e == WriteQuorum ==> !QuorumUpTo(ds, writeQuorum, m')
  }

  /** One iteration of the read loop. */
  method WriteBlock(disks: array<Option<Disk>>, hashed: array<Bytes>, reader: Stream, blockSize: nat, c: Code,
                    writeQuorum: nat,
                    bytesWritten: nat, ghost ds: seq<Option<Disk>>, ghost data: Bytes, ghost m: nat)
    returns (step: Step, ghost m': nat)
    requires blockSize > 0 && disks.Length == hashed.Length
    requires Sending(ds, c, data, blockSize, writeQuorum, m, reader.rest, disks[..], hashed[..])
    requires bytesWritten == 0 <==> m == 0
    modifies disks, hashed, reader
    ensures Iterated(ds, c, data, blockSize, writeQuorum, m, old(reader.rest), step, m', reader.rest, disks[..],
                     hashed[..])
    ensures step.Finished? ==> reader.end == CleanEof
    ensures step.Failed? && step.error != WriteQuorum ==> step.error == StreamFailed && reader.end != CleanEof
  {
    ghost var rest := reader.rest;
    var buf, end := reader.ReadFull(blockSize);
    if |buf| == 0 && end == UnexpectedEof {
      return Failed(StreamFailed), m;
    }
    if end == Eof {
      if bytesWritten == 0 {
        step := SendEmpty(disks, hashed, blockSize, c, writeQuorum, ds, data);
        return step, 1;
      }
      return Finished, m;
    }
    if end == Fault {
      return Failed(StreamFailed), m;
    }
    step := SendBlock(disks, hashed, buf, blockSize, c, writeQuorum, ds, data, m, rest);
    m' := m + 1;
  }

  /** Nothing came: an empty append creates the file. */
  method SendEmpty(disks: array<Option<Disk>>, hashed: array<Bytes>, ghost blockSize: nat, c: Code, writeQuorum: nat,
                   ghost ds: seq<Option<Disk>>, ghost data: Bytes)
    returns (step: Step)
    requires blockSize > 0 && disks.Length == hashed.Length
    requires Sending(ds, c, data, blockSize, writeQuorum, 0, [], disks[..], hashed[..])
    modifies disks, hashed
    ensures Iterated(ds, c, data, blockSize, writeQuorum, 0, [], step, 1, [], disks[..], hashed[..])
    ensures step == Finished || step == Failed(WriteQuorum)
  {
    var ok := SendNext(disks, hashed, Empties(c.Width()), writeQuorum, ds, c, data, blockSize, 0, []);
    step := if ok then Finished else Failed(WriteQuorum);
  }

  method SendBlock(disks: array<Option<Disk>>, hashed: array<Bytes>, buf: Bytes, ghost blockSize: nat, c: Code,
                   writeQuorum: nat,
                   ghost ds: seq<Option<Disk>>, ghost data: Bytes, ghost m: nat, ghost rest: Bytes)
    returns (step: Step)
    requires blockSize > 0 && disks.Length == hashed.Length && rest != [] && buf == rest[..Min(blockSize, |rest|)]
    requires Sending(ds, c, data, blockSize, writeQuorum, m, rest, disks[..], hashed[..])
    modifies disks, hashed
    ensures Iterated(ds, c, data, blockSize, writeQuorum, m, rest, step, m + 1, rest[Min(blockSize, |rest|)..],
                     disks[..], hashed[..])
    ensures step == More(|buf|) || step == Failed(WriteQuorum)
  {
    var ok := SendNext(disks, hashed, EncodeBlock(c, buf), writeQuorum, ds, c, data, blockSize, m, rest);
    step := if ok then More(|buf|) else Failed(WriteQuorum);
  }

  /** The read loop: sends block after block until the stream ends or something fails. */
  method WriteStream(disks: array<Option<Disk>>, hashed: array<Bytes>, reader: Stream, blockSize: nat, c: Code,
                     writeQuorum: nat)
    returns (bytesWritten: nat, err: Option<Error>, ghost m: nat)
    requires blockSize > 0 && disks.Length == hashed.Length == c.Width()
    requires Wrote(disks[..], c, reader.rest, blockSize, 0, disks[..], hashed[..])
    modifies disks, hashed, reader
    ensures Wrote(old(disks[..]), c, old(reader.rest), blockSize, m, disks[..], hashed[..])
    ensures err.None? ==> bytesWritten == |old(reader.rest)| && m == Appends(|old(reader.rest)|, blockSize)
    ensures err.None? ==> reader.end == CleanEof && QuorumUpTo(old(disks[..]), writeQuorum, m)
    ensures err == Some(WriteQuorum) ==> !QuorumUpTo(old(disks[..]), writeQuorum, m)
    ensures err.Some? && err != Some(WriteQuorum) ==> err == Some(StreamFailed) && reader.end != CleanEof
  {
    ghost var ds, data := disks[..], reader.rest;
    bytesWritten, m := 0, 0;
    while true
      invariant Sending(ds, c, data, blockSize, writeQuorum, m, reader.rest, disks[..], hashed[..])
      invariant bytesWritten + |reader.rest| == |data| && (bytesWritten == 0 <==> m == 0)
      decreases |reader.rest|
    {
      var step;
      step, m := WriteBlock(disks, hashed, reader, blockSize, c, writeQuorum, bytesWritten, ds, data, m);
      match step
      case More(n) => bytesWritten := bytesWritten + n;
      case Finished => return bytesWritten, None, m;
      case Failed(e) => return 0, Some(e), m;
    }
  }

  /**
    Writes a stream to all disks; `m` counts the appends each disk was sent. Without an error every disk was
    sent all shards of the stream, and its checksum is that of the shards it took. There is no error exactly
    when the stream ends cleanly and every append meets the write quorum.
   */
  method ErasureCreateFile(disks: array<Option<Disk>>, reader: Stream, blockSize: nat, c: Code, algo: string,
                           digest: (HashAlgo, Bytes) -> string, writeQuorum: nat)
    returns (bytesWritten: nat, checkSums: seq<string>, err: Option<Error>, ghost m: nat, ghost took: seq<Bytes>)
    requires blockSize > 0 && disks.Length == c.Width()
    modifies disks, reader
    ensures Wrote(old(disks[..]), c, old(reader.rest), blockSize, m, disks[..], took)
    ensures err.None? ==> bytesWritten == |old(reader.rest)| && m == Appends(|old(reader.rest)|, blockSize)
    ensures err.None? ==> |checkSums| == |took|
                          && forall i | 0 <= i < |took| :: checkSums[i] == digest(NewHash(algo), took[i])
    ensures err.None? <==> reader.end == CleanEof
                           && QuorumUpTo(old(disks[..]), writeQuorum, Appends(|old(reader.rest)|, blockSize))
    ensures err.Some? ==> bytesWritten == 0 && checkSums == []
  {
    ghost var ds, data := disks[..], reader.rest;
    var hashed := new Bytes[disks.Length](_ => []);
    bytesWritten, err, m := WriteStream(disks, hashed, reader, blockSize, c, writeQuorum);
    took := hashed[..];
    if err.Some? {
      if QuorumUpTo(ds, writeQuorum, Appends(|data|, blockSize)) {
        QuorumPrefix(ds, writeQuorum, m, Appends(|data|, blockSize));
      }
      return 0, [], err, m, took;
    }
    var sums := hashed[..];
    checkSums := seq(|sums|, i requires 0 <= i < |sums| => digest(NewHash(algo), sums[i]));
  }
}
