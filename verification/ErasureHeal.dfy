/** Rebuilding lost shard files (cmd/erasure-healfile.go). */
module ErasureHeal {
  import opened Wrappers
  import opened Sets
  import opened ErasureCode
  import opened Storage
  import opened ErasureDecode

  /** What the latest disks give at `offset`. */
  ghost function Reads(latest: seq<Option<Disk>>, offset: nat, n: nat): (x: seq<Option<Bytes>>)
    ensures |x| == |latest|
  {
    seq(|latest|, i requires 0 <= i < |latest| => if latest[i].None? then None else latest[i].value.ReadAt(offset, n))
  }

  method ReadLatest(latest: seq<Option<Disk>>, offset: nat, n: nat) returns (enBlocks: array<Option<Bytes>>)
    ensures fresh(enBlocks) && enBlocks[..] == Reads(latest, offset, n)
  {
    enBlocks := new Option<Bytes>[|latest|](_ => None);
    for i := 0 to |latest|
      invariant forall j | 0 <= j < i :: enBlocks[j] == Reads(latest, offset, n)[j]
      invariant forall j | i <= j < |latest| :: enBlocks[j] == None
    {
      if latest[i].None? { continue; }
      var (buf, end) := latest[i].value.ReadFile(offset, n);
      if end == Full { enBlocks[i] := Some(buf); }
    }
  }

  /** One outdated disk and its hash after a shard was appended. */
  ghost predicate Healed(d: Option<Disk>, hashed: Bytes, shard: Bytes, d': Option<Disk>, hashed': Bytes) {
    if d.None? then d' == None && hashed' == hashed
    else d.value.Accepting() && d' == Some(d.value.AppendFile(shard)) && hashed' == hashed + shard
  }

  /** Appends its shard to every outdated disk; stops at the first failure. */
  method AppendShards(outdated: array<Option<Disk>>, hashed: array<Bytes>, shards: seq<Bytes>) returns (ok: bool)
    requires outdated.Length == hashed.Length == |shards|
    modifies outdated, hashed
    ensures ok ==> forall i | 0 <= i < outdated.Length ::
              Healed(old(outdated[i]), old(hashed[i]), shards[i], outdated[i], hashed[i])
    ensures (forall i | 0 <= i < outdated.Length :: old(outdated[i]).None? || old(outdated[i]).value.Accepting()) ==> ok
  {
    for i := 0 to outdated.Length
      invariant forall j | 0 <= j < i :: Healed(old(outdated[j]), old(hashed[j]), shards[j], outdated[j], hashed[j])
      invariant forall j | i <= j < outdated.Length :: outdated[j] == old(outdated[j]) && hashed[j] == old(hashed[j])
    {
      if outdated[i].None? { continue; }
      var d := outdated[i].value;
      outdated[i] := Some(d.AppendFile(shards[i]));
      if !d.Accepting() { return false; }
      hashed[i] := hashed[i] + shards[i];
    }
    return true;
  }

  /** Slots in `good` give their true shard of `block`. */
  ghost predicate Trusted(x: seq<Option<Bytes>>, c: Code, block: Bytes, good: set<nat>) {
    && |x| == c.Width() && |good| >= c.dataBlocks
    && forall i | i in good :: i < |x| && x[i] == Some(EncodeBlock(c, block)[i])
  }

  /** With enough true shards a decoding is the true one, and with no false ones too there is one. */
  lemma DecodesTruly(c: Code, x: seq<Option<Bytes>>, block: Bytes, good: set<nat>)
    requires Trusted(x, c, block, good)
    ensures Decodes(c, x) ==> c.reconstruct(x).value == EncodeBlock(c, block)
    ensures block != [] && ShardsOf(x, EncodeBlock(c, block)) ==> Decodes(c, x)
  {
    if Decodes(c, x) { DecodeSound(c, x, block, good); }
    if block != [] && ShardsOf(x, EncodeBlock(c, block)) {
      GoodArePresent(x, good);
      DecodeComplete(c, x, block);
    }
  }

  /** Heals one block: exactly if the shards read decode and every outdated disk accepts its shard. */
  method HealBlock(latest: seq<Option<Disk>>, outdated: array<Option<Disk>>, hashed: array<Bytes>, c: Code,
                   offset: nat, n: nat)
    returns (err: Option<Error>)
    requires |latest| == c.Width() == outdated.Length == hashed.Length
    modifies outdated, hashed
    ensures err.None? <==> Decodes(c, Reads(latest, offset, n))
                           && forall i | 0 <= i < outdated.Length ::
                                old(outdated[i]).None? || old(outdated[i]).value.Accepting()
    ensures err.None? ==> |Present(Reads(latest, offset, n))| >= c.dataBlocks
    ensures err.None? ==> forall i | 0 <= i < outdated.Length ::
              Healed(old(outdated[i]), old(hashed[i]), c.reconstruct(Reads(latest, offset, n)).value[i],
                     outdated[i], hashed[i])
    ensures forall block, good | err.None? && Trusted(Reads(latest, offset, n), c, block, good) ::
              forall i | 0 <= i < outdated.Length ::
                Healed(old(outdated[i]), old(hashed[i]), EncodeBlock(c, block)[i], outdated[i], hashed[i])
    ensures forall block, good | block != [] && Trusted(Reads(latest, offset, n), c, block, good) ::
              && ShardsOf(Reads(latest, offset, n), EncodeBlock(c, block))
              && (forall i | 0 <= i < outdated.Length :: old(outdated[i]).None? || old(outdated[i]).value.Accepting())
              ==> err.None?
  {
    var enBlocks := ReadLatest(latest, offset, n);
    ghost var x := enBlocks[..];
    forall block, good | Trusted(x, c, block, good)
      ensures Decodes(c, x) ==> c.reconstruct(x).value == EncodeBlock(c, block)
      ensures block != [] && ShardsOf(x, EncodeBlock(c, block)) ==> Decodes(c, x)
    {
      DecodesTruly(c, x, block, good);
    }
    var ok := DecodeData(enBlocks, c);
    if !ok { return Some(DecodeFailed); }
    DecodedFits(c, x);
    var all := enBlocks[..];
    var shards := seq(|all|, i requires 0 <= i < |all| && all[i].Some? => all[i].value);
    ok := AppendShards(outdated, hashed, shards);
    return if ok then None else Some(AppendFailed);
  }

  lemma GoodArePresent(x: seq<Option<Bytes>>, good: set<nat>)
    requires forall i | i in good :: i < |x| && x[i].Some?
    ensures |good| <= |Present(x)|
  {
    Smaller(good, Present(x));
  }

  // ------------------------------------------------------------ the whole file

  /** How many blocks a file has. */
  function BlockCount(size: nat, blockSize: nat): nat
    requires blockSize > 0
  {
    ChunkSize(size, blockSize)
  }

  /** What the latest disks give for block `b` of a file of `size` bytes. */
  ghost function ReadsOf(latest: seq<Option<Disk>>, c: Code, size: nat, blockSize: nat, b: nat)
    : (x: seq<Option<Bytes>>)
    ensures |x| == |latest|
  {
    var n := if Times(b, blockSize) <= size then ChunkLen(c, blockSize, size, b) else 0;
    Reads(latest, ChunkOffset(c, blockSize, b), n)
  }

  /** Every block can be decoded from what the latest disks give. */
  ghost predicate AllDecode(latest: seq<Option<Disk>>, c: Code, size: nat, blockSize: nat) {
    forall b: nat | Times(b, blockSize) < size :: Decodes(c, ReadsOf(latest, c, size, blockSize, b))
  }

  /** Every disk accepts its next `m` appends. */
  ghost predicate AllTake(ds: seq<Option<Disk>>, m: nat) {
    forall i, j: nat | 0 <= i < |ds| && ds[i].Some? && j < m :: ds[i].value.Takes(j)
  }

  /** The slots in `good`, at least `dataBlocks` of them, give true shards of every block. */
  ghost predicate EnoughTrue(latest: seq<Option<Disk>>, c: Code, data: Bytes, blockSize: nat, good: set<nat>) {
    forall b: nat {:trigger ReadsOf(latest, c, |data|, blockSize, b)} | Times(b, blockSize) < |data| ::
      Trusted(ReadsOf(latest, c, |data|, blockSize, b), c, Block(data, blockSize, b), good)
  }

  /** No latest disk gives a false shard. */
  ghost predicate NoneFalse(latest: seq<Option<Disk>>, c: Code, data: Bytes, blockSize: nat) {
    forall b: nat {:trigger ReadsOf(latest, c, |data|, blockSize, b)} | Times(b, blockSize) < |data| ::
      ShardsOf(ReadsOf(latest, c, |data|, blockSize, b), EncodeBlock(c, Block(data, blockSize, b)))
  }

  ghost predicate AllAccept(ds: seq<Option<Disk>>) {
    forall i, n: nat | 0 <= i < |ds| && ds[i].Some? :: ds[i].value.accepts(n)
  }

  /** Disk `d` after shards making up `healed` were appended to it in `m` calls. */
  ghost predicate Grown(d: Option<Disk>, m: nat, healed: Bytes, d': Option<Disk>) {
    if d.None? then d' == None
    else d' == Some(d.value.(file := d.value.file + healed, appends := d.value.appends + m))
  }

  /** Shard `i` of the blocks one after the other. */
  ghost function Joined(blocks: seq<seq<Bytes>>, i: nat): Bytes {
    if blocks == [] then []
    else var n := |blocks| - 1; Joined(blocks[..n], i) + if i < |blocks[n]| then blocks[n][i] else []
  }

  /** One disk and its hash after these blocks were appended. */
  ghost predicate SlotSoFar(d: Option<Disk>, blocks: seq<seq<Bytes>>, i: nat, now: Option<Disk>, hashed: Bytes) {
    Grown(d, |blocks|, hashed, now) && (d.Some? ==> hashed == Joined(blocks, i))
  }

  /** The outdated disks after these blocks were appended, a shard for each disk. */
  ghost predicate HealedSoFar(ds: seq<Option<Disk>>, blocks: seq<seq<Bytes>>, now: seq<Option<Disk>>,
                              hashed: seq<Bytes>)
  {
    && |ds| == |now| == |hashed| && AllTake(ds, |blocks|)
    && forall i | 0 <= i < |ds| :: SlotSoFar(ds[i], blocks, i, now[i], hashed[i])
  }

  /** Block `b` decoded from what the latest disks give. */
  ghost predicate IsDecoded(y: seq<Bytes>, latest: seq<Option<Disk>>, c: Code, size: nat, blockSize: nat, b: nat) {
    var x := ReadsOf(latest, c, size, blockSize, b);
    Decodes(c, x) && c.reconstruct(x).value == y
  }

  ghost predicate AreDecoded(blocks: seq<seq<Bytes>>, latest: seq<Option<Disk>>, c: Code, size: nat, blockSize: nat) {
    forall b | 0 <= b < |blocks| :: IsDecoded(blocks[b], latest, c, size, blockSize, b)
  }

  /** One slot, one more block. */
  lemma SlotHealed(d: Option<Disk>, blocks: seq<seq<Bytes>>, i: nat, now: Option<Disk>, hashed: Bytes, y: seq<Bytes>,
                   now': Option<Disk>, hashed': Bytes)
    requires i < |y| && SlotSoFar(d, blocks, i, now, hashed) && Healed(now, hashed, y[i], now', hashed')
    ensures SlotSoFar(d, blocks + [y], i, now', hashed') && (d.Some? ==> d.value.Takes(|blocks|))
  {
    if d.Some? {
      assert (d.value.file + hashed) + y[i] == d.value.file + (hashed + y[i]);
      assert (blocks + [y])[..|blocks|] == blocks;
    }
  }

  lemma TakeMore(ds: seq<Option<Disk>>, m: nat)
    requires AllTake(ds, m) && forall i | 0 <= i < |ds| && ds[i].Some? :: ds[i].value.Takes(m)
    ensures AllTake(ds, m + 1)
  {
  }

  lemma HealStep(ds: seq<Option<Disk>>, blocks: seq<seq<Bytes>>, now: seq<Option<Disk>>, hashed: seq<Bytes>,
                 y: seq<Bytes>, now': seq<Option<Disk>>, hashed': seq<Bytes>)
    requires HealedSoFar(ds, blocks, now, hashed) && |y| == |now'| == |hashed'| == |now|
    requires forall i | 0 <= i < |now| :: Healed(now[i], hashed[i], y[i], now'[i], hashed'[i])
    ensures HealedSoFar(ds, blocks + [y], now', hashed')
  {
    forall i | 0 <= i < |ds|
      ensures SlotSoFar(ds[i], blocks + [y], i, now'[i], hashed'[i]) && (ds[i].Some? ==> ds[i].value.Takes(|blocks|))
    {
      SlotHealed(ds[i], blocks, i, now[i], hashed[i], y, now'[i], hashed'[i]);
    }
    TakeMore(ds, |blocks|);
  }

  /** A disk that would not take the next append would not take all of them. */
  lemma StuckAt(ds: seq<Option<Disk>>, blocks: seq<seq<Bytes>>, now: seq<Option<Disk>>, hashed: seq<Bytes>, n: nat)
    requires HealedSoFar(ds, blocks, now, hashed) && |blocks| < n && AllTake(ds, n)
    ensures forall i | 0 <= i < |now| :: now[i].None? || now[i].value.Accepting()
  {
    forall i | 0 <= i < |now| && now[i].Some? ensures now[i].value.Accepting() {
      assert SlotSoFar(ds[i], blocks, i, now[i], hashed[i]) && ds[i].value.Takes(|blocks|);
    }
  }

  /** Where the loop is before block `m`. */
  ghost predicate AtBlock(c: Code, size: nat, blockSize: nat, m: nat, remainingSize: nat, offset: nat) {
    && (m == 0 || Times(m - 1, blockSize) < size)
    && if Times(m, blockSize) < size then remainingSize == size - Times(m, blockSize)
                                          && offset == ChunkOffset(c, blockSize, m)
       else remainingSize == 0
  }

  lemma NextBlock(c: Code, size: nat, blockSize: nat, m: nat, remainingSize: nat, offset: nat)
    requires blockSize > 0 && remainingSize > 0 && AtBlock(c, size, blockSize, m, remainingSize, offset)
    ensures var n := Min(blockSize, remainingSize);
            && ChunkSize(n, c.dataBlocks) == ChunkLen(c, blockSize, size, m)
            && AtBlock(c, size, blockSize, m + 1, remainingSize - n, offset + ChunkSize(n, c.dataBlocks))
  {
  }

  lemma CountedBlocks(size: nat, blockSize: nat, m: nat)
    requires blockSize > 0 && (m == 0 || Times(m - 1, blockSize) < size)
    ensures m <= BlockCount(size, blockSize)
    ensures size <= Times(m, blockSize) ==> m == BlockCount(size, blockSize)
    ensures forall b: nat | Times(b, blockSize) < size :: b < BlockCount(size, blockSize)
  {
    var q := BlockCount(size, blockSize);
    ChunkSizeIsLeast(size, blockSize);
    forall b: nat | Times(b, blockSize) < size ensures b < q {
      if q <= b { TimesMonotone(q, b, blockSize); }
    }
    if q > m { TimesMonotone(m, q - 1, blockSize); }
  }

  /** One iteration of the loop: one more block. */
  method HealNext(latest: seq<Option<Disk>>, outdated: array<Option<Disk>>, hashed: array<Bytes>, c: Code,
                  remainingSize: nat, blockSize: nat, offset: nat, ghost size: nat, ghost ds: seq<Option<Disk>>,
                  ghost blocks: seq<seq<Bytes>>, ghost certain: bool)
    returns (curBlockSize: nat, curEncBlockSize: nat, err: Option<Error>, ghost more: seq<seq<Bytes>>)
    requires blockSize > 0 && |latest| == c.Width() == outdated.Length == hashed.Length
    requires remainingSize > 0 && AtBlock(c, size, blockSize, |blocks|, remainingSize, offset)
    requires HealedSoFar(ds, blocks, outdated[..], hashed[..]) && AreDecoded(blocks, latest, c, size, blockSize)
    requires certain ==> AllDecode(latest, c, size, blockSize) && AllTake(ds, BlockCount(size, blockSize))
    modifies outdated, hashed
    ensures 0 < curBlockSize <= remainingSize
    ensures AtBlock(c, size, blockSize, |blocks| + 1, remainingSize - curBlockSize, offset + curEncBlockSize)
    ensures err.None? ==> |more| == |blocks| + 1 && HealedSoFar(ds, more, outdated[..], hashed[..])
    ensures err.None? ==> AreDecoded(more, latest, c, size, blockSize)
    ensures certain ==> err.None?
  {
    curBlockSize := blockSize;
    if remainingSize < curBlockSize { curBlockSize := remainingSize; }
    curEncBlockSize := GetChunkSize(curBlockSize, c.dataBlocks);
    ghost var now, hs := outdated[..], hashed[..];
    NextBlock(c, size, blockSize, |blocks|, remainingSize, offset);
    CountedBlocks(size, blockSize, |blocks| + 1);
    if certain { StuckAt(ds, blocks, now, hs, BlockCount(size, blockSize)); }
    err := HealBlock(latest, outdated, hashed, c, offset, curEncBlockSize);
    more := blocks;
    if err.None? {
      ghost var y := c.reconstruct(Reads(latest, offset, curEncBlockSize)).value;
      HealStep(ds, blocks, now, hs, y, outdated[..], hashed[..]);
      DecodedMore(blocks, y, latest, c, size, blockSize);
      more := blocks + [y];
    }
  }

  /** The loop over the blocks. */
  method HealBlocks(latest: seq<Option<Disk>>, outdated: array<Option<Disk>>, hashed: array<Bytes>, size: nat,
                    blockSize: nat, c: Code, ghost ds: seq<Option<Disk>>, ghost certain: bool)
    returns (err: Option<Error>, ghost blocks: seq<seq<Bytes>>)
    requires blockSize > 0 && |latest| == c.Width() == outdated.Length == hashed.Length
    requires HealedSoFar(ds, [], outdated[..], hashed[..])
    requires certain ==> AllDecode(latest, c, size, blockSize) && AllTake(ds, BlockCount(size, blockSize))
    modifies outdated, hashed
    ensures err.None? ==> |blocks| == BlockCount(size, blockSize) && HealedSoFar(ds, blocks, outdated[..], hashed[..])
    ensures err.None? ==> AreDecoded(blocks, latest, c, size, blockSize)
    ensures certain ==> err.None?
  {
    var offset: nat, remainingSize: nat := 0, size;
    blocks := [];
    while remainingSize > 0
      invariant AtBlock(c, size, blockSize, |blocks|, remainingSize, offset)
      invariant HealedSoFar(ds, blocks, outdated[..], hashed[..]) && AreDecoded(blocks, latest, c, size, blockSize)
    {
      var curBlockSize, curEncBlockSize, failed;
      curBlockSize, curEncBlockSize, failed, blocks :=
        HealNext(latest, outdated, hashed, c, remainingSize, blockSize, offset, size, ds, blocks, certain);
      if failed.Some? { return failed, blocks; }
      remainingSize, offset := remainingSize - curBlockSize, offset + curEncBlockSize;
    }
    CountedBlocks(size, blockSize, |blocks|);
    err := None;
  }

  lemma DecodedMore(blocks: seq<seq<Bytes>>, y: seq<Bytes>, latest: seq<Option<Disk>>, c: Code, size: nat,
                    blockSize: nat)
    requires AreDecoded(blocks, latest, c, size, blockSize) && IsDecoded(y, latest, c, size, blockSize, |blocks|)
    ensures AreDecoded(blocks + [y], latest, c, size, blockSize)
  {
  }

  // ------------------------------------------------------------ what was rebuilt

  /** What is left of the data from block `m` on. */
  ghost function Rest(data: Bytes, blockSize: nat, m: nat): Bytes {
    if Times(m, blockSize) < |data| then data[Times(m, blockSize)..] else []
  }

  lemma RestStep(c: Code, data: Bytes, blockSize: nat, m: nat, i: nat)
    requires blockSize > 0 && Times(m, blockSize) < |data| && i < c.Width()
    ensures ShardFile(c, Rest(data, blockSize, m), blockSize, i)
         == EncodeBlock(c, Block(data, blockSize, m))[i] + ShardFile(c, Rest(data, blockSize, m + 1), blockSize, i)
  {
    var rest := Rest(data, blockSize, m);
    var n := Min(blockSize, |rest|);
    assert rest[..n] == Block(data, blockSize, m);
    assert rest[n..] == Rest(data, blockSize, m + 1);
  }

  lemma BlocksBelow(size: nat, blockSize: nat)
    requires blockSize > 0
    ensures forall b: nat | b < BlockCount(size, blockSize) :: Times(b, blockSize) < size
    ensures size <= Times(BlockCount(size, blockSize), blockSize)
  {
    var q := BlockCount(size, blockSize);
    ChunkSizeIsLeast(size, blockSize);
    forall b: nat | b < q ensures Times(b, blockSize) < size { TimesMonotone(b, q - 1, blockSize); }
  }

  /** All blocks of a file, encoded. */
  ghost predicate AreTrue(blocks: seq<seq<Bytes>>, c: Code, data: Bytes, blockSize: nat) {
    forall b | 0 <= b < |blocks| ::
      Times(b, blockSize) < |data| && blocks[b] == EncodeBlock(c, Block(data, blockSize, b))
  }

  /** The shard file is `head` and then the shards from block `m` on. */
  ghost predicate SplitsAt(c: Code, data: Bytes, blockSize: nat, i: nat, m: nat, head: Bytes)
    requires blockSize > 0 && i < c.Width()
  {
    head + ShardFile(c, Rest(data, blockSize, m), blockSize, i) == ShardFile(c, data, blockSize, i)
  }

  lemma SplitsFirst(c: Code, data: Bytes, blockSize: nat, i: nat)
    requires blockSize > 0 && i < c.Width()
    ensures SplitsAt(c, data, blockSize, i, 0, [])
  {
    assert Rest(data, blockSize, 0) == data;
  }

  lemma SplitsNext(c: Code, data: Bytes, blockSize: nat, i: nat, m: nat, head: Bytes)
    requires blockSize > 0 && i < c.Width() && Times(m, blockSize) < |data|
    requires SplitsAt(c, data, blockSize, i, m, head)
    ensures SplitsAt(c, data, blockSize, i, m + 1, head + EncodeBlock(c, Block(data, blockSize, m))[i])
  {
    RestStep(c, data, blockSize, m, i);
    var shard := EncodeBlock(c, Block(data, blockSize, m))[i];
    var tail := ShardFile(c, Rest(data, blockSize, m + 1), blockSize, i);
    assert (head + shard) + tail == head + (shard + tail);
  }

  lemma {:induction false} TrueSoFar(blocks: seq<seq<Bytes>>, c: Code, data: Bytes, blockSize: nat, i: nat)
    requires blockSize > 0 && i < c.Width() && AreTrue(blocks, c, data, blockSize)
    ensures SplitsAt(c, data, blockSize, i, |blocks|, Joined(blocks, i))
  {
    if blocks == [] {
      SplitsFirst(c, data, blockSize, i);
    } else {
      var n := |blocks| - 1;
      TrueSoFar(blocks[..n], c, data, blockSize, i);
      SplitsNext(c, data, blockSize, i, n, Joined(blocks[..n], i));
    }
  }

  /** They make up the shard files. */
  lemma TrueIsShardFile(blocks: seq<seq<Bytes>>, c: Code, data: Bytes, blockSize: nat, i: nat)
    requires blockSize > 0 && i < c.Width() && |blocks| == BlockCount(|data|, blockSize)
             && AreTrue(blocks, c, data, blockSize)
    ensures Joined(blocks, i) == ShardFile(c, data, blockSize, i)
  {
    TrueSoFar(blocks, c, data, blockSize, i);
    BlocksBelow(|data|, blockSize);
  }

  ghost predicate SameShape(a: seq<Bytes>, b: seq<Bytes>) {
    |a| == |b| && forall i | 0 <= i < |a| :: |a[i]| == |b[i]|
  }

  lemma {:induction false} JoinedLength(a: seq<seq<Bytes>>, b: seq<seq<Bytes>>, i: nat)
    requires |a| == |b| && forall k | 0 <= k < |a| :: SameShape(a[k], b[k])
    ensures |Joined(a, i)| == |Joined(b, i)|
  {
    if a != [] {
      var n := |a| - 1;
      JoinedLength(a[..n], b[..n], i);
      assert SameShape(a[n], b[n]);
    }
  }

  lemma EncodedShape(c: Code, data: Bytes, blockSize: nat, b: nat)
    requires Times(b, blockSize) < |data|
    ensures Uniform(EncodeBlock(c, Block(data, blockSize, b)), c.Width(), ChunkLen(c, blockSize, |data|, b))
  {
  }

  lemma UniformShapes(a: seq<Bytes>, b: seq<Bytes>, k: nat, n: nat)
    requires Uniform(a, k, n) && Uniform(b, k, n)
    ensures SameShape(a, b)
  {
  }

  /** A decoded block has the shape of the true one. */
  lemma DecodedBlock(y: seq<Bytes>, latest: seq<Option<Disk>>, c: Code, data: Bytes, blockSize: nat, b: nat)
    requires |latest| == c.Width() && Times(b, blockSize) < |data| && IsDecoded(y, latest, c, |data|, blockSize, b)
    ensures SameShape(y, EncodeBlock(c, Block(data, blockSize, b)))
  {
    var n := ChunkLen(c, blockSize, |data|, b);
    DecodedShape(c, latest, ChunkOffset(c, blockSize, b), n);
    EncodedShape(c, data, blockSize, b);
    UniformShapes(y, EncodeBlock(c, Block(data, blockSize, b)), c.Width(), n);
  }

  lemma DecodedShape(c: Code, latest: seq<Option<Disk>>, offset: nat, n: nat)
    requires |latest| == c.Width() && Decodes(c, Reads(latest, offset, n))
    ensures Uniform(c.reconstruct(Reads(latest, offset, n)).value, c.Width(), n)
  {
    var x := Reads(latest, offset, n);
    DecodedFits(c, x);
    var j := Element(Present(x));
    assert |x[j].value| == n;
    forall i: nat | i < c.Width() ensures |c.reconstruct(x).value[i]| == n { DecodedLength(c, x, i, j); }
  }

  lemma TrueBlock(y: seq<Bytes>, latest: seq<Option<Disk>>, c: Code, data: Bytes, blockSize: nat, good: set<nat>,
                  b: nat)
    requires Times(b, blockSize) < |data| && EnoughTrue(latest, c, data, blockSize, good)
    requires IsDecoded(y, latest, c, |data|, blockSize, b)
    ensures y == EncodeBlock(c, Block(data, blockSize, b))
  {
    var x := ReadsOf(latest, c, |data|, blockSize, b);
    assert Trusted(x, c, Block(data, blockSize, b), good);
    DecodesTruly(c, x, Block(data, blockSize, b), good);
  }

  /** The true blocks. */
  ghost function TrueBlocks(c: Code, data: Bytes, blockSize: nat): (r: seq<seq<Bytes>>)
    requires blockSize > 0
    ensures |r| == BlockCount(|data|, blockSize) && AreTrue(r, c, data, blockSize)
  {
    BlocksBelow(|data|, blockSize);
    seq(BlockCount(|data|, blockSize), b requires 0 <= b < BlockCount(|data|, blockSize)
          && Times(b, blockSize) < |data| => EncodeBlock(c, Block(data, blockSize, b)))
  }

  /** What was rebuilt is as long as the shard file, and is the shard file if enough shards are true. */
  lemma RebuiltLength(blocks: seq<seq<Bytes>>, latest: seq<Option<Disk>>, c: Code, data: Bytes, blockSize: nat, i: nat)
    requires blockSize > 0 && |latest| == c.Width() && i < c.Width() && |blocks| == BlockCount(|data|, blockSize)
             && AreDecoded(blocks, latest, c, |data|, blockSize)
    ensures |Joined(blocks, i)| == |ShardFile(c, data, blockSize, i)|
  {
    var ts := TrueBlocks(c, data, blockSize);
    forall b | 0 <= b < |blocks| ensures SameShape(blocks[b], ts[b]) {
      DecodedBlock(blocks[b], latest, c, data, blockSize, b);
    }
    JoinedLength(blocks, ts, i);
    TrueIsShardFile(ts, c, data, blockSize, i);
  }

  lemma RebuiltIsTrue(blocks: seq<seq<Bytes>>, latest: seq<Option<Disk>>, c: Code, data: Bytes, blockSize: nat,
                      good: set<nat>, i: nat)
    requires blockSize > 0 && i < c.Width() && |blocks| == BlockCount(|data|, blockSize)
             && AreDecoded(blocks, latest, c, |data|, blockSize) && EnoughTrue(latest, c, data, blockSize, good)
    ensures Joined(blocks, i) == ShardFile(c, data, blockSize, i)
  {
    BlocksBelow(|data|, blockSize);
    forall b | 0 <= b < |blocks| ensures blocks[b] == EncodeBlock(c, Block(data, blockSize, b)) {
      TrueBlock(blocks[b], latest, c, data, blockSize, good, b);
    }
    TrueIsShardFile(blocks, c, data, blockSize, i);
  }

  /** Enough true shards and no false ones decode. */
  lemma TrueDecode(latest: seq<Option<Disk>>, c: Code, data: Bytes, blockSize: nat, good: set<nat>)
    requires blockSize > 0 && EnoughTrue(latest, c, data, blockSize, good) && NoneFalse(latest, c, data, blockSize)
    ensures AllDecode(latest, c, |data|, blockSize)
  {
    forall b: nat | Times(b, blockSize) < |data|
      ensures Decodes(c, ReadsOf(latest, c, |data|, blockSize, b))
    {
      DecodesTruly(c, ReadsOf(latest, c, |data|, blockSize, b), Block(data, blockSize, b), good);
    }
  }

  /** What a heal leaves on one disk, and the checksum it reports. */
  ghost predicate SlotDone(d: Option<Disk>, d': Option<Disk>, m: nat, healed: Bytes, checkSum: string,
                           digest: (HashAlgo, Bytes) -> string, bitRotAlgo: string)
  {
    if d.None? then d' == None && checkSum == ""
    else d'.Some? && d'.value.file == d.value.file + healed && d'.value.appends == d.value.appends + m
         && checkSum == digest(NewHash(bitRotAlgo), healed)
  }

  /**
    Heals the outdated disks from the latest ones. It succeeds exactly if every block can be decoded, which takes
    `dataBlocks` shards of it, and every outdated disk accepts one append for each block; each then gained a file as
    long as its shard file, and the checksum is that of what was appended. If at least `dataBlocks` of the latest
    disks are true, what was appended is the shard file, even if other latest disks gave false shards; and if none
    did and every append is accepted, success is certain. The checksums are made with the server's own algorithm
    `bitRotAlgo`; the parameter `algo` is not used.
   */
  method ErasureHealFile(latest: seq<Option<Disk>>, outdated: array<Option<Disk>>, size: nat, blockSize: nat, c: Code,
                         algo: string, bitRotAlgo: string, digest: (HashAlgo, Bytes) -> string,
                         ghost data: Bytes, ghost good: set<nat>)
    returns (checkSums: seq<string>, err: Option<Error>)
    requires blockSize > 0 && |latest| == c.Width() == outdated.Length && size == |data|
    modifies outdated
    ensures err.None? <==> AllDecode(latest, c, size, blockSize)
                           && AllTake(old(outdated[..]), BlockCount(size, blockSize))
    ensures err.None? ==> forall b: nat | Times(b, blockSize) < size ::
              |Present(ReadsOf(latest, c, size, blockSize, b))| >= c.dataBlocks
    ensures err.None? ==>
              && |checkSums| == outdated.Length
              && forall i | 0 <= i < outdated.Length ::
                   exists healed: Bytes | |healed| == |ShardFile(c, data, blockSize, i)| ::
                     SlotDone(old(outdated[i]), outdated[i], BlockCount(size, blockSize), healed, checkSums[i], digest,
                              bitRotAlgo)
    ensures err.None? && EnoughTrue(latest, c, data, blockSize, good) ==>
              && |checkSums| == outdated.Length
              && forall i | 0 <= i < outdated.Length ::
                   if old(outdated[i]).None? then outdated[i] == None && checkSums[i] == ""
                   else outdated[i].Some?
                        && outdated[i].value.file == old(outdated[i]).value.file + ShardFile(c, data, blockSize, i)
                        && checkSums[i] == digest(NewHash(bitRotAlgo), ShardFile(c, data, blockSize, i))
    ensures (EnoughTrue(latest, c, data, blockSize, good) && NoneFalse(latest, c, data, blockSize)
             && AllAccept(old(outdated[..]))) ==> err.None?
    ensures err.Some? ==> checkSums == []
  {
    ghost var ds := outdated[..];
    var hashed := new Bytes[outdated.Length](_ => []);
    HealStart(ds, hashed[..]);
    if EnoughTrue(latest, c, data, blockSize, good) && NoneFalse(latest, c, data, blockSize) {
      TrueDecode(latest, c, data, blockSize, good);
    }
    ghost var certain := AllDecode(latest, c, size, blockSize) && AllTake(ds, BlockCount(size, blockSize));
    ghost var blocks;
    err, blocks := HealBlocks(latest, outdated, hashed, size, blockSize, c, ds, certain);
    if err.Some? { return [], err; }
    var sums, disks := hashed[..], outdated[..];
    HealEnd(ds, blocks, latest, c, data, blockSize, disks, sums);
    checkSums := seq(|sums|, i requires 0 <= i < |sums| && |disks| == |sums| =>
                       if disks[i].None? then "" else digest(NewHash(bitRotAlgo), sums[i]));
  }

  lemma HealStart(ds: seq<Option<Disk>>, hashed: seq<Bytes>)
    requires |ds| == |hashed| && forall i | 0 <= i < |hashed| :: hashed[i] == []
    ensures HealedSoFar(ds, [], ds, hashed)
  {
    forall i | 0 <= i < |ds| ensures SlotSoFar(ds[i], [], i, ds[i], hashed[i]) {
      if ds[i].Some? { assert ds[i].value.file + [] == ds[i].value.file; }
    }
  }

  lemma HealEnd(ds: seq<Option<Disk>>, blocks: seq<seq<Bytes>>, latest: seq<Option<Disk>>, c: Code, data: Bytes,
                blockSize: nat, now: seq<Option<Disk>>, hashed: seq<Bytes>)
    requires blockSize > 0 && |latest| == |ds| == c.Width() && |blocks| == BlockCount(|data|, blockSize)
    requires HealedSoFar(ds, blocks, now, hashed) && AreDecoded(blocks, latest, c, |data|, blockSize)
    ensures AllDecode(latest, c, |data|, blockSize)
    ensures forall b: nat | Times(b, blockSize) < |data| ::
              |Present(ReadsOf(latest, c, |data|, blockSize, b))| >= c.dataBlocks
    ensures forall i | 0 <= i < |ds| && ds[i].Some? :: |hashed[i]| == |ShardFile(c, data, blockSize, i)|
    ensures forall good, i | EnoughTrue(latest, c, data, blockSize, good) && 0 <= i < |ds| && ds[i].Some? ::
              hashed[i] == ShardFile(c, data, blockSize, i)
  {
    CountedBlocks(|data|, blockSize, 0);
    forall b: nat | Times(b, blockSize) < |data|
      ensures Decodes(c, ReadsOf(latest, c, |data|, blockSize, b))
              && |Present(ReadsOf(latest, c, |data|, blockSize, b))| >= c.dataBlocks
    {
      assert IsDecoded(blocks[b], latest, c, |data|, blockSize, b);
      DecodedFits(c, ReadsOf(latest, c, |data|, blockSize, b));
    }
    assert forall i | 0 <= i < |ds| && ds[i].Some? :: hashed[i] == Joined(blocks, i) by {
      assert forall i | 0 <= i < |ds| :: SlotSoFar(ds[i], blocks, i, now[i], hashed[i]);
    }
    forall i | 0 <= i < |ds| && ds[i].Some? ensures |hashed[i]| == |ShardFile(c, data, blockSize, i)| {
      RebuiltLength(blocks, latest, c, data, blockSize, i);
    }
    forall good, i | EnoughTrue(latest, c, data, blockSize, good) && 0 <= i < |ds| && ds[i].Some?
      ensures hashed[i] == ShardFile(c, data, blockSize, i)
    {
      RebuiltIsTrue(blocks, latest, c, data, blockSize, good, i);
    }
  }
}
