/**
  Blocks, chunks and shards: what one erasure coded file looks like on each disk.

  Reed-Solomon itself is a parameter. A `Codec` carries the two operations the
  file layer calls, and `Lawful` states what the layer relies on: the code is
  systematic, every shard has the length of the data shards, any `dataBlocks`
  shards determine all of them, and reconstruction keeps the shards it is given and
  refuses to work with fewer than `dataBlocks` of them.
 */
module ErasureCode {
  import opened Wrappers

  /** Size of one shard of a block: how often `dataBlocks` bytes are needed to hold it. */
  function ChunkSize(blockSize: nat, dataBlocks: nat): nat
    requires dataBlocks > 0
  {
    if blockSize == 0 then 0
    else if blockSize <= dataBlocks then 1
    else 1 + ChunkSize(blockSize - dataBlocks, dataBlocks)
  }

  /** getChunkSize computes it with one division. */
  method GetChunkSize(blockSize: nat, dataBlocks: nat) returns (r: nat)
    requires dataBlocks > 0
    ensures r == ChunkSize(blockSize, dataBlocks)
  {
    r := (blockSize + dataBlocks - 1) / dataBlocks;
    ChunkSizeIsLeast(blockSize, dataBlocks);
    var q := ChunkSize(blockSize, dataBlocks);
    InBlock(blockSize + dataBlocks - 1, dataBlocks, q);
  }

  /** `dataBlocks` shards of that size hold the block, and shards one byte shorter would not. */
  lemma {:induction false} ChunkSizeIsLeast(blockSize: nat, dataBlocks: nat)
    requires dataBlocks > 0
    ensures blockSize <= Times(ChunkSize(blockSize, dataBlocks), dataBlocks) < blockSize + dataBlocks
    ensures blockSize > 0 ==> ChunkSize(blockSize, dataBlocks) > 0
    decreases blockSize
  {
    if blockSize > dataBlocks {
      ChunkSizeIsLeast(blockSize - dataBlocks, dataBlocks);
    } else if blockSize > 0 {
      assert Times(1, dataBlocks) == dataBlocks;
    }
  }

  lemma TimesCommutes(n: nat, m: nat)
    ensures Times(n, m) == Times(m, n)
  {
    TimesIsProduct(n, m);
    TimesIsProduct(m, n);
  }

  /** `n` times `m`, by addition. */
  function Times(n: nat, m: nat): (r: nat) {
    if n == 0 then 0 else m + Times(n - 1, m)
  }

  lemma {:induction false} TimesIsProduct(n: nat, m: nat)
    ensures Times(n, m) == n * m
  {
    if n > 0 {
      TimesIsProduct(n - 1, m);
      assert n * m == m + (n - 1) * m;
    }
  }

  lemma {:induction false} TimesMonotone(a: nat, b: nat, m: nat)
    requires a <= b
    ensures Times(a, m) <= Times(b, m)
    decreases b
  {
    if a < b { TimesMonotone(a, b - 1, m); }
  }

  /** A position at or after the start of block `b` and before the end of block `a`. */
  lemma BlockOrder(b: nat, a: nat, m: nat, pos: nat)
    requires Times(b, m) <= pos < Times(a, m) + m
    ensures b <= a
  {
    if a < b { TimesMonotone(a + 1, b, m); }
  }

  lemma BlockOf(pos: nat, m: nat)
    requires m > 0
    ensures Times(pos / m, m) <= pos < Times(pos / m, m) + m
    ensures pos % m == pos - Times(pos / m, m)
  {
    TimesIsProduct(pos / m, m);
  }

  /** Division finds the block a position lies in. */
  lemma InBlock(pos: nat, m: nat, b: nat)
    requires Times(b, m) <= pos < Times(b, m) + m
    ensures pos / m == b && pos % m == pos - Times(b, m)
  {
    BlockOf(pos, m);
    BlockOrder(pos / m, b, m, pos);
    BlockOrder(b, pos / m, m, pos);
  }

  lemma SliceOfSlice(s: Bytes, a: nat, b: nat, i: nat, j: nat)
    requires a <= b <= |s| && i <= j <= b - a
    ensures s[a..b][i..j] == s[a + i..a + j]
  {
    var x, y := s[a..b][i..j], s[a + i..a + j];
    assert |x| == |y| && forall k | 0 <= k < |x| :: x[k] == y[k];
  }

  lemma SlicesJoin(s: Bytes, a: nat, b: nat, c: nat)
    requires a <= b <= c <= |s|
    ensures s[a..b] + s[b..c] == s[a..c]
  {
    var x, y := s[a..b] + s[b..c], s[a..c];
    assert |x| == |y| && forall k | 0 <= k < |x| :: x[k] == y[k];
  }

  function Zeros(n: nat): (z: Bytes)
    ensures |z| == n && forall i | 0 <= i < n :: z[i] == 0
  {
    seq(n, _ => 0)
  }

  function Min(a: nat, b: nat): nat {
    if a <= b then a else b
  }

  /** Cuts `d` into `k` shards of `c` bytes, the missing end filled with zeros. */
  function Cut(d: Bytes, c: nat, k: nat): (r: seq<Bytes>)
    ensures |r| == k && forall i | 0 <= i < k :: |r[i]| == c
  {
    if k == 0 then []
    else
      var n := Min(c, |d|);
      [d[..n] + Zeros(c - n)] + Cut(d[n..], c, k - 1)
  }

  function Flatten(ss: seq<Bytes>): Bytes {
    if ss == [] then [] else ss[0] + Flatten(ss[1..])
  }

  lemma {:induction false} FlattenAppend(a: seq<Bytes>, b: seq<Bytes>)
    ensures Flatten(a + b) == Flatten(a) + Flatten(b)
  {
    if a == [] {
      assert a + b == b;
    } else {
      assert (a + b)[1..] == a[1..] + b;
      FlattenAppend(a[1..], b);
    }
  }

  lemma {:induction false} ZerosAppend(m: nat, n: nat)
    ensures Zeros(m) + Zeros(n) == Zeros(m + n)
  {
  }

  /** Joining the shards gives the block back, followed by the padding. */
  lemma {:induction false} FlattenCut(d: Bytes, c: nat, k: nat)
    requires |d| <= Times(k, c)
    ensures Flatten(Cut(d, c, k)) == d + Zeros(Times(k, c) - |d|)
  {
    if k == 0 {
    } else {
      var n := Min(c, |d|);
      var rest := Cut(d[n..], c, k - 1);
      FlattenCut(d[n..], c, k - 1);
      assert Cut(d, c, k)[1..] == rest;
      var pad := Times(k - 1, c) - (|d| - n);
      assert Flatten(Cut(d, c, k)) == d[..n] + Zeros(c - n) + (d[n..] + Zeros(pad));
      if n == |d| {
        ZerosAppend(c - n, pad);
      }
    }
  }

  // ---------------------------------------------------------------- the codec

  /** `parity` is the parity half of Encode, `reconstruct` fills missing shards in. */
  datatype Codec = Codec(dataBlocks: nat, parityBlocks: nat,
                         parity: seq<Bytes> -> seq<Bytes>,
                         reconstruct: seq<Option<Bytes>> -> Option<seq<Bytes>>)
  {
    function Width(): nat { dataBlocks + parityBlocks }
  }

  predicate Uniform(ds: seq<Bytes>, k: nat, len: nat) {
    |ds| == k && forall i | 0 <= i < k :: |ds[i]| == len
  }

  function Encode(c: Codec, ds: seq<Bytes>): seq<Bytes> {
    ds + c.parity(ds)
  }

  ghost predicate AgreeOn(x: seq<Bytes>, y: seq<Bytes>, at: set<nat>) {
    |x| == |y| && forall i | i in at :: i < |x| && x[i] == y[i]
  }

  function Present(x: seq<Option<Bytes>>): set<nat> {
    set i: nat | i < |x| && x[i].Some?
  }

  ghost predicate ShardsOf(x: seq<Option<Bytes>>, y: seq<Bytes>) {
    |x| == |y| && forall i | 0 <= i < |x| && x[i].Some? :: x[i].value == y[i]
  }

  /** Parity shards are as many and as long as they should be. */
  ghost predicate ParityShape(c: Codec) {
    forall ds: seq<Bytes>, len: nat {:trigger c.parity(ds), Uniform(ds, c.dataBlocks, len)} ::
      Uniform(ds, c.dataBlocks, len) ==> Uniform(c.parity(ds), c.parityBlocks, len)
  }

  /** Any `dataBlocks` shards determine the data. */
  ghost predicate AnyKDetermine(c: Codec) {
    forall d: seq<Bytes>, e: seq<Bytes>, len: nat, at: set<nat>
      {:trigger AgreeOn(Encode(c, d), Encode(c, e), at), Uniform(d, c.dataBlocks, len)} ::
      (Uniform(d, c.dataBlocks, len) && Uniform(e, c.dataBlocks, len) && |at| >= c.dataBlocks
       && AgreeOn(Encode(c, d), Encode(c, e), at)) ==> d == e
  }

  /** Reconstruction fills in, and never changes, shards. */
  ghost predicate KeepsShards(c: Codec) {
    forall x: seq<Option<Bytes>> {:trigger c.reconstruct(x)} ::
      |x| == c.Width() && c.reconstruct(x).Some? ==> ShardsOf(x, c.reconstruct(x).value)
  }

  /** Reconstruction succeeds on any `dataBlocks` non-empty shards of one encoding. */
  ghost predicate Reconstructs(c: Codec) {
    forall x: seq<Option<Bytes>>, d: seq<Bytes>, len: nat
      {:trigger ShardsOf(x, Encode(c, d)), Uniform(d, c.dataBlocks, len)} ::
      Uniform(d, c.dataBlocks, len) && len > 0 && ShardsOf(x, Encode(c, d)) && |Present(x)| >= c.dataBlocks
      ==> c.reconstruct(x) == Some(Encode(c, d))
  }

  /** Reconstruction refuses with fewer than `dataBlocks` shards. */
  ghost predicate NeedsEnough(c: Codec) {
    forall x: seq<Option<Bytes>> {:trigger c.reconstruct(x)} ::
      |x| == c.Width() && |Present(x)| < c.dataBlocks ==> c.reconstruct(x).None?
  }

  ghost predicate Lawful(c: Codec) {
    c.dataBlocks > 0 && ParityShape(c) && AnyKDetermine(c) && KeepsShards(c) && Reconstructs(c) && NeedsEnough(c)
  }

  /** Fills every slot with the first shard at hand, if the shards at hand agree. */
  function Copied(x: seq<Option<Bytes>>): Option<seq<Bytes>> {
    if exists i | 0 <= i < |x| :: x[i].Some? && forall j | 0 <= j < |x| && x[j].Some? :: x[j] == x[i]
    then
      var v := First(x);
      Some(seq(|x|, _ => v))
    else None
  }

  function First(x: seq<Option<Bytes>>): Bytes {
    if x == [] then [] else if x[0].Some? then x[0].value else First(x[1..])
  }

  lemma FirstIs(x: seq<Option<Bytes>>, i: nat)
    requires i < |x| && x[i].Some? && forall j | 0 <= j < |x| && x[j].Some? :: x[j] == x[i]
    ensures First(x) == x[i].value
  {
    if x[0].None? { FirstIs(x[1..], i - 1); }
  }

  /** A codec with one data shard and copies of it. */
  function Mirror(copies: nat): Codec {
    Codec(1, copies,
          (ds: seq<Bytes>) => if |ds| == 1 then seq(copies, _ => ds[0]) else [],
          (x: seq<Option<Bytes>>) => if |x| == copies + 1 then Copied(x) else None)
  }

  lemma MirrorIsLawful(copies: nat)
    ensures Lawful(Mirror(copies))
  {
    var c := Mirror(copies);
    forall d: seq<Bytes> | |d| == 1 ensures Encode(c, d) == seq(copies + 1, _ => d[0]) {}
    forall d: seq<Bytes>, e: seq<Bytes>, len: nat, at: set<nat> |
      (Uniform(d, c.dataBlocks, len) && Uniform(e, c.dataBlocks, len) && |at| >= c.dataBlocks
       && AgreeOn(Encode(c, d), Encode(c, e), at)) ensures d == e
    {
      var i :| i in at;
      assert Encode(c, d)[i] == d[0] && Encode(c, e)[i] == e[0];
    }
    forall x: seq<Option<Bytes>> |
      |x| == c.Width() && c.reconstruct(x).Some? ensures ShardsOf(x, c.reconstruct(x).value)
    {
      var i :| 0 <= i < |x| && x[i].Some? && forall j | 0 <= j < |x| && x[j].Some? :: x[j] == x[i];
      FirstIs(x, i);
    }
    forall x: seq<Option<Bytes>>, d: seq<Bytes>, len: nat |
      Uniform(d, c.dataBlocks, len) && len > 0 && ShardsOf(x, Encode(c, d)) && |Present(x)| >= c.dataBlocks
      ensures c.reconstruct(x) == Some(Encode(c, d))
    {
      var i :| i in Present(x);
      FirstIs(x, i);
    }
    MirrorNeedsOne(copies);
  }

  lemma MirrorNeedsOne(copies: nat)
    ensures NeedsEnough(Mirror(copies))
  {
    var c := Mirror(copies);
    forall x: seq<Option<Bytes>> | |x| == c.Width() && c.reconstruct(x).Some? ensures |Present(x)| >= 1 {
      var i :| 0 <= i < |x| && x[i].Some?;
      assert i in Present(x);
    }
  }

  ghost function LawfulMirror(copies: nat): (c: Codec)
    ensures Lawful(c)
  {
    MirrorIsLawful(copies);
    Mirror(copies)
  }

  /** The codecs the file layer may be used with; there are such, for instance mirroring. */
  type Code = c: Codec | Lawful(c) ghost witness LawfulMirror(1)

  // ------------------------------------------------------------- shards and files

  /** All shards of one block, as the encoder produces them. */
  function EncodeBlock(c: Code, block: Bytes): (r: seq<Bytes>)
    ensures Uniform(r, c.Width(), ChunkSize(|block|, c.dataBlocks))
  {
    var len := ChunkSize(|block|, c.dataBlocks);
    var ds := Cut(block, len, c.dataBlocks);
    assert Uniform(ds, c.dataBlocks, len);
    Encode(c, ds)
  }

  lemma DataShards(c: Code, block: Bytes)
    ensures EncodeBlock(c, block)[..c.dataBlocks] == Cut(block, ChunkSize(|block|, c.dataBlocks), c.dataBlocks)
  {
  }

  lemma ChunksHoldBlock(n: nat, k: nat)
    requires k > 0
    ensures n <= Times(k, ChunkSize(n, k))
  {
    ChunkSizeIsLeast(n, k);
    TimesCommutes(k, ChunkSize(n, k));
  }

  lemma CutJoined(block: Bytes, k: nat)
    requires k > 0
    ensures var len := ChunkSize(|block|, k);
            |block| <= Times(k, len) && Flatten(Cut(block, len, k)) == block + Zeros(Times(k, len) - |block|)
  {
    var len := ChunkSize(|block|, k);
    ChunksHoldBlock(|block|, k);
    FlattenCut(block, len, k);
  }

  /** The data shards joined are the block and its padding. */
  lemma DataShardsJoined(c: Code, block: Bytes)
    ensures |block| <= Times(c.dataBlocks, ChunkSize(|block|, c.dataBlocks))
    ensures Flatten(EncodeBlock(c, block)[..c.dataBlocks])
         == block + Zeros(Times(c.dataBlocks, ChunkSize(|block|, c.dataBlocks)) - |block|)
  {
    CutJoined(block, c.dataBlocks);
    assert EncodeBlock(c, block)[..c.dataBlocks]
           == Cut(block, ChunkSize(|block|, c.dataBlocks), c.dataBlocks) by { DataShards(c, block); }
  }

  /** The file disk `i` holds after all of `data` was written in blocks of `blockSize`. */
  ghost function ShardFile(c: Code, data: Bytes, blockSize: nat, i: nat): Bytes
    requires blockSize > 0 && i < c.Width()
    decreases |data|
  {
    if data == [] then []
    else
      var n := Min(blockSize, |data|);
      EncodeBlock(c, data[..n])[i] + ShardFile(c, data[n..], blockSize, i)
  }

  /** Block `b` of a file; the last block may be short. */
  function Block(data: Bytes, blockSize: nat, b: nat): (r: Bytes)
    requires Times(b, blockSize) <= |data|
  {
    var at := Times(b, blockSize);
    data[at..at + Min(blockSize, |data| - at)]
  }

  /** Where block `b` lies in each shard file. */
  function ChunkOffset(c: Code, blockSize: nat, b: nat): nat
  {
    Times(b, ChunkSize(blockSize, c.dataBlocks))
  }

  /** And how long its chunk is there. */
  function ChunkLen(c: Code, blockSize: nat, total: nat, b: nat): nat
    requires Times(b, blockSize) <= total
  {
    ChunkSize(Min(blockSize, total - Times(b, blockSize)), c.dataBlocks)
  }

  /** `part` lies in `whole` at `off`. */
  predicate SliceIs(whole: Bytes, off: nat, part: Bytes) {
    off + |part| <= |whole| && whole[off..off + |part|] == part
  }

  lemma SliceShift(head: Bytes, tail: Bytes, off: nat, part: Bytes)
    requires SliceIs(tail, off, part)
    ensures SliceIs(head + tail, |head| + off, part)
  {
  }

  lemma BlockShift(data: Bytes, blockSize: nat, b: nat)
    requires 0 < b && 0 < blockSize <= |data| && Times(b, blockSize) <= |data|
    ensures Times(b - 1, blockSize) <= |data| - blockSize
    ensures Block(data[blockSize..], blockSize, b - 1) == Block(data, blockSize, b)
  {
  }

  /** Chunk `b` of shard file `i` is shard `i` of block `b`, also for the short last block. */
  lemma {:induction false} ShardFileChunk(c: Code, data: Bytes, blockSize: nat, i: nat, b: nat)
    requires blockSize > 0 && i < c.Width()
    requires Times(b, blockSize) < |data|
    ensures SliceIs(ShardFile(c, data, blockSize, i), Times(b, ChunkSize(blockSize, c.dataBlocks)),
                    EncodeBlock(c, Block(data, blockSize, b))[i])
    decreases b
  {
    var n := Min(blockSize, |data|);
    var first, tail := EncodeBlock(c, data[..n])[i], ShardFile(c, data[n..], blockSize, i);
    if b == 0 {
      assert Block(data, blockSize, 0) == data[..n];
      assert SliceIs(first + tail, 0, first);
    } else {
      TimesMonotone(1, b, blockSize);
      BlockShift(data, blockSize, b);
      ShardFileChunk(c, data[n..], blockSize, i, b - 1);
      SliceShift(first, tail, Times(b - 1, ChunkSize(blockSize, c.dataBlocks)),
                 EncodeBlock(c, Block(data, blockSize, b))[i]);
    }
  }

  lemma ChunkLenIs(c: Code, data: Bytes, blockSize: nat, b: nat)
    requires blockSize > 0 && Times(b, blockSize) < |data|
    ensures |Block(data, blockSize, b)| > 0
            && ChunkLen(c, blockSize, |data|, b) == ChunkSize(|Block(data, blockSize, b)|, c.dataBlocks) > 0
  {
    ChunkSizeIsLeast(|Block(data, blockSize, b)|, c.dataBlocks);
  }

  /** The same, with the chunk's place spelled out. */
  lemma ChunkInFile(c: Code, data: Bytes, blockSize: nat, i: nat, b: nat)
    requires blockSize > 0 && i < c.Width() && Times(b, blockSize) < |data|
    ensures var off, n := ChunkOffset(c, blockSize, b), ChunkLen(c, blockSize, |data|, b);
            n > 0 && off + n <= |ShardFile(c, data, blockSize, i)|
            && ShardFile(c, data, blockSize, i)[off..off + n] == EncodeBlock(c, Block(data, blockSize, b))[i]
  {
    ShardFileChunk(c, data, blockSize, i, b);
    ChunkLenIs(c, data, blockSize, b);
  }
}
