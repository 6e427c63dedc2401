/**
  Ranged reads of an erasure coded file (cmd/erasure-readfile.go and the reading
  half of cmd/erasure-utils.go).
 */
module ErasureRead {
  import opened Wrappers
  import opened Sets
  import opened ErasureCode
  import opened Storage
  import opened ErasureDecode

  // ------------------------------------------------------------ counting blocks

  lemma PresentStep(x: seq<Option<Bytes>>, i: nat)
    requires i < |x|
    ensures Present(x[..i + 1]) == if x[i].Some? then Present(x[..i]) + {i} else Present(x[..i])
    ensures |Present(x[..i + 1])| == |Present(x[..i])| + (if x[i].Some? then 1 else 0)
  {
  }

  /** Are there enough blocks to reconstruct? */
  method IsSuccessDecodeBlocks(enBlocks: seq<Option<Bytes>>, dataBlocks: nat) returns (ok: bool)
    ensures ok <==> |Present(enBlocks)| >= dataBlocks
  {
    var dataCount, parityCount := 0, 0;
    for i := 0 to |enBlocks|
      invariant dataCount + parityCount == |Present(enBlocks[..i])|
      invariant 0 <= dataCount && 0 <= parityCount
    {
      PresentStep(enBlocks, i);
      if enBlocks[i].None? { continue; }
      if i < dataBlocks {
        dataCount := dataCount + 1;
        continue;
      }
      parityCount := parityCount + 1;
    }
    assert enBlocks[..|enBlocks|] == enBlocks;
    ok := dataCount == dataBlocks || dataCount + parityCount >= dataBlocks;
  }

  lemma PresentAll(x: seq<Option<Bytes>>)
    ensures |Present(x)| <= |x|
    ensures |Present(x)| == |x| <==> forall i | 0 <= i < |x| :: x[i].Some?
  {
    if x != [] {
      var n := |x| - 1;
      PresentAll(x[..n]);
      PresentStep(x, n);
      assert x[..n + 1] == x;
      assert forall i | 0 <= i < n :: x[..n][i] == x[i];
    }
  }

  /** Are all data blocks there? */
  method IsSuccessDataBlocks(enBlocks: seq<Option<Bytes>>, dataBlocks: nat) returns (ok: bool)
    requires dataBlocks <= |enBlocks|
    ensures ok <==> forall i | 0 <= i < dataBlocks :: enBlocks[i].Some?
  {
    var count := 0;
    var xs := enBlocks[..dataBlocks];
    for i := 0 to |xs|
      invariant count == |Present(xs[..i])|
    {
      PresentStep(xs, i);
      if xs[i].None? { continue; }
      if i < dataBlocks { count := count + 1; }
    }
    assert xs[..|xs|] == xs;
    PresentAll(xs);
    ok := count >= dataBlocks;
  }

  // ------------------------------------------------------------ choosing disks

  function Live(ds: seq<Option<Disk>>): set<nat> {
    set i: nat | i < |ds| && ds[i].Some?
  }

  lemma LiveStep(ds: seq<Option<Disk>>, i: nat)
    requires i < |ds|
    ensures Live(ds[..i + 1]) == if ds[i].Some? then Live(ds[..i]) + {i} else Live(ds[..i])
    ensures |Live(ds[..i + 1])| == |Live(ds[..i])| + (if ds[i].Some? then 1 else 0)
  {
  }

  /** The next disks to read: those of `ds` from `index` on, up to the k-th one alive. */
  ghost predicate NextBatch(ds: seq<Option<Disk>>, index: nat, k: nat, read: seq<Option<Disk>>, next: nat) {
    && index < next <= |ds| && |read| == |ds|
    && |Live(ds[..next])| == k
    && ds[next - 1].Some?
    && forall i | 0 <= i < |ds| :: read[i] == if index <= i < next then ds[i] else None
  }

  /** Disks among the first `index` that already gave their chunk, split as the source counts them. */
  method CountRead(ds: seq<Option<Disk>>, index: nat, dataBlocks: nat) returns (dataDisks: nat, parityDisks: nat)
    requires index <= |ds|
    ensures dataDisks + parityDisks == |Live(ds[..index])|
    ensures index <= dataBlocks ==> parityDisks == 0
  {
    dataDisks, parityDisks := 0, 0;
    for i := 0 to index
      invariant dataDisks + parityDisks == |Live(ds[..i])|
      invariant i <= dataBlocks ==> parityDisks == 0
    {
      LiveStep(ds, i);
      if ds[i].None? { continue; }
      if i < dataBlocks { dataDisks := dataDisks + 1; } else { parityDisks := parityDisks + 1; }
    }
  }

  /** Picks disks from `index` on until `dataBlocks` chunks are read or picked. */
  method PickDisks(ds: seq<Option<Disk>>, index: nat, dataBlocks: nat, dataRead: nat, parityRead: nat)
    returns (r: Result<(seq<Option<Disk>>, nat), Error>)
    requires index <= |ds| && dataRead + parityRead == |Live(ds[..index])| < dataBlocks
    requires index <= dataBlocks ==> parityRead == 0
    ensures r.Ok? ==> NextBatch(ds, index, dataBlocks, r.value.0, r.value.1)
    ensures r.Err? ==> r.error == ReadQuorum && |Live(ds)| < dataBlocks
  {
    var dataDisks: nat, parityDisks: nat := dataRead, parityRead;
    var read: seq<Option<Disk>> := seq(|ds|, _ => None);
    var i := index;
    while i < |ds|
      invariant index <= i <= |ds| && |read| == |ds|
      invariant dataDisks + parityDisks == |Live(ds[..i])| < dataBlocks
      invariant i <= dataBlocks ==> parityDisks == 0
      invariant forall j | 0 <= j < |read| :: read[j] == if index <= j < i then ds[j] else None
    {
      LiveStep(ds, i);
      if ds[i].None? { i := i + 1; continue; }
      if i < dataBlocks { dataDisks := dataDisks + 1; } else { parityDisks := parityDisks + 1; }
      read := read[i := ds[i]];
      if dataDisks == dataBlocks {
        return Ok((read, i + 1));
      } else if dataDisks + parityDisks == dataBlocks {
        return Ok((read, i + 1));
      }
      i := i + 1;
    }
    assert ds[..i] == ds;
    return Err(ReadQuorum);
  }

  method GetReadDisks(ds: seq<Option<Disk>>, index: nat, dataBlocks: nat)
    returns (r: Result<(seq<Option<Disk>>, nat), Error>)
    requires index <= |ds|
    ensures r == Err(Unexpected) <==> |Live(ds[..index])| >= dataBlocks
    ensures r.Ok? <==> |Live(ds[..index])| < dataBlocks <= |Live(ds)|
    ensures r.Ok? ==> NextBatch(ds, index, dataBlocks, r.value.0, r.value.1)
    ensures r.Err? ==> r.error in {Unexpected, ReadQuorum}
  {
    var dataDisks, parityDisks := CountRead(ds, index, dataBlocks);
    // Sanity checks of the source; ReadBlock shows that they are never reached.
    if dataDisks == dataBlocks { return Err(Unexpected); }
    if dataDisks + parityDisks >= dataBlocks { return Err(Unexpected); }
    r := PickDisks(ds, index, dataBlocks, dataDisks, parityDisks);
    if r.Ok? { LiveMonotone(ds, r.value.1); }
  }

  lemma LiveMonotone(ds: seq<Option<Disk>>, n: nat)
    requires n <= |ds|
    ensures |Live(ds[..n])| <= |Live(ds)|
  {
    Smaller(Live(ds[..n]), Live(ds));
  }

  // ------------------------------------------------------------ reading one block

  /** What a reader knows about the files: their checksums and the hash that made them. */
  datatype Checks = Checks(sums: seq<string>, digest: Bytes -> string)

  /** Would disk `d`, in slot `i`, give `n` bytes at `off`? */
  ghost predicate Serves(d: Option<Disk>, checks: Checks, i: nat, off: nat, n: nat)
    requires i < |checks.sums|
  {
    Intact(d, checks.sums[i], checks.digest) && d.value.ReadAt(off, n).Some?
  }

  /** The slots of `ds` that would give `n` bytes at `off`. */
  ghost function Servers(ds: seq<Option<Disk>>, checks: Checks, off: nat, n: nat): set<nat>
    requires |ds| <= |checks.sums|
  {
    set i: nat | i < |ds| && Serves(ds[i], checks, i, off, n)
  }

  /** A checksum once verified holds as long as the disk is in use. */
  ghost predicate CacheOk(ds: seq<Option<Disk>>, verified: seq<bool>, checks: Checks)
  {
    && |ds| == |verified| == |checks.sums|
    && forall i | 0 <= i < |ds| && verified[i] && ds[i].Some? :: Intact(ds[i], checks.sums[i], checks.digest)
  }

  /** The closure bitRotVerify with its cache. */
  method BitRotVerify(disks: array<Option<Disk>>, verified: array<bool>, checks: Checks, i: nat) returns (ok: bool)
    requires i < disks.Length && CacheOk(disks[..], verified[..], checks) && disks[i].Some?
    modifies verified
    ensures ok <==> Intact(disks[i], checks.sums[i], checks.digest)
    ensures verified[..] == old(verified[..])[i := ok]
  {
    if verified[i] {
      assert verified[..][i];
      return true;
    }
    ok := IsValidBlock(disks[i], checks.sums[i], checks.digest);
    verified[i] := ok;
  }

  /** Effect of a read on one slot: a chunk is gained, or the disk is dropped. */
  ghost predicate Probed(d: Disk, checks: Checks, i: nat, off: nat, n: nat, after: Option<Disk>, block: Option<Bytes>,
                         was: Option<Bytes>)
    requires i < |checks.sums|
  {
    if Serves(Some(d), checks, i, off, n) then after == Some(d) && block == d.ReadAt(off, n)
    else after == None && block == was
  }

  /** Effect of reading the disks of one batch, slot by slot. */
  ghost predicate BatchDone(read: seq<Option<Disk>>, checks: Checks, off: nat, n: nat,
                            now: seq<Option<Disk>>, blocks: seq<Option<Bytes>>,
                            now': seq<Option<Disk>>, blocks': seq<Option<Bytes>>)
  {
    && |read| == |checks.sums| == |now| == |blocks| == |now'| == |blocks'|
    && forall i | 0 <= i < |read| ::
         if read[i].None? then now'[i] == now[i] && blocks'[i] == blocks[i]
         else Probed(read[i].value, checks, i, off, n, now'[i], blocks'[i], blocks[i])
  }

  /**
    Reads the disks of one batch. The goroutines of the source touch disjoint
    slots, so running them one after the other loses nothing.
   */
  method ParallelRead(read: seq<Option<Disk>>, disks: array<Option<Disk>>, enBlocks: array<Option<Bytes>>,
                      verified: array<bool>, checks: Checks, off: nat, n: nat)
    requires |read| == disks.Length == enBlocks.Length
    requires CacheOk(disks[..], verified[..], checks)
    requires forall i | 0 <= i < |read| && read[i].Some? :: read[i] == disks[i]
    modifies disks, enBlocks, verified
    ensures CacheOk(disks[..], verified[..], checks)
    ensures BatchDone(read, checks, off, n, old(disks[..]), old(enBlocks[..]), disks[..], enBlocks[..])
  {
    for i := 0 to |read|
      invariant CacheOk(disks[..], verified[..], checks)
      invariant forall j | 0 <= j < |read| && (read[j].None? || i <= j) ::
                  disks[j] == old(disks[j]) && enBlocks[j] == old(enBlocks[j])
      invariant forall j | 0 <= j < i && read[j].Some? ::
                  Probed(read[j].value, checks, j, off, n, disks[j], enBlocks[j], old(enBlocks[j]))
    {
      if read[i].None? { continue; }
      ReadSlot(read[i].value, disks, enBlocks, verified, checks, i, off, n);
    }
  }

  /** The body of one reading goroutine. */
  method ReadSlot(d: Disk, disks: array<Option<Disk>>, enBlocks: array<Option<Bytes>>,
                  verified: array<bool>, checks: Checks, i: nat, off: nat, n: nat)
    requires i < disks.Length == enBlocks.Length
    requires CacheOk(disks[..], verified[..], checks) && disks[i] == Some(d)
    modifies disks, enBlocks, verified
    ensures CacheOk(disks[..], verified[..], checks)
    ensures forall j | 0 <= j < disks.Length && j != i ::
              disks[j] == old(disks[j]) && enBlocks[j] == old(enBlocks[j])
    ensures Probed(d, checks, i, off, n, disks[i], enBlocks[i], old(enBlocks[i]))
  {
    var ok := BitRotVerify(disks, verified, checks, i);
    if !ok {
      disks[i] := None;
      return;
    }
    var (buf, end) := d.ReadFile(off, n);
    if end != Full {
      disks[i] := None;
      return;
    }
    enBlocks[i] := Some(buf);
  }

  /** Slots below `next` were tried, slots from `next` on are as they were. */
  ghost predicate Progress(ds: seq<Option<Disk>>, now: seq<Option<Disk>>, blocks: seq<Option<Bytes>>, checks: Checks,
                           off: nat, n: nat, next: nat)
    requires |ds| <= |checks.sums|
  {
    && |ds| == |now| == |blocks| && next <= |ds|
    && (forall i | 0 <= i < next && Serves(ds[i], checks, i, off, n) ::
          now[i] == ds[i] && blocks[i] == ds[i].value.ReadAt(off, n))
    && (forall i | 0 <= i < next && !Serves(ds[i], checks, i, off, n) :: now[i].None? && blocks[i] == None)
    && (forall i | next <= i < |ds| :: now[i] == ds[i] && blocks[i] == None)
  }

  lemma ProgressCounts(ds: seq<Option<Disk>>, now: seq<Option<Disk>>, blocks: seq<Option<Bytes>>, checks: Checks,
                       off: nat, n: nat, next: nat)
    requires |ds| <= |checks.sums| && Progress(ds, now, blocks, checks, off, n, next)
    ensures Present(blocks) == Servers(ds[..next], checks, off, n) == Live(now[..next])
    ensures |Servers(ds[..next], checks, off, n)| <= |Servers(ds, checks, off, n)| <= |Live(now)|
    ensures next == |ds| ==> Servers(ds[..next], checks, off, n) == Servers(ds, checks, off, n)
  {
    var some := Servers(ds[..next], checks, off, n);
    assert forall i | 0 <= i < next :: ds[..next][i] == ds[i] && now[..next][i] == now[i];
    forall i: nat ensures i in Present(blocks) <==> i in some {
      if i in some { assert Serves(ds[i], checks, i, off, n); }
    }
    forall i: nat ensures i in some <==> i in Live(now[..next]) {
      if i in some { assert Serves(ds[i], checks, i, off, n); }
    }
    forall i: nat | i in Servers(ds, checks, off, n) ensures i in Live(now) {
      assert Serves(ds[i], checks, i, off, n);
    }
    Smaller(some, Servers(ds, checks, off, n));
    Smaller(Servers(ds, checks, off, n), Live(now));
  }

  /**
    The disks still in use after a block was read: the reader goes through the
    slots in order and gives up on those that fail before the k-th success.
   */
  ghost function After(ds: seq<Option<Disk>>, checks: Checks, k: nat, off: nat, n: nat): (r: seq<Option<Disk>>)
    requires |ds| <= |checks.sums|
    ensures |r| == |ds|
  {
    seq(|ds|, i requires 0 <= i < |ds| =>
      if !Serves(ds[i], checks, i, off, n) && |Servers(ds[..i], checks, off, n)| < k then None else ds[i])
  }

  lemma ServersMonotone(ds: seq<Option<Disk>>, checks: Checks, off: nat, n: nat, i: nat, j: nat)
    requires i <= j <= |ds| <= |checks.sums|
    ensures Servers(ds[..i], checks, off, n) <= Servers(ds[..j], checks, off, n)
    ensures |Servers(ds[..i], checks, off, n)| <= |Servers(ds[..j], checks, off, n)|
    ensures i < j && Serves(ds[j - 1], checks, j - 1, off, n) ==>
              |Servers(ds[..i], checks, off, n)| < |Servers(ds[..j], checks, off, n)|
  {
    var a, b := Servers(ds[..i], checks, off, n), Servers(ds[..j], checks, off, n);
    forall x: nat | x in a ensures x in b {
      assert ds[..i][x] == ds[..j][x] == ds[x];
    }
    Smaller(a, b);
    if i < j && Serves(ds[j - 1], checks, j - 1, off, n) {
      assert ds[..j][j - 1] == ds[j - 1];
      assert j - 1 in b && j - 1 !in a;
    }
  }

  /** Every block read is the chunk its disk serves. */
  ghost predicate Chunks(ds: seq<Option<Disk>>, blocks: seq<Option<Bytes>>, checks: Checks, off: nat, n: nat)
    requires |ds| <= |checks.sums|
  {
    && |blocks| == |ds|
    && forall i | 0 <= i < |ds| && blocks[i].Some? ::
         Serves(ds[i], checks, i, off, n) && blocks[i] == ds[i].value.ReadAt(off, n)
  }

  lemma ProgressEnds(ds: seq<Option<Disk>>, now: seq<Option<Disk>>, blocks: seq<Option<Bytes>>, checks: Checks,
                     k: nat, off: nat, n: nat, next: nat)
    requires |ds| <= |checks.sums| && Progress(ds, now, blocks, checks, off, n, next)
    requires |Present(blocks)| == k && 0 < next && Serves(ds[next - 1], checks, next - 1, off, n)
    ensures now == After(ds, checks, k, off, n) && Chunks(ds, blocks, checks, off, n)
  {
    ProgressCounts(ds, now, blocks, checks, off, n, next);
    forall i | 0 <= i < |ds| ensures now[i] == After(ds, checks, k, off, n)[i] {
      if i < next {
        ServersMonotone(ds, checks, off, n, i, next);
      } else {
        ServersMonotone(ds, checks, off, n, next, i);
      }
    }
  }

  lemma BatchProgress(ds: seq<Option<Disk>>, now: seq<Option<Disk>>, blocks: seq<Option<Bytes>>, checks: Checks,
                      off: nat, n: nat,
                      next: nat, k: nat, read: seq<Option<Disk>>, next': nat, now': seq<Option<Disk>>,
                      blocks': seq<Option<Bytes>>)
    requires |ds| <= |checks.sums| && Progress(ds, now, blocks, checks, off, n, next)
    requires NextBatch(now, next, k, read, next')
    requires BatchDone(read, checks, off, n, now, blocks, now', blocks')
    ensures Progress(ds, now', blocks', checks, off, n, next')
    ensures |Present(blocks')| <= k
    ensures |Present(blocks')| == k ==>
              now' == After(ds, checks, k, off, n) && Chunks(ds, blocks', checks, off, n)
              && |Servers(ds, checks, off, n)| >= k
    ensures |Present(blocks')| < k && next' == |ds| ==> |Servers(ds, checks, off, n)| < k
  {
    forall i | next <= i < next'
      ensures if Serves(ds[i], checks, i, off, n) then now'[i] == ds[i] && blocks'[i] == ds[i].value.ReadAt(off, n)
              else now'[i] == None && blocks'[i] == None
    {
      assert read[i] == ds[i];
    }
    forall i | 0 <= i < |ds| && !(next <= i < next') ensures now'[i] == now[i] && blocks'[i] == blocks[i] {
      assert read[i].None?;
    }
    ProgressCounts(ds, now', blocks', checks, off, n, next');
    forall i: nat | i in Present(blocks') ensures i in Live(now[..next']) {
      assert i in Servers(ds[..next'], checks, off, n) && Serves(ds[i], checks, i, off, n);
      assert now[i] == ds[i];
    }
    Smaller(Present(blocks'), Live(now[..next']));
    if |Present(blocks')| == k {
      assert next' - 1 in Live(now[..next']);
      ProgressEnds(ds, now', blocks', checks, k, off, n, next');
    }
  }

  /** One round of the inner loop: pick the next disks and read them. */
  method ReadBatch(ghost ds: seq<Option<Disk>>, disks: array<Option<Disk>>, enBlocks: array<Option<Bytes>>,
                   verified: array<bool>,
                   checks: Checks, k: nat, off: nat, n: nat, nextIndex: nat)
    returns (r: Result<nat, Error>)
    requires CacheOk(disks[..], verified[..], checks)
    requires disks.Length == enBlocks.Length == |ds|
    requires Progress(ds, disks[..], enBlocks[..], checks, off, n, nextIndex)
    requires |Present(enBlocks[..])| < k
    modifies disks, enBlocks, verified
    ensures CacheOk(disks[..], verified[..], checks)
    ensures r.Err? ==> r.error == ReadQuorum && |Servers(ds, checks, off, n)| < k
    ensures r.Ok? ==>
              && nextIndex < r.value <= |ds|
              && Progress(ds, disks[..], enBlocks[..], checks, off, n, r.value)
              && |Present(enBlocks[..])| <= k
              && (|Present(enBlocks[..])| == k ==>
                    disks[..] == After(ds, checks, k, off, n) && Chunks(ds, enBlocks[..], checks, off, n)
                    && |Servers(ds, checks, off, n)| >= k)
              && (|Present(enBlocks[..])| < k && r.value == |ds| ==> |Servers(ds, checks, off, n)| < k)
  {
    ghost var now, blocks := disks[..], enBlocks[..];
    ProgressCounts(ds, now, blocks, checks, off, n, nextIndex);
    var batch := GetReadDisks(disks[..], nextIndex, k);
    if batch.Err? {
      return Err(batch.error);
    }
    var read, next := batch.value.0, batch.value.1;
    ParallelRead(read, disks, enBlocks, verified, checks, off, n);
    BatchProgress(ds, now, blocks, checks, off, n, nextIndex, k, read, next, disks[..], enBlocks[..]);
    return Ok(next);
  }

  /**
    The inner loop: reads chunks until there are `k` of them. It succeeds exactly
    when `k` of the disks in use can serve the block; the sanity checks of
    GetReadDisks are never hit.
   */
  method ReadBlock(disks: array<Option<Disk>>, verified: array<bool>, checks: Checks, k: nat, off: nat, n: nat)
    returns (r: Result<array<Option<Bytes>>, Error>)
    requires k > 0 && CacheOk(disks[..], verified[..], checks)
    modifies disks, verified
    ensures CacheOk(disks[..], verified[..], checks)
    ensures r.Ok? <==> |Servers(old(disks[..]), checks, off, n)| >= k
    ensures r.Err? ==> r.error == ReadQuorum
    ensures r.Ok? ==> fresh(r.value) && Chunks(old(disks[..]), r.value[..], checks, off, n)
    ensures r.Ok? ==> |Present(r.value[..])| == k && disks[..] == After(old(disks[..]), checks, k, off, n)
  {
    ghost var ds := disks[..];
    var enBlocks := new Option<Bytes>[disks.Length](_ => None);
    var nextIndex := 0;
    assert Present(enBlocks[..]) == {};
    while true
      invariant CacheOk(disks[..], verified[..], checks)
      invariant nextIndex <= disks.Length && Progress(ds, disks[..], enBlocks[..], checks, off, n, nextIndex)
      invariant |Present(enBlocks[..])| < k
      decreases disks.Length - nextIndex
    {
      var round := ReadBatch(ds, disks, enBlocks, verified, checks, k, off, n, nextIndex);
      if round.Err? {
        return Err(round.error);
      }
      nextIndex := round.value;
      var enough := IsSuccessDecodeBlocks(enBlocks[..], k);
      if enough {
        return Ok(enBlocks);
      }
      if nextIndex == disks.Length {
        return Err(ReadQuorum);
      }
    }
  }

  // ------------------------------------------------------------ writing one block out

  function Content(block: Option<Bytes>): Bytes {
    if block.Some? then block.value else []
  }

  function Joined(blocks: seq<Option<Bytes>>): Bytes {
    if blocks == [] then [] else Joined(blocks[..|blocks| - 1]) + Content(blocks[|blocks| - 1])
  }

  lemma JoinedStep(blocks: seq<Option<Bytes>>, i: nat)
    requires i < |blocks|
    ensures Joined(blocks[..i + 1]) == Joined(blocks[..i]) + Content(blocks[i])
  {
    assert blocks[..i + 1][..i] == blocks[..i];
  }

  lemma {:induction false} JoinedGrows(blocks: seq<Option<Bytes>>, i: nat)
    requires i <= |blocks|
    ensures Joined(blocks[..i]) <= Joined(blocks)
    decreases |blocks| - i
  {
    if i == |blocks| {
      assert blocks[..i] == blocks;
    } else {
      JoinedStep(blocks, i);
      JoinedGrows(blocks, i + 1);
    }
  }

  /** The part of `s` that lies in `[offset, offset + length)`. */
  function Window(s: Bytes, offset: nat, length: nat): Bytes {
    s[Min(offset, |s|)..Min(offset + length, |s|)]
  }

  lemma WindowGrows(s: Bytes, t: Bytes, offset: nat, length: nat)
    requires s <= t
    ensures Window(s, offset, length) <= Window(t, offset, length)
    ensures offset + length <= |s| ==> Window(t, offset, length) == Window(s, offset, length)
  {
  }

  lemma WindowSkip(s: Bytes, block: Bytes, offset: nat, length: nat)
    requires offset >= |s| + |block|
    ensures Window(s + block, offset, length) == Window(s, offset, length) == []
  {
  }

  lemma ConcatTail(s: Bytes, t: Bytes, a: nat, b: nat)
    requires |s| <= a <= b <= |s| + |t|
    ensures (s + t)[a..b] == t[a - |s|..b - |s|]
  {
  }

  lemma ConcatAcross(s: Bytes, t: Bytes, a: nat, b: nat)
    requires a <= |s| <= b <= |s| + |t|
    ensures (s + t)[a..b] == s[a..] + t[..b - |s|]
  {
  }

  lemma WindowTake(s: Bytes, block: Bytes, offset: nat, length: nat, skip: nat)
    requires offset < |s| + |block| && |s| <= offset + length
    requires skip == if offset >= |s| then offset - |s| else 0
    ensures var left := length - |Window(s, offset, length)|;
            left >= 0 && skip <= |block|
            && Window(s + block, offset, length) == Window(s, offset, length)
                + block[skip..skip + Min(left, |block| - skip)]
  {
    var end := Min(offset + length, |s| + |block|);
    if offset >= |s| {
      ConcatTail(s, block, offset, end);
      assert Window(s, offset, length) == [];
    } else {
      ConcatAcross(s, block, offset, end);
      assert Window(s, offset, length) == s[offset..];
    }
  }

  method GetDataBlockLen(enBlocks: seq<Option<Bytes>>, dataBlocks: nat) returns (size: nat)
    requires dataBlocks <= |enBlocks|
    ensures size == |Joined(enBlocks[..dataBlocks])|
  {
    size := 0;
    for i := 0 to dataBlocks
      invariant size == |Joined(enBlocks[..i])|
    {
      JoinedStep(enBlocks, i);
      size := size + |Content(enBlocks[i])|;
    }
  }

  /** Position of the copy loop after `sofar` of the joined blocks: bytes to skip and bytes still wanted. */
  ghost predicate CopyAt(sofar: Bytes, offset: nat, length: nat, skip: nat, write: nat) {
    && skip == (if offset >= |sofar| then offset - |sofar| else 0)
    && write == length - |Window(sofar, offset, length)|
    && (|sofar| <= offset + length)
  }

  /** The body of the copy loop, for one block; `more` says whether the loop goes on. */
  method CopyBlock(dst: Sink, block: Bytes, ghost start: Bytes, ghost sofar: Bytes, ghost offset: nat,
                   ghost length: nat,
                   skip: nat, write: nat)
    returns (r: Result<nat, Error>, more: bool, skip': nat)
    requires CopyAt(sofar, offset, length, skip, write)
    requires dst.data == start + Window(sofar, offset, length)
    modifies dst
    ensures r.Ok? ==> dst.data == start + Window(sofar + block, offset, length)
    ensures r.Ok? ==> r.value <= write && r.value == |dst.data| - |old(dst.data)|
    ensures r.Ok? && more ==> CopyAt(sofar + block, offset, length, skip', write - r.value)
    ensures r.Ok? && !more ==> offset + length <= |sofar + block|
    ensures r.Err? ==> r.error == SinkFailed && dst.data == old(dst.data) && !dst.accepts(|dst.data|)
  {
    if skip >= |block| {
      if block == [] { assert sofar + block == sofar; } else { WindowSkip(sofar, block, offset, length); }
      return Ok(0), true, skip - |block|;
    }
    WindowTake(sofar, block, offset, length, skip);
    var rest := block[skip..];
    if write < |rest| {
      var ok := dst.Write(rest[..write]);
      if !ok { return Err(SinkFailed), false, 0; }
      return Ok(write), false, 0;
    }
    var ok := dst.Write(rest);
    if !ok { return Err(SinkFailed), false, 0; }
    return Ok(|rest|), true, 0;
  }

  /** What a write of `[offset, offset + length)` of `joined` leaves in the sink. */
  ghost predicate Written(before: Bytes, after: Bytes, accepts: nat -> bool, joined: Bytes, offset: nat, length: nat,
                          r: Result<nat, Error>)
  {
    var window := Window(joined, offset, length);
    if r.Ok? then after == before + window && r.value == |window|
    else r.error == SinkFailed && (exists n: nat :: !accepts(n)) && before <= after <= before + window
  }

  /** After `i` blocks the sink holds the part of the window that lies in them. */
  ghost predicate CopiedUpTo(start: Bytes, now: Bytes, blocks: seq<Option<Bytes>>, i: nat, offset: nat, length: nat,
                             skip: nat, write: nat)
    requires i <= |blocks|
  {
    CopyAt(Joined(blocks[..i]), offset, length, skip, write)
    && now == start + Window(Joined(blocks[..i]), offset, length)
  }

  lemma WindowsOfBlocks(blocks: seq<Option<Bytes>>, i: nat, offset: nat, length: nat)
    requires i <= |blocks|
    ensures Window(Joined(blocks[..i]), offset, length) <= Window(Joined(blocks), offset, length)
    ensures offset + length <= |Joined(blocks[..i])| ==>
                Window(Joined(blocks), offset, length) == Window(Joined(blocks[..i]), offset, length)
  {
    JoinedGrows(blocks, i);
    WindowGrows(Joined(blocks[..i]), Joined(blocks), offset, length);
  }

  /** Block `i` of the copy loop. */
  method CopyNext(dst: Sink, blocks: seq<Option<Bytes>>, i: nat, ghost start: Bytes, ghost offset: nat,
                  ghost length: nat, skip: nat, write: nat)
    returns (r: Result<nat, Error>, more: bool, skip': nat)
    requires i < |blocks| && CopiedUpTo(start, dst.data, blocks, i, offset, length, skip, write)
    modifies dst
    ensures r.Ok? ==> r.value <= write
    ensures r.Ok? && more ==> CopiedUpTo(start, dst.data, blocks, i + 1, offset, length, skip', write - r.value)
    ensures r.Ok? && !more ==>
                Written(start, dst.data, dst.accepts, Joined(blocks), offset, length, Ok(length - write + r.value))
    ensures r.Err? ==> Written(start, dst.data, dst.accepts, Joined(blocks), offset, length, r)
  {
    JoinedStep(blocks, i);
    WindowsOfBlocks(blocks, i, offset, length);
    WindowsOfBlocks(blocks, i + 1, offset, length);
    r, more, skip' := CopyBlock(dst, Content(blocks[i]), start, Joined(blocks[..i]), offset, length, skip, write);
  }

  method CopyBlocks(dst: Sink, blocks: seq<Option<Bytes>>, offset: nat, length: nat) returns (r: Result<nat, Error>)
    modifies dst
    ensures Written(old(dst.data), dst.data, dst.accepts, Joined(blocks), offset, length, r)
  {
    var skip: nat, write: nat, total: nat := offset, length, 0;
    ghost var start := dst.data;
    for i := 0 to |blocks|
      invariant CopiedUpTo(start, dst.data, blocks, i, offset, length, skip, write) && write <= length
                && total == length - write
    {
      var n, more, skip' := CopyNext(dst, blocks, i, start, offset, length, skip, write);
      if n.Err? { return n; }
      total := total + n.value;
      if !more { return Ok(total); }
      write, skip := write - n.value, skip';
    }
    assert blocks[..|blocks|] == blocks;
    return Ok(total);
  }

  /** Writes the bytes `[offset, offset + length)` of the joined data blocks, as far as they reach. */
  method WriteDataBlocks(dst: Sink, enBlocks: seq<Option<Bytes>>, dataBlocks: nat, offset: int, length: int)
    returns (r: Result<nat, Error>)
    modifies dst
    ensures offset < 0 || length < 0 ==> r == Err(Unexpected) && dst.data == old(dst.data)
    ensures offset >= 0 && length >= 0 && |enBlocks| < dataBlocks ==>
                r == Err(TooFewShards) && dst.data == old(dst.data)
    ensures offset >= 0 && length >= 0 && dataBlocks <= |enBlocks| && |Joined(enBlocks[..dataBlocks])| < length ==>
              r == Err(ShortData) && dst.data == old(dst.data)
    ensures offset >= 0 && 0 <= length && dataBlocks <= |enBlocks| && length <= |Joined(enBlocks[..dataBlocks])| ==>
              Written(old(dst.data), dst.data, dst.accepts, Joined(enBlocks[..dataBlocks]), offset, length, r)
  {
    if offset < 0 || length < 0 { return Err(Unexpected); }
    if |enBlocks| < dataBlocks { return Err(TooFewShards); }
    var have := GetDataBlockLen(enBlocks, dataBlocks);
    if have < length { return Err(ShortData); }
    r := CopyBlocks(dst, enBlocks[..dataBlocks], offset, length);
  }

  // ------------------------------------------------------------ the whole read

  /**
    Every file that carries its checksum is the shard file of `data`, or the start of it if the disk failed
    while the file was written: the hash is not fooled.
   */
  ghost predicate Faithful(ds: seq<Option<Disk>>, checks: Checks, c: Code, blockSize: nat, data: Bytes)
    requires blockSize > 0
  {
    && |ds| == |checks.sums| == c.Width()
    && forall i | 0 <= i < |ds| && Intact(ds[i], checks.sums[i], checks.digest) ::
         ds[i].value.file <= ShardFile(c, data, blockSize, i)
  }

  lemma PrefixSlice(s: Bytes, t: Bytes, a: nat, b: nat)
    requires s <= t && a <= b <= |s|
    ensures s[a..b] == t[a..b]
  {
  }

  /** What an intact disk gives for block `b` is its shard of that block. */
  lemma ServedIsShard(d: Disk, c: Code, blockSize: nat, data: Bytes, b: nat, i: nat)
    requires blockSize > 0 && i < c.Width() && Times(b, blockSize) < |data|
    requires d.file <= ShardFile(c, data, blockSize, i)
    requires d.ReadAt(ChunkOffset(c, blockSize, b), ChunkLen(c, blockSize, |data|, b)).Some?
    ensures d.ReadAt(ChunkOffset(c, blockSize, b), ChunkLen(c, blockSize, |data|, b))
         == Some(EncodeBlock(c, Block(data, blockSize, b))[i])
  {
    var off, n := ChunkOffset(c, blockSize, b), ChunkLen(c, blockSize, |data|, b);
    ChunkInFile(c, data, blockSize, i, b);
    PrefixSlice(d.file, ShardFile(c, data, blockSize, i), off, off + n);
  }

  lemma {:induction false} JoinedIsFlatten(blocks: seq<Option<Bytes>>, shards: seq<Bytes>)
    requires |blocks| == |shards| && forall i | 0 <= i < |blocks| :: blocks[i] == Some(shards[i])
    ensures Joined(blocks) == Flatten(shards)
  {
    if blocks != [] {
      var n := |blocks| - 1;
      JoinedIsFlatten(blocks[..n], shards[..n]);
      assert shards == shards[..n] + [shards[n]];
      FlattenAppend(shards[..n], [shards[n]]);
      assert Flatten([shards[n]]) == shards[n];
    }
  }

  /** Reads block `b` and makes all its data blocks available. */
  method FetchBlock(disks: array<Option<Disk>>, verified: array<bool>, checks: Checks, c: Code,
                    ghost blockSize: nat, ghost data: Bytes, ghost b: nat, off: nat, n: nat)
    returns (r: Result<seq<Option<Bytes>>, Error>)
    requires blockSize > 0 && Faithful(disks[..], checks, c, blockSize, data)
    requires Times(b, blockSize) <= |data| && off == ChunkOffset(c, blockSize, b)
             && n == ChunkLen(c, blockSize, |data|, b)
    requires CacheOk(disks[..], verified[..], checks)
    modifies disks, verified
    ensures CacheOk(disks[..], verified[..], checks)
    ensures r.Ok? ==> |r.value| == c.Width()
    ensures r.Ok? ==> disks[..] == After(old(disks[..]), checks, c.dataBlocks, off, n)
    ensures Times(b, blockSize) < |data| ==> (r.Ok? <==> |Servers(old(disks[..]), checks, off, n)| >= c.dataBlocks)
    ensures Times(b, blockSize) < |data| && r.Err? ==> r.error == ReadQuorum
    ensures Times(b, blockSize) < |data| && r.Ok? ==>
              forall i | 0 <= i < c.dataBlocks :: r.value[i] == Some(EncodeBlock(c, Block(data, blockSize, b))[i])
  {
    ghost var ds := disks[..];
    var read := ReadBlock(disks, verified, checks, c.dataBlocks, off, n);
    if read.Err? { return Err(read.error); }
    var enBlocks := read.value;
    ghost var x := enBlocks[..];
    ghost var true_ := if Times(b, blockSize) < |data| then EncodeBlock(c, Block(data, blockSize, b)) else [];
    if Times(b, blockSize) < |data| {
      forall i | 0 <= i < |x| && x[i].Some? ensures x[i].value == true_[i] {
        ServedIsShard(ds[i].value, c, blockSize, data, b, i);
      }
    }
    var complete := IsSuccessDataBlocks(enBlocks[..], c.dataBlocks);
    if !complete {
      if Times(b, blockSize) < |data| {
        DecodeComplete(c, x, Block(data, blockSize, b));
      }
      var ok := DecodeData(enBlocks, c);
      if !ok { return Err(DecodeFailed); }
    }
    return Ok(enBlocks[..]);
  }

  lemma WindowOfBlock(data: Bytes, blockSize: nat, b: nat, pad: nat, from: nat, len: nat)
    requires Times(b, blockSize) <= |data| && from + len <= |Block(data, blockSize, b)|
    ensures Window(Block(data, blockSize, b) + Zeros(pad), from, len)
         == data[Times(b, blockSize) + from..Times(b, blockSize) + from + len]
  {
    var block, at := Block(data, blockSize, b), Times(b, blockSize);
    assert Window(block + Zeros(pad), from, len) == block[from..from + len];
    SliceOfSlice(data, at, at + |block|, from, from + len);
  }

  /** The joined data blocks of block `b` hold its bytes. */
  lemma FetchedBytes(c: Code, blocks: seq<Option<Bytes>>, blockSize: nat, data: Bytes, b: nat, from: nat, len: nat)
    requires |blocks| == c.Width() && Times(b, blockSize) <= |data|
    requires forall i | 0 <= i < c.dataBlocks :: blocks[i] == Some(EncodeBlock(c, Block(data, blockSize, b))[i])
    requires from + len <= |Block(data, blockSize, b)|
    ensures len <= |Joined(blocks[..c.dataBlocks])|
    ensures Window(Joined(blocks[..c.dataBlocks]), from, len)
         == data[Times(b, blockSize) + from..Times(b, blockSize) + from + len]
  {
    var block := Block(data, blockSize, b);
    var shards := EncodeBlock(c, block)[..c.dataBlocks];
    JoinedIsFlatten(blocks[..c.dataBlocks], shards);
    DataShardsJoined(c, block);
    var pad := Times(c.dataBlocks, ChunkSize(|block|, c.dataBlocks)) - |block|;
    WindowOfBlock(data, blockSize, b, pad, from, len);
  }

  /** How reading a block that holds wanted bytes ends, and what it does to the disks. */
  ghost predicate Outcome(ds: seq<Option<Disk>>, ds': seq<Option<Disk>>, checks: Checks, k: nat, off: nat, n: nat,
                          accepts: nat -> bool, wanted: bool, r: Result<nat, Error>)
    requires |ds| <= |checks.sums|
  {
    && (r.Ok? ==> ds' == After(ds, checks, k, off, n))
    && (wanted && r.Ok? ==> |Servers(ds, checks, off, n)| >= k)
    && (wanted && r.Err? ==>
          || (r.error == ReadQuorum && |Servers(ds, checks, off, n)| < k)
          || (r.error == SinkFailed && exists m: nat :: !accepts(m)))
  }

  /** Sends `len` bytes of block `b`, starting `from` bytes into it. */
  method SendBlock(writer: Sink, disks: array<Option<Disk>>, verified: array<bool>, checks: Checks, c: Code,
                   ghost blockSize: nat, ghost data: Bytes, ghost b: nat, off: nat, n: nat, from: nat, len: nat,
                   ghost pos: nat)
    returns (r: Result<nat, Error>)
    requires blockSize > 0 && Faithful(disks[..], checks, c, blockSize, data)
    requires Times(b, blockSize) <= |data| && off == ChunkOffset(c, blockSize, b)
             && n == ChunkLen(c, blockSize, |data|, b)
    requires CacheOk(disks[..], verified[..], checks)
    requires from + len <= Min(blockSize, |data| - Times(b, blockSize)) && pos == Times(b, blockSize) + from
    modifies writer, disks, verified
    ensures CacheOk(disks[..], verified[..], checks)
    ensures Outcome(old(disks[..]), disks[..], checks, c.dataBlocks, off, n, writer.accepts, len > 0, r)
    ensures pos + len <= |data| && Sent(old(writer.data), writer.data, data[pos..pos + len], r)
  {
    var fetched := FetchBlock(disks, verified, checks, c, blockSize, data, b, off, n);
    if fetched.Err? { return Err(fetched.error); }
    if Times(b, blockSize) < |data| {
      FetchedBytes(c, fetched.value, blockSize, data, b, from, len);
    }
    ghost var before, joined := writer.data, Joined(fetched.value[..c.dataBlocks]);
    r := WriteDataBlocks(writer, fetched.value, c.dataBlocks, from, len);
    WrittenIsSent(before, writer.data, writer.accepts, joined, from, len, data[pos..pos + len], r);
  }

  lemma WrittenIsSent(before: Bytes, after: Bytes, accepts: nat -> bool, joined: Bytes, from: nat, len: nat,
                      wanted: Bytes, r: Result<nat, Error>)
    requires Written(before, after, accepts, joined, from, len, r) && |wanted| == len
             && (len > 0 ==> Window(joined, from, len) == wanted)
    ensures Sent(before, after, wanted, r) && (r.Err? ==> r.error == SinkFailed && exists m: nat :: !accepts(m))
  {
    if len == 0 { assert Window(joined, from, len) == [] == wanted; }
  }

  /** All of `wanted` was written, or an error came up and a part of it was. */
  ghost predicate Sent(before: Bytes, after: Bytes, wanted: Bytes, r: Result<nat, Error>) {
    && (r.Ok? ==> after == before + wanted && r.value == |wanted|)
    && before <= after <= before + wanted
  }

  /** Can blocks `b..last` be read one after the other, disks being dropped on the way? */
  ghost predicate Readable(ds: seq<Option<Disk>>, checks: Checks, c: Code, blockSize: nat, total: nat, b: nat,
                           last: nat)
    requires |ds| <= |checks.sums|
    decreases last - b
  {
    Times(b, blockSize) <= total ==>
      var off, n := ChunkOffset(c, blockSize, b), ChunkLen(c, blockSize, total, b);
      && |Servers(ds, checks, off, n)| >= c.dataBlocks
      && (b < last ==> Readable(After(ds, checks, c.dataBlocks, off, n), checks, c, blockSize, total, b + 1, last))
  }

  /** Slot `i` can serve every block from `b` to `last`. */
  ghost predicate ServesAll(ds: seq<Option<Disk>>, checks: Checks, c: Code, blockSize: nat, total: nat, b: nat,
                            last: nat, i: nat)
    requires |ds| <= |checks.sums|
  {
    && i < |ds|
    && forall a: nat | b <= a <= last && Times(a, blockSize) <= total ::
         Serves(ds[i], checks, i, ChunkOffset(c, blockSize, a), ChunkLen(c, blockSize, total, a))
  }

  /** Availability: `dataBlocks` disks that serve the whole range are enough, whatever the other disks do. */
  lemma {:induction false} EnoughDisksSuffice(ds: seq<Option<Disk>>, checks: Checks, c: Code, blockSize: nat,
                                              total: nat, b: nat, last: nat, good: set<nat>)
    requires |ds| <= |checks.sums|
    requires |good| >= c.dataBlocks && forall i | i in good :: ServesAll(ds, checks, c, blockSize, total, b, last, i)
    requires b <= last
    ensures Readable(ds, checks, c, blockSize, total, b, last)
    decreases last - b
  {
    if Times(b, blockSize) <= total {
      var off, n := ChunkOffset(c, blockSize, b), ChunkLen(c, blockSize, total, b);
      forall i | i in good ensures i in Servers(ds, checks, off, n) {
        assert ServesAll(ds, checks, c, blockSize, total, b, last, i);
      }
      Smaller(good, Servers(ds, checks, off, n));
      if b < last {
        var ds' := After(ds, checks, c.dataBlocks, off, n);
        forall i | i in good ensures ServesAll(ds', checks, c, blockSize, total, b + 1, last, i) {
          assert ServesAll(ds, checks, c, blockSize, total, b, last, i);
          assert ds'[i] == ds[i];
        }
        EnoughDisksSuffice(ds', checks, c, blockSize, total, b + 1, last, good);
      }
    }
  }

  lemma AfterFaithful(ds: seq<Option<Disk>>, checks: Checks, c: Code, blockSize: nat, data: Bytes, off: nat, n: nat)
    requires blockSize > 0 && Faithful(ds, checks, c, blockSize, data)
    ensures Faithful(After(ds, checks, c.dataBlocks, off, n), checks, c, blockSize, data)
  {
  }

  /** The read stands at byte `sent` of its range, which lies in block `b`. */
  ghost predicate At(offset: nat, blockSize: nat, start: nat, b: nat, sent: nat) {
    && Times(b, blockSize) <= offset + sent < Times(b, blockSize) + blockSize
    && start <= b
    && (b == start ==> sent == 0)
    && (b > start ==> offset + sent == Times(b, blockSize))
  }

  lemma NextAt(offset: nat, blockSize: nat, start: nat, b: nat, sent': nat)
    requires blockSize > 0 && start <= b && offset + sent' == Times(b, blockSize) + blockSize
    ensures At(offset, blockSize, start, b + 1, sent')
  {
  }

  /** The first block of a range, the last one the loop may visit, and the last one that holds a wanted byte. */
  method Span(offset: nat, length: nat, blockSize: nat) returns (first: nat, end: nat, ghost last: nat)
    requires blockSize > 0
    ensures At(offset, blockSize, first, first, 0) && first <= end
    ensures Times(end, blockSize) <= offset + length < Times(end, blockSize) + blockSize
    ensures length > 0 ==> first <= last
                           && Times(last, blockSize) < offset + length <= Times(last, blockSize) + blockSize
  {
    first, end := offset / blockSize, (offset + length) / blockSize;
    last := if length > 0 then (offset + length - 1) / blockSize else first;
    BlockOf(offset, blockSize);
    BlockOf(offset + length, blockSize);
    BlockOrder(first, end, blockSize, offset);
    if length > 0 {
      BlockOf(offset + length - 1, blockSize);
      BlockOrder(first, last, blockSize, offset);
    }
  }

  /** Size of block `b`: the last one can be short. */
  method CurrentSizes(pos: nat, total: nat, blockSize: nat, k: nat, b: nat, blockLen: nat, chunkLen: nat)
    returns (blockLen': nat, chunkLen': nat)
    requires blockSize > 0 && k > 0 && pos <= total
    requires Times(b, blockSize) <= pos < Times(b, blockSize) + blockSize
    requires blockLen == blockSize && chunkLen == ChunkSize(blockSize, k)
    ensures blockLen' == Min(blockSize, total - Times(b, blockSize)) && chunkLen' == ChunkSize(blockLen', k)
  {
    blockLen', chunkLen' := blockLen, chunkLen;
    InBlock(pos, blockSize, b);
    BlockOf(total, blockSize);
    if total < Times(b, blockSize) + blockSize { InBlock(total, blockSize, b); }
    if pos / blockSize == total / blockSize {
      blockLen' := total % blockSize;
      chunkLen' := GetChunkSize(blockLen', k);
    }
  }

  /** Which bytes of the current block to send. */
  method Cutout(offset: nat, length: nat, blockSize: nat, ghost total: nat, start: nat, b: nat, blockLen: nat,
                sent: nat)
    returns (from: nat, len: nat)
    requires blockSize > 0 && At(offset, blockSize, start, b, sent) && sent <= length
    requires offset + length <= total && blockLen == Min(blockSize, total - Times(b, blockSize))
    ensures Times(b, blockSize) + from == offset + sent && from + len <= blockLen && sent + len <= length
    ensures sent < length ==> len > 0
    ensures sent + len < length ==> offset + sent + len == Times(b, blockSize) + blockSize && blockLen == blockSize
    ensures sent + len == length ==> offset + length <= Times(b, blockSize) + blockSize
  {
    from, len := 0, blockLen;
    if b == start {
      InBlock(offset, blockSize, b);
      from := offset % blockSize;
      len := blockLen - from;
    }
    var remaining := length - sent;
    if remaining < len { len := remaining; }
  }

  /** The range ends in block `b` exactly when the iteration completes it. */
  lemma LastStep(offset: nat, length: nat, blockSize: nat, b: nat, sent: nat, last: nat, end: nat)
    requires blockSize > 0 && sent < length
    requires Times(b, blockSize) <= offset + sent < Times(b, blockSize) + blockSize
    requires Times(last, blockSize) < offset + length <= Times(last, blockSize) + blockSize
    requires Times(end, blockSize) <= offset + length < Times(end, blockSize) + blockSize
    ensures offset + length <= Times(b, blockSize) + blockSize ==> b == last
    ensures offset + length > Times(b, blockSize) + blockSize ==> b < last
    ensures b <= last && b <= end
  {
    BlockOrder(b, last, blockSize, offset + length - 1);
    BlockOrder(b, end, blockSize, offset + length);
    if offset + length <= Times(b, blockSize) + blockSize { BlockOrder(last, b, blockSize, offset + length - 1); }
  }

  method ChunkStart(b: nat, chunkSize: nat) returns (off: nat)
    ensures off == Times(b, chunkSize)
  {
    off := b * chunkSize;
    TimesIsProduct(b, chunkSize);
  }

  /** What every iteration of the outer loop keeps true of the disks. */
  ghost predicate Usable(ds: seq<Option<Disk>>, verified: seq<bool>, checks: Checks, c: Code, blockSize: nat,
                         data: Bytes) {
    blockSize > 0 && Faithful(ds, checks, c, blockSize, data) && CacheOk(ds, verified, checks)
  }

  /** One iteration of the outer loop; `len` is the number of bytes it is to send. */
  method ReadStep(writer: Sink, disks: array<Option<Disk>>, verified: array<bool>, checks: Checks, c: Code,
                  offset: nat, length: nat, total: nat, blockSize: nat, ghost data: Bytes,
                  start: nat, block: nat, sent: nat, curBlockSize: nat, curChunkSize: nat)
    returns (r: Result<nat, Error>, curBlockSize': nat, curChunkSize': nat, ghost len: nat)
    requires Usable(disks[..], verified[..], checks, c, blockSize, data) && total == |data|
    requires offset + length <= total && sent <= length && At(offset, blockSize, start, block, sent)
    requires curBlockSize == blockSize && curChunkSize == ChunkSize(blockSize, c.dataBlocks)
    modifies writer, disks, verified
    ensures Times(block, blockSize) <= total && sent + len <= length
    ensures Sent(old(writer.data), writer.data, data[offset + sent..offset + sent + len], r)
    ensures sent + len < length ==>
              && offset + sent + len == Times(block, blockSize) + blockSize
              && curBlockSize' == blockSize && curChunkSize' == ChunkSize(blockSize, c.dataBlocks)
    ensures sent + len == length ==> offset + length <= Times(block, blockSize) + blockSize
    ensures var off, n := ChunkOffset(c, blockSize, block), ChunkLen(c, blockSize, total, block);
            Outcome(old(disks[..]), disks[..], checks, c.dataBlocks, off, n, writer.accepts, sent < length, r)
    ensures r.Ok? ==> Usable(disks[..], verified[..], checks, c, blockSize, data)
  {
    curBlockSize', curChunkSize' :=
      CurrentSizes(offset + sent, total, blockSize, c.dataBlocks, block, curBlockSize, curChunkSize);
    var chunkSize := GetChunkSize(blockSize, c.dataBlocks);
    var blockOffset := ChunkStart(block, chunkSize);
    var from, count := Cutout(offset, length, blockSize, total, start, block, curBlockSize', sent);
    len := count;
    AfterFaithful(disks[..], checks, c, blockSize, data, blockOffset, curChunkSize');
    r := SendBlock(writer, disks, verified, checks, c, blockSize, data, block, blockOffset, curChunkSize', from,
                   count, offset + sent);
  }

  lemma SentMore(start: Bytes, data: Bytes, offset: nat, sent: nat, len: nat, length: nat, before: Bytes, after: Bytes,
                 r: Result<nat, Error>)
    requires offset + length <= |data| && sent + len <= length
    requires before == start + data[offset..offset + sent]
    requires Sent(before, after, data[offset + sent..offset + sent + len], r)
    ensures r.Ok? ==> r.value == len && after == start + data[offset..offset + sent + len]
    ensures start <= after <= start + data[offset..offset + length]
  {
    SlicesJoin(data, offset, offset + sent, offset + sent + len);
    SlicesJoin(data, offset, offset + sent + len, offset + length);
    assert before + data[offset + sent..offset + sent + len] == start + data[offset..offset + sent + len];
    assert start + data[offset..offset + length]
        == start + data[offset..offset + sent + len] + data[offset + sent + len..offset + length];
  }

  lemma ReadableStep(ds: seq<Option<Disk>>, ds': seq<Option<Disk>>, checks: Checks, c: Code, blockSize: nat, total: nat,
                     b: nat, last: nat, accepts: nat -> bool, r: Result<nat, Error>)
    requires |ds| <= |checks.sums| && Times(b, blockSize) <= total
    requires Outcome(ds, ds', checks, c.dataBlocks, ChunkOffset(c, blockSize, b), ChunkLen(c, blockSize, total, b),
                     accepts, true, r)
    ensures r.Ok? ==> |ds'| == |ds|
    ensures r.Ok? && b == last ==> Readable(ds, checks, c, blockSize, total, b, last)
    ensures r.Ok? && b < last ==> (Readable(ds, checks, c, blockSize, total, b, last)
                                   <==> Readable(ds', checks, c, blockSize, total, b + 1, last))
    ensures r.Err? && r.error == ReadQuorum ==> !Readable(ds, checks, c, blockSize, total, b, last)
    ensures r.Err? && r.error != ReadQuorum ==> exists m: nat :: !accepts(m)
  {
  }

  /** Where the outer loop stands before an iteration. */
  ghost predicate Position(offset: nat, length: nat, blockSize: nat, first: nat, end: nat, last: nat, block: nat,
                           n: nat) {
    && At(offset, blockSize, first, block, n)
    && Times(end, blockSize) <= offset + length < Times(end, blockSize) + blockSize
    && block <= end
    && (n < length || n == length == 0)
    && (length > 0 ==> block <= last && Times(last, blockSize) < offset + length <= Times(last, blockSize) + blockSize)
  }

  lemma NextPosition(offset: nat, length: nat, blockSize: nat, first: nat, end: nat, last: nat, block: nat, n: nat,
                     n': nat)
    requires blockSize > 0 && Position(offset, length, blockSize, first, end, last, block, n)
    requires n' < length && offset + n' == Times(block, blockSize) + blockSize
    ensures block < last && Position(offset, length, blockSize, first, end, last, block + 1, n')
  {
    NextAt(offset, blockSize, first, block, n');
    LastStep(offset, length, blockSize, block + 1, n', last, end);
  }

  /** What an iteration says about the rest of the range. */
  ghost predicate Judged(ds: seq<Option<Disk>>, ds': seq<Option<Disk>>, checks: Checks, c: Code, blockSize: nat,
                         total: nat,
                         block: nat, last: nat, accepts: nat -> bool, done: bool, r: Result<nat, Error>)
    requires |ds| <= |checks.sums|
  {
    && (r.Ok? && done ==> Readable(ds, checks, c, blockSize, total, block, last))
    && (r.Ok? && !done ==> |ds'| == |ds| && (Readable(ds, checks, c, blockSize, total, block, last)
                                           <==> Readable(ds', checks, c, blockSize, total, block + 1, last)))
    && (r.Err? && r.error == ReadQuorum ==> !Readable(ds, checks, c, blockSize, total, block, last))
    && (r.Err? && r.error != ReadQuorum ==> exists m: nat :: !accepts(m))
  }

  /** One iteration and where it leads. */
  method ReadNext(writer: Sink, disks: array<Option<Disk>>, verified: array<bool>, checks: Checks, c: Code,
                  offset: nat, length: nat, total: nat, blockSize: nat, ghost data: Bytes, ghost begin: Bytes,
                  first: nat, end: nat, ghost last: nat, block: nat, n: nat, curBlockSize: nat, curChunkSize: nat)
    returns (r: Result<nat, Error>, curBlockSize': nat, curChunkSize': nat)
    requires Usable(disks[..], verified[..], checks, c, blockSize, data) && total == |data| && offset + length <= total
    requires Position(offset, length, blockSize, first, end, last, block, n)
    requires curBlockSize == blockSize && curChunkSize == ChunkSize(blockSize, c.dataBlocks)
    requires writer.data == begin + data[offset..offset + n]
    modifies writer, disks, verified
    ensures begin <= writer.data <= begin + data[offset..offset + length]
    ensures r.Ok? ==> n + r.value <= length && writer.data == begin + data[offset..offset + n + r.value]
    ensures r.Ok? ==> Usable(disks[..], verified[..], checks, c, blockSize, data)
    ensures r.Ok? && n + r.value < length ==>
              && Position(offset, length, blockSize, first, end, last, block + 1, n + r.value)
              && curBlockSize' == blockSize && curChunkSize' == ChunkSize(blockSize, c.dataBlocks)
    ensures length > 0 ==> Judged(old(disks[..]), disks[..], checks, c, blockSize, total, block, last, writer.accepts,
                                  r.Ok? && n + r.value == length, r)
  {
    ghost var before, ds := writer.data, disks[..];
    ghost var len;
    r, curBlockSize', curChunkSize', len :=
      ReadStep(writer, disks, verified, checks, c, offset, length, total, blockSize, data, first, block, n,
               curBlockSize, curChunkSize);
    SentMore(begin, data, offset, n, len, length, before, writer.data, r);
    if length > 0 {
      LastStep(offset, length, blockSize, block, n, last, end);
      ReadableStep(ds, disks[..], checks, c, blockSize, total, block, last, writer.accepts, r);
    }
    if r.Ok? && n + r.value < length {
      NextPosition(offset, length, blockSize, first, end, last, block, n, n + r.value);
    }
  }

  /** What the outer loop comes to, read from the disks `ds` into a sink that held `begin`. */
  ghost predicate RangeRead(ds: seq<Option<Disk>>, checks: Checks, c: Code, blockSize: nat, data: Bytes, offset: nat,
                            length: nat,
                            first: nat, last: nat, accepts: nat -> bool, begin: Bytes, after: Bytes, n: nat,
                            err: Option<Error>)
    requires offset + length <= |data| && |ds| <= |checks.sums|
  {
    && begin <= after <= begin + data[offset..offset + length]
    && (err.None? ==> n == length && after == begin + data[offset..offset + length])
    && (length > 0 ==> Verdict(ds, checks, c, blockSize, |data|, first, last, accepts, err))
  }

  /** Whether the range was readable, as far as the outcome tells. */
  ghost predicate Verdict(ds: seq<Option<Disk>>, checks: Checks, c: Code, blockSize: nat, total: nat, first: nat,
                          last: nat,
                          accepts: nat -> bool, err: Option<Error>)
    requires |ds| <= |checks.sums|
  {
    && ((forall m: nat :: accepts(m)) ==> (err.None? <==> Readable(ds, checks, c, blockSize, total, first, last)))
    && (err.Some? && err.value != ReadQuorum ==> exists m: nat :: !accepts(m))
  }

  /** The outer loop, for a range that passed the checks. */
  method ReadRange(writer: Sink, disks: array<Option<Disk>>, checks: Checks, c: Code,
                   offset: nat, length: nat, total: nat, blockSize: nat, ghost data: Bytes)
    returns (n: nat, err: Option<Error>, ghost first: nat, ghost last: nat)
    requires blockSize > 0 && total == |data| && offset + length <= total
    requires Faithful(disks[..], checks, c, blockSize, data)
    modifies writer, disks
    ensures RangeRead(old(disks[..]), checks, c, blockSize, data, offset, length, first, last, writer.accepts,
                      old(writer.data), writer.data, n, err)
    ensures At(offset, blockSize, first, first, 0)
    ensures length > 0 ==> Times(last, blockSize) < offset + length <= Times(last, blockSize) + blockSize
  {
    var startBlock, endBlock;
    startBlock, endBlock, last := Span(offset, length, blockSize);
    first := startBlock;
    assert writer.data + data[offset..offset] == writer.data;
    n, err := ReadBlocks(writer, disks, checks, c, offset, length, total, blockSize, data, startBlock, endBlock, last);
  }

  /** Where the outer loop stands before block `block`, with `n` bytes sent; `ds` are the disks it started with. */
  ghost predicate Standing(ds: seq<Option<Disk>>, now: seq<Option<Disk>>, verified: seq<bool>, checks: Checks, c: Code,
                           blockSize: nat, data: Bytes, offset: nat, length: nat, first: nat, end: nat, last: nat,
                           begin: Bytes, after: Bytes, block: nat, n: nat)
    requires |ds| <= |checks.sums|
  {
    && Usable(now, verified, checks, c, blockSize, data) && offset + length <= |data|
    && Position(offset, length, blockSize, first, end, last, block, n)
    && n <= length && after == begin + data[offset..offset + n]
    && (length > 0 ==> (Readable(ds, checks, c, blockSize, |data|, first, last)
                        <==> Readable(now, checks, c, blockSize, |data|, block, last)))
  }

  /** What follows from an iteration: the loop is done, or stands before the next block. */
  lemma Stepped(ds: seq<Option<Disk>>, was: seq<Option<Disk>>, now: seq<Option<Disk>>, checks: Checks, c: Code,
                blockSize: nat,
                total: nat, first: nat, last: nat, block: nat, accepts: nat -> bool, done: bool, r: Result<nat, Error>)
    requires |ds| <= |checks.sums| && |was| <= |checks.sums| && |now| <= |checks.sums|
    requires Readable(ds, checks, c, blockSize, total, first, last)
             <==> Readable(was, checks, c, blockSize, total, block, last)
    requires Judged(was, now, checks, c, blockSize, total, block, last, accepts, done, r)
    ensures r.Err? ==> Verdict(ds, checks, c, blockSize, total, first, last, accepts, Some(r.error))
    ensures r.Ok? && done ==> Verdict(ds, checks, c, blockSize, total, first, last, accepts, None)
    ensures r.Ok? && !done ==> (Readable(ds, checks, c, blockSize, total, first, last)
                                <==> Readable(now, checks, c, blockSize, total, block + 1, last))
  {
  }

  /** One iteration, from one stand to the next or to the end. */
  method ReadOn(writer: Sink, disks: array<Option<Disk>>, verified: array<bool>, checks: Checks, c: Code,
                offset: nat, length: nat, total: nat, blockSize: nat, ghost data: Bytes, ghost begin: Bytes,
                ghost ds: seq<Option<Disk>>, first: nat, end: nat, ghost last: nat, block: nat, n: nat,
                curBlockSize: nat, curChunkSize: nat)
    returns (done: bool, n': nat, err: Option<Error>, curBlockSize': nat, curChunkSize': nat)
    requires |ds| <= |checks.sums| && total == |data|
    requires Standing(ds, disks[..], verified[..], checks, c, blockSize, data, offset, length, first, end, last,
                      begin, writer.data, block, n)
    requires curBlockSize == blockSize && curChunkSize == ChunkSize(blockSize, c.dataBlocks)
    modifies writer, disks, verified
    ensures offset + length <= |data|
    ensures done ==> RangeRead(ds, checks, c, blockSize, data, offset, length, first, last, writer.accepts,
                               begin, writer.data, n', err)
    ensures !done ==> Standing(ds, disks[..], verified[..], checks, c, blockSize, data, offset, length, first, end,
                               last,
                               begin, writer.data, block + 1, n')
    ensures !done ==> err.None? && curBlockSize' == blockSize && curChunkSize' == ChunkSize(blockSize, c.dataBlocks)
  {
    ghost var was := disks[..];
    var r;
    r, curBlockSize', curChunkSize' :=
      ReadNext(writer, disks, verified, checks, c, offset, length, total, blockSize, data, begin,
               first, end, last, block, n, curBlockSize, curChunkSize);
    done := r.Err? || n + r.value == length;
    if length > 0 {
      Stepped(ds, was, disks[..], checks, c, blockSize, total, first, last, block, writer.accepts,
              r.Ok? && n + r.value == length, r);
    }
    n' := if r.Ok? then n + r.value else n;
    err := if r.Ok? then None else Some(r.error);
  }

  method ReadBlocks(writer: Sink, disks: array<Option<Disk>>, checks: Checks, c: Code, offset: nat, length: nat,
                    total: nat,
                    blockSize: nat, ghost data: Bytes, startBlock: nat, endBlock: nat, ghost last: nat)
    returns (n: nat, err: Option<Error>)
    requires blockSize > 0 && total == |data| && offset + length <= total
             && Faithful(disks[..], checks, c, blockSize, data)
    requires Position(offset, length, blockSize, startBlock, endBlock, last, startBlock, 0)
    modifies writer, disks
    ensures RangeRead(old(disks[..]), checks, c, blockSize, data, offset, length, startBlock, last, writer.accepts,
                      old(writer.data), writer.data, n, err)
  {
    var verified := new bool[disks.Length](_ => false);
    n := 0;
    var curBlockSize := blockSize;
    var curChunkSize := GetChunkSize(blockSize, c.dataBlocks);
    ghost var begin, ds := writer.data, disks[..];
    assert data[offset..offset] == [];
    var block := startBlock;
    while block <= endBlock
      invariant curBlockSize == blockSize && curChunkSize == ChunkSize(blockSize, c.dataBlocks)
      invariant Standing(ds, disks[..], verified[..], checks, c, blockSize, data, offset, length, startBlock,
                         endBlock, last,
                         begin, writer.data, block, n)
      decreases endBlock - block
    {
      var done;
      done, n, err, curBlockSize, curChunkSize :=
        ReadOn(writer, disks, verified, checks, c, offset, length, total, blockSize, data, begin, ds,
               startBlock, endBlock, last, block, n, curBlockSize, curChunkSize);
      if err.Some? { return; }
      if done { break; }
      block := block + 1;
    }
    return n, None;
  }

  /** All blocks that the range touches can be read. */
  ghost predicate RangeReadable(ds: seq<Option<Disk>>, checks: Checks, c: Code, blockSize: nat, total: nat,
                                offset: nat, length: nat)
    requires |ds| <= |checks.sums| && blockSize > 0 && length > 0
  {
    Readable(ds, checks, c, blockSize, total, offset / blockSize, (offset + length - 1) / blockSize)
  }

  /**
    Reads `[offset, offset + length)` of the file `data` of `totalLength` bytes. Whatever happens, the sink gets
    a prefix of the bytes asked for, and all of them if there is no error; and there is none exactly when every
    block of the range can be read from the disks left by then.
   */
  method ErasureReadFile(writer: Sink, disks: array<Option<Disk>>, offset: int, length: int, totalLength: int,
                         blockSize: nat, c: Code, sums: seq<string>, algo: string,
                         digest: (HashAlgo, Bytes) -> string, ghost data: Bytes)
    returns (n: nat, err: Option<Error>)
    requires blockSize > 0 && totalLength == |data|
    requires Faithful(disks[..], ChecksOf(sums, algo, digest), c, blockSize, data)
    modifies writer, disks
    ensures offset < 0 || length < 0 || offset + length > totalLength ==>
              n == 0 && err == Some(Unexpected) && writer.data == old(writer.data)
    ensures 0 <= offset && 0 <= length && offset + length <= totalLength ==>
              && old(writer.data) <= writer.data <= old(writer.data) + data[offset..offset + length]
              && (err.None? ==> n == length && writer.data == old(writer.data) + data[offset..offset + length])
    ensures 0 <= offset && 0 < length && offset + length <= totalLength && (forall m: nat :: writer.accepts(m)) ==>
              && (err.None? <==> RangeReadable(old(disks[..]), ChecksOf(sums, algo, digest), c, blockSize,
                                               totalLength, offset, length))
              && (err.Some? ==> err == Some(ReadQuorum))
  {
    if offset < 0 || length < 0 { return 0, Some(Unexpected); }
    if offset + length > totalLength { return 0, Some(Unexpected); }
    ghost var first, last;
    n, err, first, last := ReadRange(writer, disks, ChecksOf(sums, algo, digest), c, offset, length, totalLength,
                                     blockSize, data);
    InBlock(offset, blockSize, first);
    if length > 0 { InBlock(offset + length - 1, blockSize, last); }
  }

  /** The checksums as recorded, with the hash their algorithm names. */
  function ChecksOf(sums: seq<string>, algo: string, digest: (HashAlgo, Bytes) -> string): Checks {
    Checks(sums, (b: Bytes) => digest(NewHash(algo), b))
  }
}
