/** Encoding one block and decoding one block from the shards at hand. */
module ErasureDecode {
  import opened Wrappers
  import opened ErasureCode

  /** The parity check that follows a reconstruction. */
  predicate Verify(c: Code, y: seq<Bytes>) {
    && |y| == c.Width() && c.Width() > 0
    && Uniform(y, c.Width(), |y[0]|)
    && y[c.dataBlocks..] == c.parity(y[..c.dataBlocks])
  }

  /** The shards at hand reconstruct to shards that pass the parity check. */
  ghost predicate Decodes(c: Code, x: seq<Option<Bytes>>) {
    c.reconstruct(x).Some? && Verify(c, c.reconstruct(x).value)
  }

  /** decodeData: reconstructs the missing blocks in place, then verifies parity. */
  method DecodeData(enBlocks: array<Option<Bytes>>, c: Code) returns (ok: bool)
    requires enBlocks.Length == c.Width()
    modifies enBlocks
    ensures ok <==> Decodes(c, old(enBlocks[..]))
    ensures ok ==> forall i | 0 <= i < enBlocks.Length ::
              enBlocks[i] == Some(c.reconstruct(old(enBlocks[..])).value[i])
    ensures !ok ==> enBlocks[..] == old(enBlocks[..])
  {
    var y := c.reconstruct(enBlocks[..]);
    if y.None? { return false; }
    if !Verify(c, y.value) { return false; }
    forall i | 0 <= i < enBlocks.Length {
      enBlocks[i] := Some(y.value[i]);
    }
    return true;
  }

  /** Two encodings that agree with the same `dataBlocks` shards are one. */
  lemma OneEncoding(c: Code, x: seq<Option<Bytes>>, y: seq<Bytes>, z: seq<Bytes>)
    requires |Present(x)| >= c.dataBlocks && Verify(c, y) && Verify(c, z) && ShardsOf(x, y) && ShardsOf(x, z)
    ensures y == z
  {
    var g :| g in Present(x);
    var d, e := y[..c.dataBlocks], z[..c.dataBlocks];
    assert |y[g]| == |z[g]|;
    assert Uniform(d, c.dataBlocks, |y[g]|) && Uniform(e, c.dataBlocks, |y[g]|);
    assert y == Encode(c, d) && z == Encode(c, e);
    assert AgreeOn(Encode(c, d), Encode(c, e), Present(x));
  }

  lemma DecodedFits(c: Code, x: seq<Option<Bytes>>)
    requires |x| == c.Width() && Decodes(c, x)
    ensures |Present(x)| >= c.dataBlocks && |c.reconstruct(x).value| == |x| && ShardsOf(x, c.reconstruct(x).value)
  {
  }

  lemma DecodedLength(c: Code, x: seq<Option<Bytes>>, i: nat, j: nat)
    requires |x| == c.Width() && Decodes(c, x) && i < |x| && j < |x| && x[j].Some?
    ensures |c.reconstruct(x).value[i]| == |x[j].value|
  {
  }

  /** Decoding takes `dataBlocks` shards, and gives the one encoding that all the shards at hand belong to. */
  lemma DecodedIsOnly(c: Code, x: seq<Option<Bytes>>)
    requires |x| == c.Width() && Decodes(c, x)
    ensures |Present(x)| >= c.dataBlocks && ShardsOf(x, c.reconstruct(x).value)
    ensures forall y | Verify(c, y) && ShardsOf(x, y) :: y == c.reconstruct(x).value
  {
    forall y | Verify(c, y) && ShardsOf(x, y) ensures y == c.reconstruct(x).value {
      OneEncoding(c, x, y, c.reconstruct(x).value);
    }
  }

  /**
    A decoding that passes the parity check is the true one as soon as `dataBlocks`
    of the shards that went in are true, whatever the others were.
   */
  lemma DecodeSound(c: Code, x: seq<Option<Bytes>>, block: Bytes, good: set<nat>)
    requires |x| == c.Width()
    requires |good| >= c.dataBlocks
    requires forall i | i in good :: i < |x| && x[i] == Some(EncodeBlock(c, block)[i])
    requires Decodes(c, x)
    ensures c.reconstruct(x).value == EncodeBlock(c, block)
  {
    var y, t := c.reconstruct(x).value, EncodeBlock(c, block);
    var len := ChunkSize(|block|, c.dataBlocks);
    var d, e := y[..c.dataBlocks], Cut(block, len, c.dataBlocks);
    assert ShardsOf(x, y);
    assert AgreeOn(y, t, good);
    var g :| g in good;
    assert |y[g]| == len;
    assert Uniform(d, c.dataBlocks, len) && Uniform(e, c.dataBlocks, len);
    assert y == d + y[c.dataBlocks..];
    assert AgreeOn(Encode(c, d), Encode(c, e), good);
  }

  /** Enough true shards of a non-empty block, and no false ones, always decode. */
  lemma DecodeComplete(c: Code, x: seq<Option<Bytes>>, block: Bytes)
    requires block != [] && ShardsOf(x, EncodeBlock(c, block)) && |Present(x)| >= c.dataBlocks
    ensures c.reconstruct(x) == Some(EncodeBlock(c, block)) && Verify(c, EncodeBlock(c, block))
  {
    var len := ChunkSize(|block|, c.dataBlocks);
    var e := Cut(block, len, c.dataBlocks);
    ChunkSizeIsLeast(|block|, c.dataBlocks);
    assert Uniform(e, c.dataBlocks, len);
    assert Encode(c, e) == EncodeBlock(c, block);
    assert EncodeBlock(c, block)[..c.dataBlocks] == e;
    assert EncodeBlock(c, block)[c.dataBlocks..] == c.parity(e);
  }
}
