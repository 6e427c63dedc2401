/**
  Disks, streams and sinks as the erasure layer sees them. Every way an I/O call
  may fail is a constant function of the object, so any pattern of failures is
  covered and a call's outcome is a function of the state.
 */
module Storage {
  import opened Wrappers
  import opened ErasureCode

  datatype Error =
    | Unexpected | ReadQuorum | WriteQuorum
    | TooFewShards | ShortData | DecodeFailed
    | StreamFailed | SinkFailed | AppendFailed | EmptyBuffer | DiskFault

  datatype HashAlgo = Sha256 | Blake2b

  const SHA256_ALGO := "sha256"

  /** The hash an algorithm name selects; unknown names mean blake2b. */
  function NewHash(algo: string): HashAlgo {
    if algo == SHA256_ALGO then Sha256 else Blake2b
  }

  /** Buffer size of a checksumming pass. */
  const READ_SIZE: nat := 1048576

  /** How one ReadFile call ends, with io.ReadFull's meaning. */
  datatype ReadEnd = Full | Eof | UnexpectedEof | Fault

  /**
    One disk, as far as one file is concerned. `readable` says which reads
    (offset, length) succeed, `accepts` which append calls, counted from 0, do.
   */
  datatype Disk = Disk(file: Bytes, readable: (nat, nat) -> bool, accepts: nat -> bool, appends: nat)
  {
    /** The `n` bytes at `offset`, if they can be had. */
    function ReadAt(offset: nat, n: nat): Option<Bytes> {
      if !readable(offset, n) then None
      else if n == 0 then Some([])
      else if offset + n <= |file| then Some(file[offset..offset + n])
      else None
    }

    /** Reads exactly `n` bytes, or says why it got fewer. */
    function ReadFile(offset: nat, n: nat): (r: (Bytes, ReadEnd))
      ensures r.1 == Full <==> ReadAt(offset, n).Some?
      ensures r.1 == Full ==> ReadAt(offset, n) == Some(r.0)
    {
      if !readable(offset, n) then ([], Fault)
      else if n == 0 then ([], Full)
      else if offset >= |file| then ([], Eof)
      else if offset + n <= |file| then (file[offset..offset + n], Full)
      else (file[offset..], UnexpectedEof)
    }

    /** Does the append call after `j` more succeed? */
    predicate Takes(j: nat) {
      accepts(appends + j)
    }

    predicate Accepting() {
      Takes(0)
    }

    /** The disk after an append call: a failed call leaves the file as it was. */
    function AppendFile(buf: Bytes): Disk {
      this.(file := if Accepting() then file + buf else file, appends := appends + 1)
    }
  }

  /** Can the whole file be read in READ_SIZE pieces? */
  ghost predicate Scannable(d: Disk) {
    forall j: nat | Times(j, READ_SIZE) <= |d.file| :: d.readable(Times(j, READ_SIZE), READ_SIZE)
  }

  /** copyBuffer into a hash: collects the file from the start until EOF. */
  method CopyBuffer(disk: Disk, size: nat) returns (r: Result<Bytes, Error>)
    ensures size == 0 ==> r == Err(EmptyBuffer)
    ensures r.Ok? ==> r.value == disk.file
    ensures size == READ_SIZE ==> (r.Ok? <==> Scannable(disk))
  {
    if size == 0 { return Err(EmptyBuffer); }
    var sink: Bytes, start := [], 0;
    ghost var j := 0;
    while true
      invariant start == Times(j, size) <= |disk.file|
      invariant sink == disk.file[..start]
      invariant forall i: nat | i < j :: disk.readable(Times(i, size), size)
      decreases |disk.file| - start
    {
      var (got, end) := disk.ReadFile(start, size);
      sink := sink + got;
      if end == Fault { return Err(DiskFault); }
      if end == Eof || end == UnexpectedEof {
        forall i: nat | Times(i, size) <= |disk.file| ensures disk.readable(Times(i, size), size) {
          if i > j { TimesMonotone(j + 1, i, size); }
        }
        return Ok(sink);
      }
      start := start + size;
      j := j + 1;
    }
  }

  /** Does the disk's file carry its recorded checksum? (Only then is it read from.) */
  ghost predicate Intact(d: Option<Disk>, sum: string, digest: Bytes -> string) {
    d.Some? && sum != "" && Scannable(d.value) && digest(d.value.file) == sum
  }

  method IsValidBlock(d: Option<Disk>, sum: string, digest: Bytes -> string) returns (ok: bool)
    ensures ok <==> Intact(d, sum, digest)
  {
    if d.None? { return false; }
    if sum == "" { return false; }
    var h := CopyBuffer(d.value, READ_SIZE);
    if h.Err? { return false; }
    ok := digest(h.value) == sum;
  }

  /** The destination of a read. */
  class Sink {
    var data: Bytes
    const accepts: nat -> bool  // does a write succeed when n bytes were taken?

    method Write(buf: Bytes) returns (ok: bool)
      modifies this
      ensures ok == accepts(|old(data)|)
      ensures data == if ok then old(data) + buf else old(data)
    {
      ok := accepts(|data|);
      if ok { data := data + buf; }
    }
  }

  /** How the source of a write ends once its bytes are used up. */
  datatype StreamEnd = CleanEof | CutShort | Broken

  class Stream {
    var rest: Bytes
    const end: StreamEnd

    /** io.ReadFull: `n` bytes, or fewer and the reason. */
    method ReadFull(n: nat) returns (got: Bytes, how: ReadEnd)
      requires n > 0
      modifies this
      ensures got == old(rest)[..Min(n, |old(rest)|)] && rest == old(rest)[Min(n, |old(rest)|)..]
      ensures |old(rest)| >= n ==> how == Full
      ensures |old(rest)| < n ==> how == (match end
                                          case CleanEof => if old(rest) == [] then Eof else UnexpectedEof
                                          case CutShort => UnexpectedEof
                                          case Broken => Fault)
    {
      var m := Min(n, |rest|);
      got, rest := rest[..m], rest[m..];
      if m == n {
        how := Full;
      } else {
        match end
        case CleanEof => how := if got == [] then Eof else UnexpectedEof;
        case CutShort => how := UnexpectedEof;
        case Broken => how := Fault;
      }
    }
  }
}
