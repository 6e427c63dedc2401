/**
  The parts of a multipart upload, kept in order of their numbers (cmd/fs-v1-metadata.go),
  and the loop that assembles them when the upload is completed (cmd/fs-v1-multipart.go).
 */
module PartList {
  import opened Wrappers
  import opened Seqs

  /** The file of a part is named after its number, so the number stands for it here. */
  datatype Part = Part(number: int, etag: string, size: int)

  type Files = map<int, Bytes>

  datatype CompletePart = CompletePart(number: int, etag: string)

  const MIN_PART_SIZE := 5 * 1024 * 1024

  datatype PartError = InvalidPart | BadDigest | PartTooSmall | PartsMissing | AppendFailed

  // ------------------------------------------------------------ the list

  /** Where a number first is; the length if it is not there. */
  function Find(parts: seq<Part>, number: int, from: nat): (k: nat)
    requires from <= |parts|
    ensures from <= k <= |parts| && (k < |parts| ==> parts[k].number == number)
    ensures forall i | from <= i < k :: parts[i].number != number
    decreases |parts| - from
  {
    if from == |parts| || parts[from].number == number then from else Find(parts, number, from + 1)
  }

  predicate Listed(parts: seq<Part>, number: int) {
    Find(parts, number, 0) < |parts|
  }

  predicate Sorted(parts: seq<Part>) {
    forall i, k | 0 <= i < k < |parts| :: parts[i].number <= parts[k].number
  }

  /** In order, each number once. */
  predicate InOrder(parts: seq<Part>) {
    forall i, k | 0 <= i < k < |parts| :: parts[i].number < parts[k].number
  }

  lemma {:induction false} FoundAt(parts: seq<Part>, i: nat, from: nat)
    requires InOrder(parts) && from <= i < |parts|
    ensures Find(parts, parts[i].number, from) == i
    decreases |parts| - from
  {
    if from < i { FoundAt(parts, i, from + 1); }
  }

  /** A list in order is determined by its parts. */
  lemma {:induction false} OrderIsUnique(a: seq<Part>, b: seq<Part>)
    requires InOrder(a) && InOrder(b)
    requires (forall i | 0 <= i < |a| :: a[i] in b) && (forall i | 0 <= i < |b| :: b[i] in a)
    ensures a == b
    decreases |a|
  {
    if a != [] {
      var x, y := a[|a| - 1], b[|b| - 1];
      DropLast(a);
      DropLast(b);
      OrderIsUnique(a[..|a| - 1], b[..|b| - 1]);
    } else if b != [] {
      assert false;
    }
  }

  lemma DropLast(a: seq<Part>)
    requires InOrder(a) && a != []
    ensures InOrder(a[..|a| - 1]) && forall x :: x in a[..|a| - 1] <==> x in a && x != a[|a| - 1]
  {
    assert a == a[..|a| - 1] + [a[|a| - 1]];
  }

  /** Inserts a part behind those with smaller numbers. */
  method InsertPart(parts: seq<Part>, p: Part) returns (r: seq<Part>)
    requires Sorted(parts)
    ensures Sorted(r) && multiset(r) == multiset(parts) + multiset{p}
  {
    var k := |parts|;
    while k > 0 && parts[k - 1].number > p.number
      invariant 0 <= k <= |parts| && forall i | k <= i < |parts| :: parts[i].number > p.number
    {
      k := k - 1;
    }
    Spliced(parts, p, k);
    return parts[..k] + [p] + parts[k..];
  }

  /** Sorts by number. */
  method SortParts(parts: seq<Part>) returns (r: seq<Part>)
    ensures Sorted(r) && multiset(r) == multiset(parts)
  {
    r := [];
    for k := 0 to |parts|
      invariant Sorted(r) && multiset(r) == multiset(parts[..k])
    {
      assert parts[..k + 1] == parts[..k] + [parts[k]];
      r := InsertPart(r, parts[k]);
    }
    assert parts[..|parts|] == parts;
  }

  /** The parts after one was added: it stands for its number now, the others are as before. */
  ghost predicate AddedTo(was: seq<Part>, p: Part, now: seq<Part>) {
    InOrder(now) && forall x :: x in now <==> x == p || (x in was && x.number != p.number)
  }

  lemma ReplacedIsAdded(was: seq<Part>, p: Part, i: nat)
    requires InOrder(was) && i < |was| && was[i].number == p.number
    ensures AddedTo(was, p, was[i := p])
  {
    var now := was[i := p];
    forall x ensures x in now <==> x == p || (x in was && x.number != p.number) {
      if x in was && x.number != p.number {
        var k :| 0 <= k < |was| && was[k] == x;
        assert now[k] == x;
      }
      if x in now && x != p {
        var k :| 0 <= k < |now| && now[k] == x;
        assert was[k] == x;
      }
      assert now[i] == p;
    }
  }

  lemma SortedIsAdded(was: seq<Part>, p: Part, now: seq<Part>)
    requires InOrder(was) && !Listed(was, p.number) && Sorted(now) && multiset(now) == multiset(was + [p])
    ensures AddedTo(was, p, now)
  {
    forall x ensures x in now <==> x in was + [p] { assert x in multiset(now) <==> x in multiset(was + [p]); }
    OnceEach(was + [p], now);
  }

  /** Sorting distinct numbers leaves none twice. */
  lemma OnceEach(a: seq<Part>, now: seq<Part>)
    requires Sorted(now) && multiset(now) == multiset(a) && forall i, k | 0 <= i < k < |a| :: a[i].number != a[k].number
    ensures InOrder(now)
  {
    forall i, k | 0 <= i < k < |now| ensures now[i].number < now[k].number {
      if now[i].number == now[k].number {
        assert now[i] in multiset(now) && now[k] in multiset(now);
        var m :| 0 <= m < |a| && a[m] == now[i];
        var n :| 0 <= n < |a| && a[n] == now[k];
        Twice(now, i, k);
        AtMostOnce(a, m, |a|);
        assert false;
      }
    }
  }

  lemma Twice(s: seq<Part>, i: nat, k: nat)
    requires i < k < |s| && s[i] == s[k]
    ensures multiset(s)[s[i]] >= 2
  {
    assert s == s[..k] + s[k..];
    assert s[i] in s[..k] && s[k] in s[k..];
  }

  lemma {:induction false} AtMostOnce(a: seq<Part>, m: nat, n: nat)
    requires m < |a| && n <= |a| && forall i, k | 0 <= i < k < |a| :: a[i].number != a[k].number
    ensures multiset(a[..n])[a[m]] <= 1 && (n <= m ==> multiset(a[..n])[a[m]] == 0) && a[..|a|] == a
  {
    if n > 0 {
      AtMostOnce(a, m, n - 1);
      assert a[..n] == a[..n - 1] + [a[n - 1]];
    }
  }

  class FsMeta {
    var parts: seq<Part>

    constructor ()
      ensures parts == []
    {
      parts := [];
    }

    method ObjectPartIndex(partNumber: int) returns (partIndex: int)
      ensures partIndex == if Listed(parts, partNumber) then Find(parts, partNumber, 0) as int else -1
    {
      for i := 0 to |parts|
        invariant Find(parts, partNumber, 0) >= i
      {
        if parts[i].number == partNumber { return i; }
      }
      return -1;
    }

    /** Replaces the part with that number, or adds it and sorts. */
    method AddObjectPart(p: Part)
      modifies this
      ensures InOrder(old(parts)) ==> AddedTo(old(parts), p, parts)
    {
      for i := 0 to |parts|
        invariant parts == old(parts) && Find(parts, p.number, 0) >= i
      {
        if parts[i].number == p.number {
          if InOrder(parts) { ReplacedIsAdded(parts, p, i); }
          parts := parts[i := p];
          return;
        }
      }
      parts := SortParts(parts + [p]);
      if InOrder(old(parts)) { SortedIsAdded(old(parts), p, parts); }
    }
  }

  // ------------------------------------------------------------ assembling

  /** The bytes of the first `k` parts, in order. */
  function Concat(files: Files, parts: seq<Part>, k: nat): Bytes
    requires k <= |parts| && forall i | 0 <= i < k :: parts[i].number in files
  {
    if k == 0 then [] else Concat(files, parts, k - 1) + files[parts[k - 1].number]
  }

  predicate Same(uploaded: seq<Part>, parts: seq<CompletePart>) {
    |uploaded| == |parts| && forall i | 0 <= i < |parts| :: uploaded[i].number == parts[i].number
                                                            && uploaded[i].etag == parts[i].etag
  }

  method IsPartsSame(uploaded: seq<Part>, parts: seq<CompletePart>) returns (same: bool)
    ensures same == Same(uploaded, parts)
  {
    if |uploaded| != |parts| { return false; }
    for i := 0 to |parts|
      invariant forall k | 0 <= k < i :: uploaded[k].number == parts[k].number && uploaded[k].etag == parts[k].etag
    {
      if uploaded[i].number != parts[i].number || uploaded[i].etag != parts[i].etag { return false; }
    }
    return true;
  }

  /** Why part `i` of the completion request is refused, if so. */
  function Refusal(files: Files, uploaded: seq<Part>, parts: seq<CompletePart>, i: nat): Option<PartError>
    requires i < |parts|
  {
    var n := parts[i].number;
    if !Listed(uploaded, n) then Some(InvalidPart)
    else
      var p := uploaded[Find(uploaded, n, 0)];
      if p.etag != parts[i].etag then Some(BadDigest)
      else if i < |parts| - 1 && p.size < MIN_PART_SIZE then Some(PartTooSmall)
      else if n !in files then Some(InvalidPart)
      else None
  }

  /** Position `k` is the first with that number: the part that stands for it. */
  predicate StandsFor(uploaded: seq<Part>, k: nat, number: int) {
    k < |uploaded| && uploaded[k].number == number && forall i | 0 <= i < k :: uploaded[i].number != number
  }

  /** The size allows the part to be where it is in the request. */
  predicate LargeEnough(p: Part, parts: seq<CompletePart>, i: nat) {
    i == |parts| - 1 || p.size >= MIN_PART_SIZE
  }

  /** The requested part was uploaded with the requested etag, is large enough unless it is the last, and is there. */
  ghost predicate Acceptable(files: Files, uploaded: seq<Part>, parts: seq<CompletePart>, i: nat)
    requires i < |parts|
  {
    exists k: nat | StandsFor(uploaded, k, parts[i].number) ::
      uploaded[k].etag == parts[i].etag && LargeEnough(uploaded[k], parts, i) && parts[i].number in files
  }

  /** What each refusal means. */
  ghost predicate Meaning(e: PartError, files: Files, uploaded: seq<Part>, parts: seq<CompletePart>, i: nat)
    requires i < |parts|
  {
    match e
    case InvalidPart =>
      || (forall k | 0 <= k < |uploaded| :: uploaded[k].number != parts[i].number)
      || (parts[i].number !in files && exists k: nat | StandsFor(uploaded, k, parts[i].number) ::
            uploaded[k].etag == parts[i].etag && LargeEnough(uploaded[k], parts, i))
    case BadDigest =>
      exists k: nat | StandsFor(uploaded, k, parts[i].number) :: uploaded[k].etag != parts[i].etag
    case PartTooSmall =>
      exists k: nat | StandsFor(uploaded, k, parts[i].number) ::
        uploaded[k].etag == parts[i].etag && !LargeEnough(uploaded[k], parts, i)
    case _ => false
  }

  /** Part `i` is the first that is not acceptable, for the reason given. */
  ghost predicate FirstFault(e: PartError, files: Files, uploaded: seq<Part>, parts: seq<CompletePart>, i: nat)
    requires i < |parts|
  {
    Meaning(e, files, uploaded, parts, i) && !Acceptable(files, uploaded, parts, i)
    && forall k | 0 <= k < i :: Acceptable(files, uploaded, parts, k)
  }

  /** A part is refused exactly if it is not acceptable, and with the error that says why. */
  lemma RefusalExactly(files: Files, uploaded: seq<Part>, parts: seq<CompletePart>, i: nat)
    requires i < |parts|
    ensures Refusal(files, uploaded, parts, i).None? <==> Acceptable(files, uploaded, parts, i)
    ensures forall e :: Refusal(files, uploaded, parts, i) == Some(e) <==> Meaning(e, files, uploaded, parts, i)
  {
    var k := Find(uploaded, parts[i].number, 0);
    assert Listed(uploaded, parts[i].number) <==> StandsFor(uploaded, k, parts[i].number);
    assert forall j: nat :: StandsFor(uploaded, j, parts[i].number) ==> j == k;
  }

  /** The bytes the first `k` requested parts come to. */
  function Requested(files: Files, parts: seq<CompletePart>, k: nat): Bytes
    requires k <= |parts| && forall i | 0 <= i < k :: parts[i].number in files
  {
    if k == 0 then [] else Requested(files, parts, k - 1) + files[parts[k - 1].number]
  }

  /** The fallback: checks each requested part and appends its file. */
  method Assemble(files: Files, meta: FsMeta, parts: seq<CompletePart>) returns (r: Result<Bytes, PartError>)
    ensures r.Ok? <==> forall i | 0 <= i < |parts| :: Acceptable(files, meta.parts, parts, i)
    ensures r.Ok? ==> (forall i | 0 <= i < |parts| :: parts[i].number in files)
                      && r.value == Requested(files, parts, |parts|)
    ensures r.Err? ==> exists i: nat | i < |parts| :: FirstFault(r.error, files, meta.parts, parts, i)
  {
    var tmp: Bytes := [];
    for i := 0 to |parts|
      invariant forall k | 0 <= k < i :: Acceptable(files, meta.parts, parts, k) && parts[k].number in files
      invariant tmp == Requested(files, parts, i)
    {
      var refused := CheckPart(files, meta, parts, i);
      if refused.Some? {
        assert FirstFault(refused.value, files, meta.parts, parts, i);
        return Err(refused.value);
      }
      tmp := tmp + files[parts[i].number];
    }
    return Ok(tmp);
  }

  method CheckPart(files: Files, meta: FsMeta, parts: seq<CompletePart>, i: nat) returns (refused: Option<PartError>)
    requires i < |parts|
    ensures refused == Refusal(files, meta.parts, parts, i)
    ensures if refused.None? then Acceptable(files, meta.parts, parts, i) && parts[i].number in files
            else Meaning(refused.value, files, meta.parts, parts, i) && !Acceptable(files, meta.parts, parts, i)
  {
    RefusalExactly(files, meta.parts, parts, i);
    var partIdx := meta.ObjectPartIndex(parts[i].number);
    if partIdx == -1 { return Some(InvalidPart); }
    if meta.parts[partIdx].etag != parts[i].etag { return Some(BadDigest); }
    if i < |parts| - 1 && meta.parts[partIdx].size < MIN_PART_SIZE { return Some(PartTooSmall); }
    if parts[i].number !in files { return Some(InvalidPart); }
    return None;
  }
}
