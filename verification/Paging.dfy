/**
  Listing uploads and parts page by page, from a marker on (cmd/fs-v1-multipart.go,
  cmd/object-api-multipart-common.go).
 */
module Paging {
  import opened Seqs
  import opened PartList

  /** Where a page that starts at `from` ends; a count that is not positive ends nowhere. */
  function Stop(n: nat, from: nat, count: int): (to: nat)
    requires from <= n
    ensures from <= to <= n
  {
    if 0 < count < n - from then from + count else n
  }

  // ------------------------------------------------------------ uploads

  /** Behind the marker; at the start without one; at the end if it is not in the list. */
  function AfterId(ids: seq<string>, marker: string): (k: nat)
    ensures k <= |ids|
  {
    if marker == "" then 0 else var k := IndexFrom(ids, marker, 0); if k < |ids| then k + 1 else k
  }

  method ListMultipartUploadIDs(ids: seq<string>, uploadIDMarker: string, maxCount: int)
    returns (uploads: seq<string>, end: bool)
    ensures var from := AfterId(ids, uploadIDMarker); var to := Stop(|ids|, from, maxCount);
            uploads == ids[from..to] && end == (to == |ids|)
    ensures (0 < maxCount ==> |uploads| <= maxCount) && (!end ==> |uploads| == maxCount)
    ensures uploadIDMarker != "" && uploadIDMarker !in ids ==> uploads == [] && end
  {
    var index, count := 0, maxCount;
    if uploadIDMarker != "" {
      while index < |ids|
        invariant index <= |ids| && IndexFrom(ids, uploadIDMarker, 0) >= index
      {
        if ids[index] == uploadIDMarker {
          index := index + 1;
          break;
        }
        index := index + 1;
      }
    }
    ghost var from := AfterId(ids, uploadIDMarker);
    assert index == from;
    uploads := [];
    while index < |ids|
      invariant from <= index <= |ids| && uploads == ids[from..index] && count == maxCount - (index - from)
      invariant maxCount > 0 ==> count > 0
    {
      uploads := uploads + [ids[index]];
      count := count - 1;
      index := index + 1;
      if count == 0 { break; }
    }
    end := index == |ids|;
  }

  /** What a client lists in up to `pages` more pages, each one from the last id of the page before. */
  function WalkUploads(ids: seq<string>, marker: string, count: nat, pages: nat): seq<string>
    requires count > 0
    decreases pages
  {
    var from := AfterId(ids, marker);
    var to := Stop(|ids|, from, count);
    if to == |ids| || pages == 0 then ids[from..to] else ids[from..to] + WalkUploads(ids, ids[to - 1], count, pages - 1)
  }

  predicate UniqueIds(ids: seq<string>) {
    (forall i | 0 <= i < |ids| :: ids[i] != "") && forall i, k | 0 <= i < k < |ids| :: ids[i] != ids[k]
  }

  lemma {:induction false} FindsUnique(ids: seq<string>, k: nat, from: nat)
    requires UniqueIds(ids) && from <= k < |ids|
    ensures IndexFrom(ids, ids[k], from) == k
    decreases |ids| - from
  {
    if from < k { FindsUnique(ids, k, from + 1); }
  }

  /** Following the markers lists every remaining id once, in order, in no more pages than there are ids left. */
  lemma {:induction false} UploadsComplete(ids: seq<string>, marker: string, count: nat, pages: nat)
    requires UniqueIds(ids) && count > 0 && pages >= |ids| - AfterId(ids, marker)
    ensures WalkUploads(ids, marker, count, pages) == ids[AfterId(ids, marker)..]
    decreases pages
  {
    var from := AfterId(ids, marker);
    var to := Stop(|ids|, from, count);
    if to < |ids| {
      FindsUnique(ids, to - 1, 0);
      assert AfterId(ids, ids[to - 1]) == to;
      UploadsComplete(ids, ids[to - 1], count, pages - 1);
      Cut(ids, from, to);
    } else {
      assert ids[from..to] == ids[from..];
    }
  }

  lemma Cut<T>(s: seq<T>, from: nat, to: nat)
    requires from <= to <= |s|
    ensures s[from..] == s[from..to] + s[to..]
  {
  }

  lemma AllUploadsListed(ids: seq<string>, count: nat)
    requires UniqueIds(ids) && count > 0
    ensures WalkUploads(ids, "", count, |ids|) == ids
  {
    UploadsComplete(ids, "", count, |ids|);
  }

  // ------------------------------------------------------------ parts

  /** Behind the marker's part; at the start if there is no such part. */
  function AfterPart(parts: seq<Part>, marker: int): (k: nat)
    ensures k <= |parts|
  {
    if Listed(parts, marker) then Find(parts, marker, 0) + 1 else 0
  }

  method ListObjectParts(meta: FsMeta, partNumberMarker: int, maxParts: int)
    returns (page: seq<Part>, truncated: bool, nextPartNumberMarker: int)
    ensures var parts := meta.parts; var from := AfterPart(parts, partNumberMarker); var to := Stop(|parts|, from,
            maxParts);
            && page == parts[from..to] && truncated == (to < |parts|)
            && (truncated ==> nextPartNumberMarker == parts[to - 1].number)
    ensures (0 < maxParts ==> |page| <= maxParts) && (truncated ==> |page| == maxParts)
  {
    var partIdx := meta.ObjectPartIndex(partNumberMarker);
    var parts := meta.parts;
    if partIdx != -1 { parts := parts[partIdx + 1..]; }
    page := FirstParts(parts, maxParts);
    truncated, nextPartNumberMarker := |parts| > |page|, 0;
    if truncated { nextPartNumberMarker := page[|page| - 1].number; }
    SliceFrom(meta.parts, AfterPart(meta.parts, partNumberMarker), Stop(|parts|, 0, maxParts));
  }

  lemma SliceFrom<T>(s: seq<T>, from: nat, k: nat)
    requires from <= |s| && k <= |s| - from
    ensures s[from..][..k] == s[from..from + k] && s[0..] == s
  {
  }

  /** The loop over the parts behind the marker. */
  method FirstParts(parts: seq<Part>, maxParts: int) returns (page: seq<Part>)
    ensures page == parts[..Stop(|parts|, 0, maxParts)]
  {
    var count := maxParts;
    page := [];
    for i := 0 to |parts|
      invariant page == parts[..i] && count == maxParts - i && (maxParts > 0 ==> count > 0)
    {
      page := page + [parts[i]];
      count := count - 1;
      if count == 0 { break; }
    }
  }

  function WalkParts(parts: seq<Part>, marker: int, count: nat, pages: nat): seq<Part>
    requires count > 0
    decreases pages
  {
    var from := AfterPart(parts, marker);
    var to := Stop(|parts|, from, count);
    if to == |parts| || pages == 0 then parts[from..to]
    else parts[from..to] + WalkParts(parts, parts[to - 1].number, count, pages - 1)
  }

  lemma {:induction false} PartsComplete(parts: seq<Part>, marker: int, count: nat, pages: nat)
    requires InOrder(parts) && count > 0 && pages >= |parts| - AfterPart(parts, marker)
    ensures WalkParts(parts, marker, count, pages) == parts[AfterPart(parts, marker)..]
    decreases pages
  {
    var from := AfterPart(parts, marker);
    var to := Stop(|parts|, from, count);
    if to < |parts| {
      FoundAt(parts, to - 1, 0);
      assert AfterPart(parts, parts[to - 1].number) == to;
      PartsComplete(parts, parts[to - 1].number, count, pages - 1);
      Cut(parts, from, to);
    }
  }

  /** From marker zero on, with part numbers from one, every part is listed once and in order. */
  lemma AllPartsListed(parts: seq<Part>, count: nat)
    requires InOrder(parts) && (forall i | 0 <= i < |parts| :: parts[i].number >= 1) && count > 0
    ensures WalkParts(parts, 0, count, |parts|) == parts
  {
    PartsComplete(parts, 0, count, |parts|);
  }
}
