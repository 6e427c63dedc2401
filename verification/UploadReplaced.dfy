/**
  Parts that are replaced while inputs are on their way: exactly when that can make a completion
  deliver other bytes than those uploaded last.
 */
module UploadReplaced {
  import opened Wrappers
  import opened Sets
  import opened PartList
  import opened BackgroundAppend
  import opened UploadRuns

  /** A completion takes the append file for the object, and it is not its base and then all parts. */
  ghost predicate Wrong(v: Upload, meta: seq<Part>, parts: seq<CompletePart>, faults: set<int>) {
    && Enabled(v, Finish(meta, parts, faults, false)) && Appended(v, meta, parts, faults) && InFiles(v.files, meta)
    && Do(v, Finish(meta, parts, faults, false)).result != Some(v.base + All(v.files, meta))
  }

  /** Some steady continuation ends in such a completion. */
  ghost predicate CanGoWrong(u: Upload) {
    exists v, meta, parts, faults :: Leads(true, u, v) && Wrong(v, meta, parts, faults)
  }

  /** Part numbers count from one. */
  ghost predicate Positive(u: Upload) {
    forall n | n in u.info :: n >= 1
  }

  // ------------------------------------------------------------ steady uploads are safe

  lemma ExactIsNotWrong(v: Upload, meta: seq<Part>, parts: seq<CompletePart>, faults: set<int>)
    requires Inv(v)
    ensures !Wrong(v, meta, parts, faults)
  {
    if Lists(v.info, meta) && Appended(v, meta, parts, faults) { ExactHere(v, meta, parts, faults); }
  }

  lemma SteadyIsExact(u: Upload, v: Upload, meta: seq<Part>, parts: seq<CompletePart>, faults: set<int>)
    requires Inv(u) && Leads(true, u, v)
    ensures !Wrong(v, meta, parts, faults)
  {
    var steps :| Run(true, u, steps) && After(u, steps) == v;
    AlwaysInOrder(u, steps);
    ExactIsNotWrong(v, meta, parts, faults);
  }

  lemma SteadyIsRight(u: Upload)
    requires Inv(u)
    ensures !CanGoWrong(u)
  {
    forall v, meta, parts, faults | Leads(true, u, v) ensures !Wrong(v, meta, parts, faults) {
      SteadyIsExact(u, v, meta, parts, faults);
    }
  }

  lemma {:induction false} InfoGrows(u: Upload, steps: seq<Step>)
    ensures u.info.Keys <= After(u, steps).info.Keys
  {
    if steps != [] { InfoGrows(u, steps[..|steps| - 1]); }
  }

  /** "All appended" is never said of an upload with other numbers. */
  lemma AppendedIsPositive(v: Upload, meta: seq<Part>, parts: seq<CompletePart>, faults: set<int>)
    requires Shape(v) && Lists(v.info, meta) && Appended(v, meta, parts, faults)
    ensures Positive(v)
  {
    WorkGrows(meta, v.files, faults, v.appender);
    forall n | n in v.info ensures n >= 1 { ListingHas(v.info, meta, n); }
  }

  lemma WrongIsPositive(u: Upload, v: Upload, meta: seq<Part>, parts: seq<CompletePart>, faults: set<int>)
    requires Shape(u) && Leads(true, u, v) && Wrong(v, meta, parts, faults)
    ensures Positive(u)
  {
    var steps :| Run(true, u, steps) && After(u, steps) == v;
    RunShape(true, u, steps);
    InfoGrows(u, steps);
    AppendedIsPositive(v, meta, parts, faults);
  }

  lemma OnlyPositiveGoWrong(u: Upload)
    requires Shape(u)
    ensures CanGoWrong(u) ==> Positive(u)
  {
    if CanGoWrong(u) {
      var v, meta, parts, faults :| Leads(true, u, v) && Wrong(v, meta, parts, faults);
      WrongIsPositive(u, v, meta, parts, faults);
    }
  }

  // ------------------------------------------------------------ lists of parts

  lemma {:induction false} SomeListing(info: map<int, Part>) returns (meta: seq<Part>)
    requires forall n | n in info :: info[n].number == n
    ensures Lists(info, meta)
    decreases |info.Keys|
  {
    if info.Keys == {} { return []; }
    var m := Largest(info.Keys);
    var rest := info - {m};
    assert rest.Keys == info.Keys - {m};
    OneLess(info.Keys, m);
    var some := SomeListing(rest);
    meta := some + [info[m]];
    ListedLast(info, rest, some, m);
  }

  lemma ListedLast(info: map<int, Part>, rest: map<int, Part>, some: seq<Part>, m: int)
    requires (forall n | n in info :: info[n].number == n && n <= m) && m in info && rest == info - {m}
             && Lists(rest, some)
    ensures Lists(info, some + [info[m]])
  {
    var meta := some + [info[m]];
    assert meta[|some|] == info[m];
    forall n | n in info ensures info[n] in meta {
      if n != m {
        assert n in rest && rest[n] in some;
        var i :| 0 <= i < |some| && some[i] == info[n];
        assert meta[i] == info[n];
      }
    }
  }

  // ------------------------------------------------------------ an input that was overtaken

  /** What the input gets to is current, except perhaps part `n`. */
  ghost predicate CurrentBut(v: Upload, meta: seq<Part>, n: int) {
    forall m | Reaches(meta, 0, m) && m in v.files && m != n ::
      PartAt(meta, m) in v.seen && v.files[m] == v.seen[PartAt(meta, m)]
  }

  ghost predicate AllCurrentBut(v: Upload, n: int) {
    forall msg | msg in v.pending :: CurrentBut(v, msg.meta, n)
  }

  ghost predicate Going(v: Upload) {
    v.running && v.result.None? && Shape(v) && Positive(v)
  }

  /** Part `n` is still to be appended, and an input that gets to it lists other bytes than are in its file. */
  ghost predicate Overtaken(v: Upload, n: int, msg: Msg) {
    && Going(v) && AllCurrentBut(v, n) && Holds(v.seen, v.base, v.appender) && |v.appender.parts| < n
    && msg in v.pending && Reaches(msg.meta, 0, n) && n in v.files
    && PartAt(msg.meta, n) in v.seen && v.seen[PartAt(msg.meta, n)] != v.files[n]
  }

  /** Part `n` was appended as `q`, but from other bytes `y`. */
  ghost predicate Poisoned(v: Upload, n: int, q: Part, y: Bytes) {
    && Going(v) && AllCurrentBut(v, n)
    && 1 <= n <= |v.appender.parts| && v.appender.parts[n - 1] == q && q in v.seen && v.seen[q] != y
    && Holds(v.seen[q := y], v.base, v.appender)
  }

  lemma {:induction false} JoinedElsewhere(seen: Seen, q: Part, y: Bytes, parts: seq<Part>)
    requires AllSeen(seen, parts) && q in seen && q !in parts
    ensures AllSeen(seen[q := y], parts) && Joined(seen[q := y], parts) == Joined(seen, parts)
  {
    if parts != [] {
      assert forall x | x in parts[..|parts| - 1] :: x in parts;
      JoinedElsewhere(seen, q, y, parts[..|parts| - 1]);
    }
  }

  /** What such an input gets to from here is current if `q` is taken for `y`. */
  lemma CurrentAsPoisoned(v: Upload, n: int, q: Part, y: Bytes, msg: Msg)
    requires Shape(v) && AllCurrentBut(v, n) && msg in v.pending && q.number == n && q in v.seen
    requires |v.appender.parts| < n && Reaches(msg.meta, 0, n) ==>
                 PartAt(msg.meta, n) == q && (n in v.files ==> v.files[n] == y)
    ensures Current(v.files, v.seen[q := y], msg.meta, |v.appender.parts|)
  {
    var k := |v.appender.parts|;
    forall m | Reaches(msg.meta, k, m) && m in v.files
      ensures PartAt(msg.meta, m) in v.seen[q := y] && v.files[m] == v.seen[q := y][PartAt(msg.meta, m)]
    {
      assert Blocked(msg.meta, k) && Listed(msg.meta, k + 1);
      assert Reaches(msg.meta, 0, m);
    }
  }

  /** All parts an input lists have files. */
  lemma ListedHaveFiles(v: Upload, msg: Msg)
    requires Shape(v) && msg in v.pending
    ensures forall p | p in msg.meta :: p.number in v.files
  {
    forall p | p in msg.meta ensures p.number in v.files {
      var i :| 0 <= i < |msg.meta| && msg.meta[i] == p;
      assert msg.meta[i] in v.seen;
    }
  }

  lemma GrownGetsTo(meta: seq<Part>, a: Appender, b: Appender, n: int)
    requires Grown(meta, a, b) && Reaches(meta, |a.parts|, n)
    ensures n <= |b.parts| && b.parts[n - 1] == PartAt(meta, n)
  {
  }

  /** Taking the input appends the new bytes under the old etag. */
  lemma TakePoisons(u: Upload, v: Upload, n: int, msg: Msg) returns (v': Upload)
    requires Leads(true, u, v) && Overtaken(v, n, msg)
    ensures Leads(true, u, v') && Poisoned(v', n, PartAt(msg.meta, n), v.files[n])
  {
    var q, y := PartAt(msg.meta, n), v.files[n];
    v' := Do(v, Take(msg, {}));
    LeadsOn(true, u, v, Take(msg, {}));
    TakeShape(v, msg, {});
    CurrentAsPoisoned(v, n, q, y, msg);
    JoinedElsewhere(v.seen, q, y, v.appender.parts);
    WorkHolds(msg.meta, v.files, v.seen[q := y], {}, v.base, v.appender);
    ListedHaveFiles(v, msg);
    WorkGrows(msg.meta, v.files, {}, v.appender);
    GrownGetsTo(msg.meta, v.appender, v'.appender, n);
  }

  // ------------------------------------------------------------ from there to a completion

  /** Taking another input keeps what was appended. */
  lemma TakeKeepsPoison(u: Upload, v: Upload, n: int, q: Part, y: Bytes, msg: Msg) returns (v': Upload)
    requires Leads(true, u, v) && Poisoned(v, n, q, y) && msg in v.pending
    ensures Leads(true, u, v') && Poisoned(v', n, q, y)
            && v' == v.(appender := v'.appender, pending := v.pending - {msg})
    ensures Grown(msg.meta, v.appender, v'.appender)
  {
    v' := Do(v, Take(msg, {}));
    LeadsOn(true, u, v, Take(msg, {}));
    TakeShape(v, msg, {});
    CurrentAsPoisoned(v, n, q, y, msg);
    WorkHolds(msg.meta, v.files, v.seen[q := y], {}, v.base, v.appender);
    ListedHaveFiles(v, msg);
    WorkGrows(msg.meta, v.files, {}, v.appender);
  }

  lemma {:induction false} Drain(u: Upload, v: Upload, n: int, q: Part, y: Bytes) returns (v': Upload)
    requires Leads(true, u, v) && Poisoned(v, n, q, y)
    ensures Leads(true, u, v') && Poisoned(v', n, q, y) && v'.pending == {}
    decreases |v.pending|
  {
    if v.pending == {} { return v; }
    var msg :| msg in v.pending;
    var w := TakeKeepsPoison(u, v, n, q, y, msg);
    v' := Drain(u, w, n, q, y);
  }

  /** The parts are the same whether a part is uploaded before or after `q` is taken for `y`. */
  lemma PutHolds(v: Upload, n: int, q: Part, y: Bytes, p: Part, data: Bytes)
    requires Poisoned(v, n, q, y) && (p in v.seen ==> v.seen[p] == data)
    ensures Holds(v.seen[p := data][q := y], v.base, v.appender)
    ensures q in v.seen[p := data] && v.seen[p := data][q] != y
  {
    if p == q {
      assert v.seen[p := data][q := y] == v.seen[q := y];
    } else {
      SeenMore(v.seen[q := y], p, data, v.appender.parts);
      assert v.seen[p := data][q := y] == v.seen[q := y][p := data];
    }
  }

  lemma PutKeepsPoison(u: Upload, v: Upload, n: int, q: Part, y: Bytes, p: Part, data: Bytes, meta: seq<Part>)
    requires Leads(true, u, v) && Poisoned(v, n, q, y) && v.pending == {}
    requires p.number >= 1 && Enabled(v, Put(p, data, meta))
    ensures Leads(true, u, Do(v, Put(p, data, meta))) && Poisoned(Do(v, Put(p, data, meta)), n, q, y)
  {
    LeadsOn(true, u, v, Put(p, data, meta));
    PutHolds(v, n, q, y, p, data);
    OnlyInput(v, p, data, meta, n);
  }

  lemma OnlyInput(v: Upload, p: Part, data: Bytes, meta: seq<Part>, n: int)
    requires Going(v) && v.pending == {} && p.number >= 1 && Enabled(v, Put(p, data, meta))
    ensures Going(Do(v, Put(p, data, meta))) && AllCurrentBut(Do(v, Put(p, data, meta)), n)
    ensures Do(v, Put(p, data, meta)).pending == {Msg(p.number, meta)}
  {
    PutShape(v, p, data, meta);
    ListingIsCurrent(Do(v, Put(p, data, meta)), meta, 0);
    assert {} + {Msg(p.number, meta)} == {Msg(p.number, meta)};
  }

  /** A part is uploaded and its input taken. */
  lemma PutAndTake(u: Upload, v: Upload, n: int, q: Part, y: Bytes, p: Part, data: Bytes)
    returns (v': Upload, meta: seq<Part>)
    requires Leads(true, u, v) && Poisoned(v, n, q, y) && v.pending == {}
    requires p.number >= 1 && (p in v.seen ==> v.seen[p] == data)
    ensures Leads(true, u, v') && Poisoned(v', n, q, y) && v'.pending == {}
    ensures v'.info == v.info[p.number := p] && Lists(v'.info, meta) && Grown(meta, v.appender, v'.appender)
  {
    meta := ListingWith(v, p);
    PutKeepsPoison(u, v, n, q, y, p, data, meta);
    OnlyInput(v, p, data, meta, n);
    var msg := Msg(p.number, meta);
    v' := TakeKeepsPoison(u, Do(v, Put(p, data, meta)), n, q, y, msg);
    assert {msg} - {msg} == {};
  }

  lemma ListingWith(v: Upload, p: Part) returns (meta: seq<Part>)
    requires Stored(v)
    ensures Lists(v.info[p.number := p], meta)
  {
    meta := SomeListing(v.info[p.number := p]);
  }

  /** Some part with that number, and bytes it may have. */
  lemma SomePart(v: Upload, m: int) returns (p: Part, data: Bytes)
    requires Stored(v)
    ensures p.number == m && (p in v.seen ==> v.seen[p] == data)
    ensures m in v.info ==> p == v.info[m]
  {
    p := if m in v.info then v.info[m] else Part(m, "", 0);
    data := if p in v.seen then v.seen[p] else [];
  }

  /** Uploading what is missing, or what is there once more, until all is appended. */
  lemma {:induction false} FillUp(u: Upload, v: Upload, n: int, q: Part, y: Bytes, top: int) returns (v': Upload)
    requires Leads(true, u, v) && Poisoned(v, n, q, y) && v.pending == {} && forall m | m in v.info :: m <= top
    ensures Leads(true, u, v') && Poisoned(v', n, q, y) && v'.pending == {}
    ensures forall m | m in v'.info :: m <= |v'.appender.parts|
    decreases top - |v.appender.parts|
  {
    var m := |v.appender.parts| + 1;
    if top < m { return v; }
    var p, data := SomePart(v, m);
    var w, meta := PutAndTake(u, v, n, q, y, p, data);
    ListingHas(w.info, meta, m);
    v' := FillUp(u, w, n, q, y, top);
  }

  /** The parts uploaded last are those appended, up to `k`. */
  ghost predicate Matches(v: Upload, k: nat) {
    && k <= |v.appender.parts| && (forall m | m in v.info :: m <= |v.appender.parts|)
    && forall n | 1 <= n <= k :: n in v.info && v.info[n] == v.appender.parts[n - 1]
  }

  /** Uploading one part again as it was appended. */
  lemma RestoreOne(u: Upload, v: Upload, n: int, q: Part, y: Bytes, k: nat) returns (v': Upload)
    requires Leads(true, u, v) && Poisoned(v, n, q, y) && v.pending == {} && Matches(v, k) && k < |v.appender.parts|
    ensures Leads(true, u, v') && Poisoned(v', n, q, y) && v'.pending == {}
    ensures Matches(v', k + 1) && |v'.appender.parts| == |v.appender.parts|
  {
    var p, m := v.appender.parts[k], |v.appender.parts| + 1;
    assert p.number == k + 1 && p in v.seen;
    var w, meta := PutAndTake(u, v, n, q, y, p, v.seen[p]);
    NothingNext(w.info, meta, m);
    RestsGrown(meta, v.appender, w.appender);
    MatchesMore(v, w, k);
    v' := w;
  }

  lemma NothingNext(info: map<int, Part>, meta: seq<Part>, m: int)
    requires Lists(info, meta) && (forall n | n in info :: info[n].number == n) && m !in info
    ensures !Listed(meta, m)
  {
    ListingHas(info, meta, m);
    ListedIsNumber(meta, m);
  }

  lemma MatchesMore(v: Upload, w: Upload, k: nat)
    requires Shape(v) && v.running && Matches(v, k) && k < |v.appender.parts| && w.appender.parts == v.appender.parts
    requires w.info == v.info[k + 1 := v.appender.parts[k]]
    ensures Matches(w, k + 1)
  {
  }

  lemma {:induction false} Restore(u: Upload, v: Upload, n: int, q: Part, y: Bytes, k: nat) returns (v': Upload)
    requires Leads(true, u, v) && Poisoned(v, n, q, y) && v.pending == {} && Matches(v, k)
    ensures Leads(true, u, v') && Poisoned(v', n, q, y) && v'.pending == {} && Matches(v', |v'.appender.parts|)
    decreases |v.appender.parts| - k
  {
    if k == |v.appender.parts| { return v; }
    var w := RestoreOne(u, v, n, q, y, k);
    v' := Restore(u, w, n, q, y, k + 1);
  }

  lemma RestsGrown(meta: seq<Part>, a: Appender, b: Appender)
    requires Grown(meta, a, b) && !Listed(meta, |a.parts| + 1)
    ensures a.parts == b.parts
  {
    assert |b.parts| > |a.parts| ==> Listed(meta, |a.parts| + 1);
  }

  /** One part's bytes taken for others show in the whole. */
  lemma {:induction false} JoinedDiffers(seen: Seen, q: Part, y: Bytes, parts: seq<Part>, n: nat)
    requires Numbered(parts) && AllSeen(seen, parts) && 1 <= n <= |parts| && parts[n - 1] == q && seen[q] != y
    ensures AllSeen(seen[q := y], parts) && Joined(seen[q := y], parts) != Joined(seen, parts)
  {
    var init, last := parts[..|parts| - 1], parts[|parts| - 1];
    if n == |parts| {
      JoinedElsewhere(seen, q, y, init);
      SameStart(Joined(seen, init), y, seen[q]);
    } else {
      JoinedDiffers(seen, q, y, init, n);
      SameEnd(Joined(seen[q := y], init), Joined(seen, init), seen[last]);
    }
  }

  lemma SameStart(a: Bytes, x: Bytes, y: Bytes)
    requires x != y
    ensures a + x != a + y
  {
    assert (a + x)[|a|..] == x && (a + y)[|a|..] == y;
  }

  lemma SameEnd(a: Bytes, b: Bytes, x: Bytes)
    requires a != b
    ensures a + x != b + x
  {
    assert (a + x)[..|a|] == a && (b + x)[..|b|] == b;
  }

  lemma MatchesLists(info: map<int, Part>, parts: seq<Part>)
    requires Numbered(parts) && (forall n | n in info :: 1 <= n <= |parts|)
    requires forall n | 1 <= n <= |parts| :: n in info && info[n] == parts[n - 1]
    ensures Lists(info, parts)
  {
    forall n | n in info ensures info[n] in parts { assert info[n] == parts[n - 1]; }
    forall i | 0 <= i < |parts| ensures parts[i].number in info && info[parts[i].number] == parts[i] {
      assert parts[i].number == i + 1;
    }
  }

  lemma PoisonShows(v: Upload, n: int, q: Part, y: Bytes)
    requires Poisoned(v, n, q, y) && Lists(v.info, v.appender.parts)
    ensures InFiles(v.files, v.appender.parts) && v.appender.file != v.base + All(v.files, v.appender.parts)
  {
    var meta := v.appender.parts;
    JoinedIsAll(v, meta);
    JoinedDiffers(v.seen, q, y, meta, n);
    SameStart(v.base, Joined(v.seen[q := y], meta), Joined(v.seen, meta));
  }

  lemma AppendedNow(v: Upload)
    requires v.running && Numbered(v.appender.parts)
    ensures Appended(v, v.appender.parts, Request(v.appender.parts), {})
    ensures Work(v.appender.parts, v.files, {}, v.appender).0 == v.appender
  {
    WorkRests(v.appender.parts, v.files, v.appender);
  }

  /** When the parts uploaded last are those appended, the completion takes the append file. */
  lemma PoisonIsDelivered(v: Upload, n: int, q: Part, y: Bytes)
    requires Poisoned(v, n, q, y) && Matches(v, |v.appender.parts|)
    ensures Wrong(v, v.appender.parts, Request(v.appender.parts), {})
  {
    MatchesLists(v.info, v.appender.parts);
    AppendedNow(v);
    PoisonShows(v, n, q, y);
    IsWrong(v, v.appender.parts);
  }

  lemma IsWrong(v: Upload, meta: seq<Part>)
    requires v.result.None? && Lists(v.info, meta) && meta != [] && InFiles(v.files, meta)
    requires Appended(v, meta, Request(meta), {})
             && Work(meta, v.files, {}, v.appender).0.file != v.base + All(v.files, meta)
    ensures Wrong(v, meta, Request(meta), {})
  {
  }

  lemma PoisonGoesOn(u: Upload, v: Upload, n: int, q: Part, y: Bytes)
    requires Leads(true, u, v) && Poisoned(v, n, q, y)
    ensures CanGoWrong(u)
  {
    var a := Drain(u, v, n, q, y);
    var top := Largest(a.info.Keys + {0});
    var b := FillUp(u, a, n, q, y, top);
    var c := Restore(u, b, n, q, y, 0);
    PoisonIsDelivered(c, n, q, y);
  }

  // ------------------------------------------------------------ from the replacement to there

  /** An append that fails makes the appender start over. */
  lemma FailedTake(u: Upload, v: Upload, msg: Msg)
    requires Leads(true, u, v) && Going(v) && msg in v.pending && Listed(msg.meta, |v.appender.parts| + 1)
    ensures var v' := v.(appender := Appender([], []), base := [], pending := v.pending - {msg});
            Leads(true, u, v') && Shape(v')
  {
    var step := Take(msg, {|v.appender.parts| + 1});
    LeadsOn(true, u, v, step);
    TakeShape(v, msg, step.faults);
  }

  /** A part of a number that nobody has uploaded yet. */
  lemma PutUnknown(u: Upload, v: Upload, m: int, n: int) returns (p: Part, data: Bytes, meta: seq<Part>)
    requires Leads(true, u, v) && Going(v) && AllCurrentBut(v, n) && m !in v.info && m >= 1
    ensures p.number == m && Enabled(v, Put(p, data, meta)) && Leads(true, u, Do(v, Put(p, data, meta)))
    ensures Going(Do(v, Put(p, data, meta))) && AllCurrentBut(Do(v, Put(p, data, meta)), n) && Listed(meta, m)
  {
    p, data := SomePart(v, m);
    meta := ListingWith(v, p);
    NotListed(v, m);
    LeadsOn(true, u, v, Put(p, data, meta));
    ManyInputs(v, p, data, meta, n);
    PutShape(v, p, data, meta);
    ListingHas(v.info[m := p], meta, m);
  }

  lemma ManyInputs(v: Upload, p: Part, data: Bytes, meta: seq<Part>, n: int)
    requires Going(v) && AllCurrentBut(v, n) && p.number >= 1 && Enabled(v, Put(p, data, meta))
    requires p.number == n || p.number !in v.info
    ensures Going(Do(v, Put(p, data, meta))) && AllCurrentBut(Do(v, Put(p, data, meta)), n)
  {
    var w := Do(v, Put(p, data, meta));
    PutShape(v, p, data, meta);
    ListingIsCurrent(w, meta, 0);
    forall msg | msg in v.pending ensures CurrentBut(w, msg.meta, n) { StillCurrentBut(v, p, data, n, msg); }
  }

  lemma StillCurrentBut(v: Upload, p: Part, data: Bytes, n: int, msg: Msg)
    requires Shape(v) && AllCurrentBut(v, n) && msg in v.pending && (p in v.seen ==> v.seen[p] == data)
    requires p.number == n || p.number !in v.info
    ensures CurrentBut(v.(files := v.files[p.number := data], seen := v.seen[p := data]), msg.meta, n)
  {
    if p.number !in v.info { NotListed(v, p.number); }
    assert CurrentBut(v, msg.meta, n);
  }

  lemma NotListed(v: Upload, m: int)
    requires Shape(v) && m !in v.info
    ensures forall msg | msg in v.pending :: !Listed(msg.meta, m) && msg.lock != m
  {
    forall msg | msg in v.pending ensures !Listed(msg.meta, m) {
      ListedHaveFiles(v, msg);
      assert Listed(msg.meta, m) ==> PartAt(msg.meta, m) in msg.meta;
    }
  }

  /** What a replacement makes of the upload: other bytes in the file than an input on its way lists. */
  lemma ReplacedShape(u: Upload, r: Part, y: Bytes, meta: seq<Part>, msg: Msg)
    requires Inv(u) && Enabled(u, Put(r, y, meta)) && Positive(Do(u, Put(r, y, meta))) && msg in u.pending
    ensures var v := Do(u, Put(r, y, meta)); Going(v) && AllCurrentBut(v, r.number) && Holds(v.seen, v.base, v.appender)
  {
    assert r.number in Do(u, Put(r, y, meta)).info;
    forall m | m in u.info ensures m >= 1 { assert m in Do(u, Put(r, y, meta)).info; }
    ManyInputs(u, r, y, meta, r.number);
    SeenMore(u.seen, r, y, u.appender.parts);
  }

  /** The input lists other bytes for the part than are put. */
  ghost predicate Contradicts(u: Upload, msg: Msg, r: Part, y: Bytes) {
    && msg in u.pending && Reaches(msg.meta, 0, r.number)
    && PartAt(msg.meta, r.number) in u.seen && u.seen[PartAt(msg.meta, r.number)] != y
  }

  lemma StillContradicts(u: Upload, r: Part, y: Bytes, meta: seq<Part>, msg: Msg)
    requires Enabled(u, Put(r, y, meta)) && Contradicts(u, msg, r, y)
    ensures var v := Do(u, Put(r, y, meta));
            && Contradicts(v, msg, r, y) && r.number in v.files && v.files[r.number] == y
            && Msg(r.number, meta) in v.pending && msg != Msg(r.number, meta)
  {
  }

  /** Started over, the appender has the part still to append. */
  lemma ResetIsOvertaken(v: Upload, n: int, msg: Msg, gone: Msg)
    requires Going(v) && AllCurrentBut(v, n) && n in v.files && msg != gone
    requires Contradicts(v, msg, v.info[n], v.files[n]) && v.info[n].number == n
    requires Shape(v.(appender := Appender([], []), base := [], pending := v.pending - {gone}))
    ensures Overtaken(v.(appender := Appender([], []), base := [], pending := v.pending - {gone}), n, msg)
  {
    var v' := v.(appender := Appender([], []), base := [], pending := v.pending - {gone});
    assert Holds(v'.seen, v'.base, v'.appender);
    forall m | m in v'.pending ensures CurrentBut(v', m.meta, n) { assert CurrentBut(v, m.meta, n); }
  }

  /** An appender that has the part already can be made to start over. */
  lemma StartsOver(u: Upload, v: Upload, n: int, msg: Msg, own: Msg) returns (v': Upload)
    requires Leads(true, u, v) && Going(v) && AllCurrentBut(v, n) && n in v.files
    requires Contradicts(v, msg, v.info[n], v.files[n]) && v.info[n].number == n
    requires own in v.pending && own != msg && Lists(v.info, own.meta)
    ensures Leads(true, u, v') && Overtaken(v', n, msg)
  {
    var m := |v.appender.parts| + 1;
    if m in v.info {
      ListingHas(v.info, own.meta, m);
      FailedTake(u, v, own);
      ResetIsOvertaken(v, n, msg, own);
      v' := v.(appender := Appender([], []), base := [], pending := v.pending - {own});
    } else {
      v' := StartsOverAnew(u, v, n, msg);
    }
  }

  lemma StartsOverAnew(u: Upload, v: Upload, n: int, msg: Msg) returns (v': Upload)
    requires Leads(true, u, v) && Going(v) && AllCurrentBut(v, n) && n in v.files
    requires Contradicts(v, msg, v.info[n], v.files[n]) && v.info[n].number == n && |v.appender.parts| + 1 !in v.info
    ensures Leads(true, u, v') && Overtaken(v', n, msg)
  {
    var m := |v.appender.parts| + 1;
    NotListed(v, m);
    var p, data, meta := PutUnknown(u, v, m, n);
    var w := Do(v, Put(p, data, meta));
    FailedTake(u, w, Msg(m, meta));
    ContradictsMore(v, n, msg, p, data, meta);
    ResetIsOvertaken(w, n, msg, Msg(m, meta));
    v' := w.(appender := Appender([], []), base := [], pending := w.pending - {Msg(m, meta)});
  }

  lemma ContradictsMore(v: Upload, n: int, msg: Msg, p: Part, data: Bytes, meta: seq<Part>)
    requires Shape(v) && v.running && n in v.files && Contradicts(v, msg, v.info[n], v.files[n])
             && v.info[n].number == n
    requires p.number !in v.info && Enabled(v, Put(p, data, meta))
    ensures var w := Do(v, Put(p, data, meta));
            n in w.files && w.info[n].number == n && Contradicts(w, msg, w.info[n], w.files[n])
            && msg != Msg(p.number, meta)
  {
  }

  lemma ReplacedIsOvertaken(u: Upload, r: Part, y: Bytes, meta: seq<Part>, msg: Msg) returns (v: Upload)
    requires Inv(u) && Enabled(u, Put(r, y, meta)) && Positive(Do(u, Put(r, y, meta))) && Contradicts(u, msg, r, y)
    ensures Leads(true, Do(u, Put(r, y, meta)), v) && Overtaken(v, r.number, msg)
  {
    var u1 := Do(u, Put(r, y, meta));
    LeadsNowhere(true, u1);
    ReplacedShape(u, r, y, meta, msg);
    StillContradicts(u, r, y, meta, msg);
    if |u1.appender.parts| < r.number {
      v := u1;
    } else {
      v := StartsOver(u1, u1, r.number, msg, Msg(r.number, meta));
    }
  }

  /**
    From every state a steady run leads to: a part put can make a completion deliver other bytes
    than those uploaded last, exactly if an input on its way lists all numbers up to the part's,
    and the part itself with other bytes.
   */
  lemma {:induction false} ReplacingSpoilsIff(steps: seq<Step>, r: Part, y: Bytes, meta: seq<Part>)
    requires Run(true, NEW, steps) && Enabled(After(NEW, steps), Put(r, y, meta))
    ensures var u, step := After(NEW, steps), Put(r, y, meta);
            CanGoWrong(Do(u, step)) <==> !Steady(u, step) && Positive(Do(u, step))
  {
    var u, step := After(NEW, steps), Put(r, y, meta);
    AlwaysInOrder(NEW, steps);
    if Steady(u, step) {
      PutKeeps(u, r, y, meta);
      SteadyIsRight(Do(u, step));
    } else {
      UnsteadySpoilsIff(u, r, y, meta);
    }
  }

  lemma UnsteadySpoilsIff(u: Upload, r: Part, y: Bytes, meta: seq<Part>)
    requires Inv(u) && Enabled(u, Put(r, y, meta)) && !Steady(u, Put(r, y, meta))
    ensures CanGoWrong(Do(u, Put(r, y, meta))) <==> Positive(Do(u, Put(r, y, meta)))
  {
    var u1 := Do(u, Put(r, y, meta));
    if Positive(u1) {
      var msg :| msg in u.pending && Reaches(msg.meta, 0, r.number)
                 && PartAt(msg.meta, r.number) in u.seen && u.seen[PartAt(msg.meta, r.number)] != y;
      var v := ReplacedIsOvertaken(u, r, y, meta, msg);
      var v' := TakePoisons(u1, v, r.number, msg);
      PoisonGoesOn(u1, v', r.number, PartAt(msg.meta, r.number), v.files[r.number]);
    } else {
      PutShape(u, r, y, meta);
      OnlyPositiveGoWrong(u1);
    }
  }

  // ------------------------------------------------------------ there are such states

  /** Part two is there, part one has just been put, and its input is on its way. */
  function OnItsWay(p: Part, q: Part, x: Bytes, z: Bytes): Upload {
    Upload(map[2 := q, 1 := p], map[2 := x, 1 := z], map[q := x, p := z], {Msg(1, [p, q])},
           true, Appender([], []), [], None)
  }

  lemma OneOnItsWay(p: Part, q: Part, x: Bytes, z: Bytes)
    requires p.number == 1 && q.number == 2
    ensures Leads(true, NEW, OnItsWay(p, q, x, z))
  {
    var two := Upload(map[2 := q], map[2 := x], map[q := x], {}, true, Appender([], []), [], None);
    LeadsNowhere(true, NEW);
    LeadsOn(true, NEW, NEW, Put(q, x, [q]));
    assert Do(NEW, Put(q, x, [q])) == two.(pending := {Msg(2, [q])});
    WorkRests([q], two.files, two.appender);
    TakeGives(NEW, two.(pending := {Msg(2, [q])}), Msg(2, [q]), two.appender);
    assert {Msg(2, [q])} - {Msg(2, [q])} == {};
    TwoListed(p, q, two.info[1 := p]);
    LeadsOn(true, NEW, two, Put(p, z, [p, q]));
    assert Do(two, Put(p, z, [p, q])) == OnItsWay(p, q, x, z);
  }

  /** The lock on part two is free then, so it can be replaced by other bytes, and these be delivered under its etag. */
  lemma ReplacedOnTheWay(p: Part, q: Part, r: Part, x: Bytes, y: Bytes, z: Bytes)
    requires p.number == 1 && q.number == 2 == r.number && q != r && x != y
    ensures Leads(true, NEW, OnItsWay(p, q, x, z)) && Enabled(OnItsWay(p, q, x, z), Put(r, y, [p, r]))
    ensures CanGoWrong(Do(OnItsWay(p, q, x, z), Put(r, y, [p, r])))
  {
    var u := OnItsWay(p, q, x, z);
    OneOnItsWay(p, q, x, z);
    TwoListed(p, r, u.info[2 := r]);
    var steps :| Run(true, NEW, steps) && After(NEW, steps) == u;
    ReplacingSpoilsIff(steps, r, y, [p, r]);
    TwoContradicts(p, q, r, x, y, z);
  }

  lemma TwoContradicts(p: Part, q: Part, r: Part, x: Bytes, y: Bytes, z: Bytes)
    requires p.number == 1 && q.number == 2 == r.number && q != r && x != y
    ensures !Steady(OnItsWay(p, q, x, z), Put(r, y, [p, r])) && Positive(Do(OnItsWay(p, q, x, z), Put(r, y, [p, r])))
  {
    FoundAt([p, q], 0, 0);
    FoundAt([p, q], 1, 0);
    assert Contradicts(OnItsWay(p, q, x, z), Msg(1, [p, q]), r, y);
  }
}
