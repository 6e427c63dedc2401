/**
  What a completion that is not delivered leaves behind, and what that does to the next one.
 */
module UploadLeftovers {
  import opened Wrappers
  import opened PartList
  import opened BackgroundAppend
  import opened UploadRuns

  // ------------------------------------------------------------ leftovers in terms of the history

  /** The `j`-th step is a completion that ends an appender and leaves an append file that is not empty. */
  ghost predicate Leaves(steps: seq<Step>, j: nat) {
    && j < |steps| && steps[j].Finish?
    && var u := After(NEW, steps[..j]);
       Asks(u, steps[j].meta, steps[j].parts) && Worked(u, steps[j].meta, steps[j].faults).appender.file != []
  }

  /** Such a file is there, and no part was uploaded since. */
  ghost predicate LeftBehind(steps: seq<Step>) {
    exists j: nat :: Leaves(steps, j) && forall m | j < m < |steps| :: !steps[m].Put?
  }

  /** The `m`-th step ends the appender, or makes it start over with an empty file. */
  ghost predicate Clears(steps: seq<Step>, m: nat)
    requires m < |steps|
  {
    var u := After(NEW, steps[..m]);
    match steps[m]
    case Put(_, _, _) => false
    case Take(msg, faults) => Work(msg.meta, u.files, faults, u.appender).0 == Appender([], [])
    case Finish(meta, parts, _, _) => Same(meta, parts)
    case Drop => true
  }

  /** The upload of a part started an appender on a file that was left behind, and it goes on with it. */
  ghost predicate Spoiled(steps: seq<Step>) {
    exists k: nat :: k < |steps| && TookOver(steps, k) && forall m: nat | k < m < |steps| :: !Clears(steps, m)
  }

  ghost predicate TookOver(steps: seq<Step>, k: nat)
    requires k < |steps|
  {
    steps[k].Put? && LeftBehind(steps[..k])
  }

  lemma LeavesBefore(steps: seq<Step>, step: Step, j: nat)
    requires j < |steps|
    ensures Leaves(steps + [step], j) <==> Leaves(steps, j)
    ensures Clears(steps + [step], j) <==> Clears(steps, j)
    ensures TookOver(steps + [step], j) <==> TookOver(steps, j)
  {
    assert (steps + [step])[..j] == steps[..j] && (steps + [step])[j] == steps[j];
  }

  lemma LeavesLast(steps: seq<Step>, step: Step)
    ensures var u := After(NEW, steps);
            Leaves(steps + [step], |steps|)
            <==> step.Finish? && Asks(u, step.meta, step.parts) && Worked(u, step.meta, step.faults).appender.file != []
  {
    assert (steps + [step])[..|steps|] == steps;
  }

  lemma LeftBehindNext(steps: seq<Step>, step: Step)
    ensures LeftBehind(steps + [step]) <==> Leaves(steps + [step], |steps|) || (LeftBehind(steps) && !step.Put?)
  {
    var more := steps + [step];
    if LeftBehind(more) {
      var j: nat :| Leaves(more, j) && forall m | j < m < |more| :: !more[m].Put?;
      if j < |steps| {
        LeavesBefore(steps, step, j);
        assert !more[|steps|].Put?;
        forall m | j < m < |steps| ensures !steps[m].Put? { assert !more[m].Put?; }
      }
    }
    if LeftBehind(steps) && !step.Put? {
      var j: nat :| Leaves(steps, j) && forall m | j < m < |steps| :: !steps[m].Put?;
      LeavesBefore(steps, step, j);
    }
  }

  lemma SpoiledNext(steps: seq<Step>, step: Step)
    ensures Spoiled(steps + [step])
            <==> (step.Put? && LeftBehind(steps)) || (Spoiled(steps) && !Clears(steps + [step], |steps|))
  {
    var more := steps + [step];
    assert more[..|steps|] == steps && more[|steps|] == step;
    if Spoiled(more) {
      var k: nat :| k < |more| && TookOver(more, k) && forall m: nat | k < m < |more| :: !Clears(more, m);
      if k < |steps| {
        LeavesBefore(steps, step, k);
        forall m: nat | k < m < |steps| ensures !Clears(steps, m) { LeavesBefore(steps, step, m); }
      }
    }
    if step.Put? && LeftBehind(steps) { assert TookOver(more, |steps|); }
    if Spoiled(steps) && !Clears(more, |steps|) {
      var k: nat :| k < |steps| && TookOver(steps, k) && forall m: nat | k < m < |steps| :: !Clears(steps, m);
      LeavesBefore(steps, step, k);
      forall m: nat | k < m < |more| ensures !Clears(more, m) { if m < |steps| { LeavesBefore(steps, step, m); } }
    }
  }

  /** What the upload looks like, told by its history. */
  ghost predicate Told(steps: seq<Step>) {
    var u := After(NEW, steps);
    && (LeftBehind(steps) <==> !u.running && u.appender.file != [])
    && (Spoiled(steps) <==> u.running && u.base != [])
  }

  lemma ToldNext(steps: seq<Step>, step: Step)
    requires Told(steps) && Enabled(After(NEW, steps), step)
    ensures Told(steps + [step])
  {
    var u, more := After(NEW, steps), steps + [step];
    assert more[..|steps|] == steps && more[|steps|] == step;
    LeavesLast(steps, step);
    LeftBehindNext(steps, step);
    SpoiledNext(steps, step);
  }

  /**
    An append file is left behind exactly if an earlier completion ended an appender without
    delivering its file; a running appender has something in front of its parts exactly if it
    started on such a file and did not start over since.
   */
  lemma {:induction false} HistoryTells(steady: bool, steps: seq<Step>)
    requires Run(steady, NEW, steps)
    ensures LeftBehind(steps) <==> !After(NEW, steps).running && After(NEW, steps).appender.file != []
    ensures Spoiled(steps) <==> After(NEW, steps).running && After(NEW, steps).base != []
  {
    if steps != [] {
      HistoryTells(steady, steps[..|steps| - 1]);
      ToldNext(steps[..|steps| - 1], steps[|steps| - 1]);
      assert steps[..|steps| - 1] + [steps[|steps| - 1]] == steps;
    }
  }

  /**
    What a completion delivers is what was requested, exactly if it does not come from an append
    file that an earlier completion has spoiled.
   */
  lemma {:induction false} DeliversRequestedIff(steps: seq<Step>, meta: seq<Part>, parts: seq<CompletePart>,
                                                faults: set<int>)
    requires Run(true, NEW, steps) && Enabled(After(NEW, steps), Finish(meta, parts, faults, false))
    requires Do(After(NEW, steps), Finish(meta, parts, faults, false)).result.Some?
    ensures var u := After(NEW, steps);
            && (forall i | 0 <= i < |parts| :: parts[i].number in u.files)
            && (Do(u, Finish(meta, parts, faults, false)).result == Some(Requested(u.files, parts, |parts|))
                <==> !(Appended(u, meta, parts, faults) && Spoiled(steps)))
  {
    var u := After(NEW, steps);
    HistoryTells(true, steps);
    if Appended(u, meta, parts, faults) {
      CompleteIsExact(steps, meta, parts, faults);
      RequestedIsAll(u.files, meta, parts, |parts|);
      assert |u.base + All(u.files, meta)| == |u.base| + |All(u.files, meta)|;
      assert u.base == [] ==> u.base + All(u.files, meta) == All(u.files, meta);
    } else {
      AcceptedHasFiles(u, meta, parts);
    }
  }

  /** So the first completion that ends an appender is right. */
  lemma {:induction false} FirstCompletionIsRight(steps: seq<Step>, meta: seq<Part>, parts: seq<CompletePart>,
                                                  faults: set<int>)
    requires Run(true, NEW, steps) && Enabled(After(NEW, steps), Finish(meta, parts, faults, false))
    requires Do(After(NEW, steps), Finish(meta, parts, faults, false)).result.Some?
    requires forall j: nat | j < |steps| && steps[j].Finish? :: !Same(steps[j].meta, steps[j].parts)
    ensures var u := After(NEW, steps);
            && (forall i | 0 <= i < |parts| :: parts[i].number in u.files)
            && Do(u, Finish(meta, parts, faults, false)).result == Some(Requested(u.files, parts, |parts|))
  {
    DeliversRequestedIff(steps, meta, parts, faults);
    forall k: nat | k < |steps| ensures !TookOver(steps, k) {
      forall j: nat ensures !Leaves(steps[..k], j) { if j < k { assert steps[..k][j] == steps[j]; } }
    }
  }

  // ------------------------------------------------------------ a spoiled completion

  /** Part one is there and appended. */
  function One(p: Part, x: Bytes): Upload {
    Upload(map[1 := p], map[1 := x], map[p := x], {}, true, Appender([p], x), [], None)
  }

  lemma OneAppended(p: Part, x: Bytes)
    requires p.number == 1
    ensures Leads(true, NEW, One(p, x))
  {
    var u := One(p, x).(pending := {Msg(1, [p])}, appender := Appender([], []));
    LeadsNowhere(true, NEW);
    LeadsOn(true, NEW, NEW, Put(p, x, [p]));
    assert Do(NEW, Put(p, x, [p])) == u;
    WorkTakes([p], u.files, u.appender, 0);
    assert Appender([] + [p], [] + x) == Appender([p], x);
    WorkRests([p], u.files, Appender([p], x));
    TakeGives(NEW, u, Msg(1, [p]), Appender([p], x));
    assert u.pending - {Msg(1, [p])} == {};
  }

  /** Part three is there too, and nothing to append. */
  function OneAndThree(p: Part, r: Part, x: Bytes, z: Bytes): Upload {
    One(p, x).(info := map[1 := p, 3 := r], files := map[1 := x, 3 := z], seen := map[p := x, r := z])
  }

  lemma ThreeArrives(p: Part, r: Part, x: Bytes, z: Bytes)
    requires p.number == 1 && r.number == 3
    ensures Leads(true, NEW, OneAndThree(p, r, x, z))
  {
    OneAppended(p, x);
    var u := OneAndThree(p, r, x, z).(pending := {Msg(3, [p, r])});
    TwoListed(p, r, u.info);
    LeadsOn(true, NEW, One(p, x), Put(r, z, [p, r]));
    assert Do(One(p, x), Put(r, z, [p, r])) == u;
    WorkRests([p, r], u.files, u.appender);
    TakeGives(NEW, u, Msg(3, [p, r]), u.appender);
    assert u.pending - {Msg(3, [p, r])} == {};
  }

  /** The completion that ends the appender is refused for the size of part one, and the append file stays. */
  lemma CompletionIsRefused(p: Part, r: Part, x: Bytes, z: Bytes)
    requires p.number == 1 && r.number == 3 && p.size < MIN_PART_SIZE
    ensures Leads(true, NEW, OneAndThree(p, r, x, z).(running := false))
  {
    ThreeArrives(p, r, x, z);
    var u, step := OneAndThree(p, r, x, z), Finish([p, r], Request([p, r]), {}, false);
    TwoListed(p, r, u.info);
    LeadsOn(true, NEW, u, step);
    WorkRests([p, r], u.files, u.appender);
    FoundAt([p, r], 0, 0);
    assert Refusal(u.files, [p, r], Request([p, r]), 0) == Some(PartTooSmall);
    assert Do(u, step) == u.(running := false);
  }

  lemma WorkThree(p: Part, q: Part, r: Part, files: Files, base: Bytes)
    requires p.number == 1 && q.number == 2 && r.number == 3 && 1 in files && 2 in files && 3 in files
    ensures var end := Appender([p, q, r], base + files[1] + files[2] + files[3]);
            Work([p, q, r], files, {}, Appender([], base)) == (end, None) == Work([p, q, r], files, {}, end)
  {
    var meta := [p, q, r];
    WorkTakes(meta, files, Appender([], base), 0);
    assert [] + [p] == [p] && [p] + [q] == [p, q] && [p, q] + [r] == meta;
    WorkTakes(meta, files, Appender([p], base + files[1]), 1);
    WorkTakes(meta, files, Appender([p, q], base + files[1] + files[2]), 2);
    WorkRests(meta, files, Appender(meta, base + files[1] + files[2] + files[3]));
  }

  /** Part two arrives, and the next appender takes the file that stayed as it is. */
  function AllThree(p: Part, q: Part, r: Part, x: Bytes, y: Bytes, z: Bytes): Upload {
    Upload(map[1 := p, 3 := r, 2 := q], map[1 := x, 3 := z, 2 := y], map[p := x, r := z, q := y], {},
           true, Appender([p, q, r], x + x + y + z), x, None)
  }

  lemma ThreeListed(p: Part, q: Part, r: Part, info: map<int, Part>)
    requires p.number < q.number < r.number && info == map[p.number := p, q.number := q, r.number := r]
    ensures Lists(info, [p, q, r])
  {
  }

  lemma SecondAppender(p: Part, q: Part, r: Part, x: Bytes, y: Bytes, z: Bytes)
    requires p.number == 1 && q.number == 2 && r.number == 3 && p.size < MIN_PART_SIZE
    ensures Leads(true, NEW, AllThree(p, q, r, x, y, z))
  {
    CompletionIsRefused(p, r, x, z);
    var v, meta := OneAndThree(p, r, x, z).(running := false), [p, q, r];
    ThreeListed(p, q, r, v.info[2 := q]);
    LeadsOn(true, NEW, v, Put(q, y, meta));
    var u := AllThree(p, q, r, x, y, z).(pending := {Msg(2, meta)}, appender := Appender([], x));
    assert Do(v, Put(q, y, meta)) == u;
    WorkThree(p, q, r, u.files, x);
    TakeGives(NEW, u, Msg(2, meta), Appender(meta, x + x + y + z));
    assert u.pending - {Msg(2, meta)} == {};
  }

  /**
    If part one is smaller than the fallback allows, a refused completion can make the next one
    deliver part one twice, whatever the contents.
   */
  lemma RefusedCompletionSpoilsTheNext(p: Part, q: Part, r: Part, x: Bytes, y: Bytes, z: Bytes) returns (u: Upload)
    requires p.number == 1 && q.number == 2 && r.number == 3 && p.size < MIN_PART_SIZE
    ensures Leads(true, NEW, u) && Enabled(u, Finish([p, q, r], Request([p, q, r]), {}, false))
    ensures Do(u, Finish([p, q, r], Request([p, q, r]), {}, false)).result == Some(x + x + y + z)
    ensures InFiles(u.files, [p, q, r]) && All(u.files, [p, q, r]) == x + y + z
  {
    SecondAppender(p, q, r, x, y, z);
    u := AllThree(p, q, r, x, y, z);
    var meta := [p, q, r];
    WorkThree(p, q, r, u.files, x);
    ThreeListed(p, q, r, u.info);
    AllOfThree(p, q, r, u.files);
  }

  lemma AllOfThree(p: Part, q: Part, r: Part, files: Files)
    requires p.number == 1 && q.number == 2 && r.number == 3 && 1 in files && 2 in files && 3 in files
    ensures All(files, [p, q, r]) == files[1] + files[2] + files[3]
  {
    var meta := [p, q, r];
    assert Concat(files, meta, 0) == [] && Concat(files, meta, 1) == [] + files[1];
    assert Concat(files, meta, 2) == [] + files[1] + files[2];
  }
}
