/**
  The edit distance used to suggest command names (cmd/damerau-levenshtein.go). The table
  holds the least cost of a restricted edit script: insert, delete, replace, and swap two
  neighbours that are not edited again.
 */
module EditDistance {
  const MAX_INT32 := 0x7fff_ffff

  // ------------------------------------------------------------ scripts

  datatype Edit = Keep(c: char) | Replace(x: char, y: char) | Delete(x: char) | Insert(y: char) | Transpose(x: char,
          y: char)

  function From(e: Edit): string {
    match e
    case Keep(c) => [c]
    case Replace(x, _) => [x]
    case Delete(x) => [x]
    case Insert(_) => []
    case Transpose(x, y) => [x, y]
  }

  function To(e: Edit): string {
    match e
    case Keep(c) => [c]
    case Replace(_, y) => [y]
    case Delete(_) => []
    case Insert(y) => [y]
    case Transpose(x, y) => [y, x]
  }

  function Source(s: seq<Edit>): string {
    if s == [] then "" else Source(s[..|s| - 1]) + From(s[|s| - 1])
  }

  function Target(s: seq<Edit>): string {
    if s == [] then "" else Target(s[..|s| - 1]) + To(s[|s| - 1])
  }

  function Cost(s: seq<Edit>): nat {
    if s == [] then 0 else Cost(s[..|s| - 1]) + (if s[|s| - 1].Keep? then 0 else 1)
  }

  /** The script turns one string into the other. */
  predicate Turns(s: seq<Edit>, a: string, b: string) {
    Source(s) == a && Target(s) == b
  }

  /** The script has no swaps. */
  predicate Plain(s: seq<Edit>) {
    s == [] || (Plain(s[..|s| - 1]) && !s[|s| - 1].Transpose?)
  }

  // ------------------------------------------------------------ the distance

  function Least(x: int, y: int): int {
    if x < y then x else y
  }

  predicate Swapped(a: string, b: string, i: nat, j: nat)
    requires i <= |a| && j <= |b|
  {
    i > 1 && j > 1 && a[i - 1] == b[j - 2] && a[i - 2] == b[j - 1]
  }

  /** A cell of the table, from its neighbours. */
  function Cell(same: bool, up: int, left: int, diagonal: int, swapped: bool, swap: int): (d: int)
    ensures d <= up + 1 && d <= left + 1 && d <= diagonal + (if same then 0 else 1)
            && (swapped ==> d <= swap + (if same then 0 else 1))
    ensures d == up + 1 || d == left + 1 || d == diagonal + (if same then 0 else 1)
            || (swapped && d == swap + (if same then 0 else 1))
  {
    var cost := if same then 0 else 1;
    var d := Least(Least(up + 1, left + 1), diagonal + cost);
    if swapped then Least(d, swap + cost) else d
  }

  /** The distance of the first `i` characters to the first `j`, with or without swaps. */
  function D(w: bool, a: string, b: string, i: nat, j: nat): (d: nat)
    requires i <= |a| && j <= |b|
    decreases i + j
  {
    if i == 0 then j else if j == 0 then i
    else Cell(a[i - 1] == b[j - 1], D(w, a, b, i - 1, j), D(w, a, b, i, j - 1), D(w, a, b, i - 1, j - 1),
              w && Swapped(a, b, i, j), if w && Swapped(a, b, i, j) then D(w, a, b, i - 2, j - 2) else 0)
  }

  function Distance(a: string, b: string): nat {
    D(true, a, b, |a|, |b|)
  }

  /** The Levenshtein distance, which knows no swaps. */
  function SwapFree(a: string, b: string): nat {
    D(false, a, b, |a|, |b|)
  }

  // ------------------------------------------------------------ the least cost

  /** The edit takes the last characters of the first `i` to the last ones of the first `j`. */
  predicate Fits(e: Edit, a: string, b: string, i: nat, j: nat)
    requires i <= |a| && j <= |b|
  {
    match e
    case Keep(c) => i > 0 && j > 0 && a[i - 1] == c == b[j - 1]
    case Replace(x, y) => i > 0 && j > 0 && a[i - 1] == x && b[j - 1] == y
    case Delete(x) => i > 0 && a[i - 1] == x
    case Insert(y) => j > 0 && b[j - 1] == y
    case Transpose(x, y) => i > 1 && j > 1 && a[i - 2] == x == b[j - 1] && a[i - 1] == y == b[j - 2]
  }

  function Price(e: Edit): nat {
    if e.Keep? then 0 else 1
  }

  lemma OneMore(s: seq<Edit>, e: Edit)
    ensures Source(s + [e]) == Source(s) + From(e) && Target(s + [e]) == Target(s) + To(e)
            && Cost(s + [e]) == Cost(s) + Price(e)
    ensures Plain(s + [e]) <==> Plain(s) && !e.Transpose?
  {
    assert (s + [e])[..|s|] == s;
  }

  /** The first `n` characters end in `e`. */
  predicate EndsIn(a: string, n: nat, e: string) {
    |e| <= n <= |a| && forall k | 0 <= k < |e| :: a[n - |e| + k] == e[k]
  }

  lemma EndsFit(s: string, a: string, n: nat, e: string)
    requires n <= |a| && s + e == a[..n]
    ensures EndsIn(a, n, e) && s == a[..n - |e|]
  {
    assert s == (s + e)[..|s|] == a[..n][..|s|];
    forall k | 0 <= k < |e| ensures a[n - |e| + k] == e[k] { assert (s + e)[|s| + k] == e[k]; }
  }

  /** The characters of a prefix, split at its end. */
  lemma EndsWith(a: string, n: nat)
    requires n <= |a|
    ensures n > 0 ==> a[..n] == a[..n - 1] + [a[n - 1]]
    ensures n > 1 ==> a[..n] == a[..n - 2] + [a[n - 2], a[n - 1]]
  {
  }

  lemma UpBound(w: bool, a: string, b: string, i: nat, j: nat)
    requires 0 < i <= |a| && j <= |b|
    ensures D(w, a, b, i, j) <= D(w, a, b, i - 1, j) + 1
  {
  }

  lemma LeftBound(w: bool, a: string, b: string, i: nat, j: nat)
    requires i <= |a| && 0 < j <= |b|
    ensures D(w, a, b, i, j) <= D(w, a, b, i, j - 1) + 1
  {
  }

  lemma DiagonalBound(w: bool, a: string, b: string, i: nat, j: nat)
    requires 0 < i <= |a| && 0 < j <= |b|
    ensures D(w, a, b, i, j) <= D(w, a, b, i - 1, j - 1) + if a[i - 1] == b[j - 1] then 0 else 1
  {
  }

  lemma SwapBound(w: bool, a: string, b: string, i: nat, j: nat)
    requires i <= |a| && j <= |b| && w && Swapped(a, b, i, j)
    ensures D(w, a, b, i, j) <= D(w, a, b, i - 2, j - 2) + 1
  {
  }

  lemma OneSideFit(w: bool, e: Edit, a: string, b: string, i: nat, j: nat)
    requires i <= |a| && j <= |b| && Fits(e, a, b, i, j) && (e.Delete? || e.Insert?)
    ensures D(w, a, b, i, j) <= D(w, a, b, i - |From(e)|, j - |To(e)|) + Price(e)
  {
    if e.Delete? { UpBound(w, a, b, i, j); } else { LeftBound(w, a, b, i, j); }
  }

  lemma DiagonalFit(w: bool, e: Edit, a: string, b: string, i: nat, j: nat)
    requires i <= |a| && j <= |b| && Fits(e, a, b, i, j) && (e.Keep? || e.Replace?)
    ensures D(w, a, b, i, j) <= D(w, a, b, i - |From(e)|, j - |To(e)|) + Price(e)
  {
    DiagonalBound(w, a, b, i, j);
  }

  lemma SwapFit(w: bool, e: Edit, a: string, b: string, i: nat, j: nat)
    requires i <= |a| && j <= |b| && Fits(e, a, b, i, j) && w && e.Transpose?
    ensures D(w, a, b, i, j) <= D(w, a, b, i - |From(e)|, j - |To(e)|) + Price(e)
  {
    SwapBound(w, a, b, i, j);
  }

  /** One edit more cannot cost less than the table says. */
  lemma FitBound(w: bool, e: Edit, a: string, b: string, i: nat, j: nat)
    requires i <= |a| && j <= |b| && Fits(e, a, b, i, j) && (w || !e.Transpose?)
    ensures D(w, a, b, i, j) <= D(w, a, b, i - |From(e)|, j - |To(e)|) + Price(e)
  {
    if e.Transpose? {
      SwapFit(w, e, a, b, i, j);
    } else if e.Keep? || e.Replace? {
      DiagonalFit(w, e, a, b, i, j);
    } else {
      OneSideFit(w, e, a, b, i, j);
    }
  }

  lemma EndFits(e: Edit, a: string, b: string, i: nat, j: nat)
    requires EndsIn(a, i, From(e)) && EndsIn(b, j, To(e))
    ensures Fits(e, a, b, i, j)
  {
    match e
    case Keep(c) => assert From(e)[0] == c == To(e)[0];
    case Replace(x, y) => assert From(e)[0] == x && To(e)[0] == y;
    case Delete(x) => assert From(e)[0] == x;
    case Insert(y) => assert To(e)[0] == y;
    case Transpose(x, y) => assert From(e)[0] == x == To(e)[1] && From(e)[1] == y == To(e)[0];
  }

  /** The last edit of a script fits, and the others do the rest. */
  lemma LastFits(s: seq<Edit>, e: Edit, a: string, b: string, i: nat, j: nat)
    requires i <= |a| && j <= |b| && Source(s) + From(e) == a[..i] && Target(s) + To(e) == b[..j]
    ensures |From(e)| <= i && |To(e)| <= j && Fits(e, a, b, i, j)
    ensures Turns(s, a[..i - |From(e)|], b[..j - |To(e)|])
  {
    EndsFit(Source(s), a, i, From(e));
    EndsFit(Target(s), b, j, To(e));
    EndFits(e, a, b, i, j);
  }

  /** No script is cheaper. */
  lemma {:induction false} NoneCheaper(w: bool, s: seq<Edit>, a: string, b: string, i: nat, j: nat)
    requires i <= |a| && j <= |b| && Turns(s, a[..i], b[..j]) && (w || Plain(s))
    ensures D(w, a, b, i, j) <= Cost(s)
    decreases |s|
  {
    if s != [] {
      var init, e := s[..|s| - 1], s[|s| - 1];
      LastFits(init, e, a, b, i, j);
      NoneCheaper(w, init, a, b, i - |From(e)|, j - |To(e)|);
      FitBound(w, e, a, b, i, j);
    }
  }

  lemma FitsEnds(e: Edit, a: string, b: string, i: nat, j: nat)
    requires i <= |a| && j <= |b| && Fits(e, a, b, i, j)
    ensures |From(e)| <= i && a[..i] == a[..i - |From(e)|] + From(e)
    ensures |To(e)| <= j && b[..j] == b[..j - |To(e)|] + To(e)
  {
    match e
    case Keep(c) => EndsWith(a, i); EndsWith(b, j);
    case Replace(x, y) => EndsWith(a, i); EndsWith(b, j);
    case Delete(x) => EndsWith(a, i);
    case Insert(y) => EndsWith(b, j);
    case Transpose(x, y) => EndsWith(a, i); EndsWith(b, j);
  }

  lemma Extend(s: seq<Edit>, e: Edit, a: string, b: string, i: nat, j: nat)
    requires i <= |a| && j <= |b| && Fits(e, a, b, i, j) && Turns(s, a[..i - |From(e)|], b[..j - |To(e)|])
    ensures Turns(s + [e], a[..i], b[..j])
  {
    OneMore(s, e);
    FitsEnds(e, a, b, i, j);
  }

  /** Swapping two equal characters is no cheaper than keeping them. */
  lemma EqualSwap(w: bool, a: string, b: string, i: nat, j: nat)
    requires i <= |a| && j <= |b| && Swapped(a, b, i, j) && a[i - 1] == b[j - 1]
    ensures D(w, a, b, i - 1, j - 1) <= D(w, a, b, i - 2, j - 2)
  {
    FitBound(w, Keep(a[i - 2]), a, b, i - 1, j - 1);
  }

  /** How the value of a cell comes about. */
  lemma DCases(w: bool, a: string, b: string, i: nat, j: nat)
    requires 0 < i <= |a| && 0 < j <= |b|
    ensures var d, same := D(w, a, b, i, j), a[i - 1] == b[j - 1];
            || d == D(w, a, b, i - 1, j) + 1 || d == D(w, a, b, i, j - 1) + 1
            || (same && d == D(w, a, b, i - 1, j - 1)) || (!same && d == D(w, a, b, i - 1, j - 1) + 1)
            || (!same && w && Swapped(a, b, i, j) && d == D(w, a, b, i - 2, j - 2) + 1)
  {
    if Swapped(a, b, i, j) && a[i - 1] == b[j - 1] { EqualSwap(w, a, b, i, j); }
  }

  /** The edit fits, and the rest of the cell's value is the rest's distance. */
  ghost predicate Accounts(w: bool, e: Edit, a: string, b: string, i: nat, j: nat)
    requires i <= |a| && j <= |b|
  {
    Fits(e, a, b, i, j) && (w || !e.Transpose?) && D(w, a, b, i, j) == D(w, a, b, i - |From(e)|, j - |To(e)|) + Price(e)
  }

  lemma OneEach(w: bool, e: Edit, a: string, b: string, i: nat, j: nat)
    requires 0 < i <= |a| && 0 < j <= |b| && From(e) == [a[i - 1]] && To(e) == [b[j - 1]]
    requires D(w, a, b, i, j) == D(w, a, b, i - 1, j - 1) + Price(e)
    ensures Accounts(w, e, a, b, i, j)
  {
  }

  lemma OneGone(w: bool, a: string, b: string, i: nat, j: nat)
    requires 0 < i <= |a| && j <= |b| && D(w, a, b, i, j) == D(w, a, b, i - 1, j) + 1
    ensures Accounts(w, Delete(a[i - 1]), a, b, i, j)
  {
  }

  lemma OneNew(w: bool, a: string, b: string, i: nat, j: nat)
    requires i <= |a| && 0 < j <= |b| && D(w, a, b, i, j) == D(w, a, b, i, j - 1) + 1
    ensures Accounts(w, Insert(b[j - 1]), a, b, i, j)
  {
  }

  lemma TwoSwapped(w: bool, a: string, b: string, i: nat, j: nat)
    requires w && i <= |a| && j <= |b| && Swapped(a, b, i, j) && D(w, a, b, i, j) == D(w, a, b, i - 2, j - 2) + 1
    ensures Accounts(w, Transpose(a[i - 2], a[i - 1]), a, b, i, j)
  {
  }

  /** Some edit at the end accounts for the value of a cell. */
  lemma LastEdit(w: bool, a: string, b: string, i: nat, j: nat) returns (e: Edit)
    requires 0 < i <= |a| && 0 < j <= |b|
    ensures Accounts(w, e, a, b, i, j)
  {
    DCases(w, a, b, i, j);
    var d := D(w, a, b, i, j);
    if d == D(w, a, b, i - 1, j) + 1 {
      OneGone(w, a, b, i, j);
      e := Delete(a[i - 1]);
    } else if d == D(w, a, b, i, j - 1) + 1 {
      OneNew(w, a, b, i, j);
      e := Insert(b[j - 1]);
    } else if a[i - 1] == b[j - 1] {
      e := Keep(a[i - 1]);
      OneEach(w, e, a, b, i, j);
    } else if d == D(w, a, b, i - 1, j - 1) + 1 {
      e := Replace(a[i - 1], b[j - 1]);
      OneEach(w, e, a, b, i, j);
    } else {
      TwoSwapped(w, a, b, i, j);
      e := Transpose(a[i - 2], a[i - 1]);
    }
  }

  /** The same at the edges of the table. */
  lemma SomeLastEdit(w: bool, a: string, b: string, i: nat, j: nat) returns (e: Edit)
    requires i <= |a| && j <= |b| && i + j > 0
    ensures Accounts(w, e, a, b, i, j) && |From(e)| + |To(e)| > 0
  {
    if j == 0 {
      OneGone(w, a, b, i, j);
      e := Delete(a[i - 1]);
    } else if i == 0 {
      OneNew(w, a, b, i, j);
      e := Insert(b[j - 1]);
    } else {
      e := LastEdit(w, a, b, i, j);
    }
  }

  /** The script turns the one prefix into the other for just what the table says. */
  ghost predicate Optimal(w: bool, s: seq<Edit>, a: string, b: string, i: nat, j: nat)
    requires i <= |a| && j <= |b|
  {
    Turns(s, a[..i], b[..j]) && Cost(s) == D(w, a, b, i, j) && (w || Plain(s))
  }

  lemma OptimalNone(w: bool, a: string, b: string)
    ensures Optimal(w, [], a, b, 0, 0)
  {
  }

  lemma OptimalMore(w: bool, s: seq<Edit>, e: Edit, a: string, b: string, i: nat, j: nat)
    requires i <= |a| && j <= |b| && Accounts(w, e, a, b, i, j) && Optimal(w, s, a, b, i - |From(e)|, j - |To(e)|)
    ensures Optimal(w, s + [e], a, b, i, j)
  {
    Extend(s, e, a, b, i, j);
    OneMore(s, e);
  }

  /** Some script costs just that. */
  lemma {:induction false} SomeAsCheap(w: bool, a: string, b: string, i: nat, j: nat) returns (s: seq<Edit>)
    requires i <= |a| && j <= |b|
    ensures Optimal(w, s, a, b, i, j)
    decreases i + j
  {
    if i + j == 0 {
      OptimalNone(w, a, b);
      return [];
    }
    var e := SomeLastEdit(w, a, b, i, j);
    var t := SomeAsCheap(w, a, b, i - |From(e)|, j - |To(e)|);
    OptimalMore(w, t, e, a, b, i, j);
    s := t + [e];
  }

  /** The distance is the least cost of a script. */
  lemma DistanceIsLeast(a: string, b: string)
    ensures forall s | Turns(s, a, b) :: Distance(a, b) <= Cost(s)
    ensures exists s :: Turns(s, a, b) && Cost(s) == Distance(a, b)
  {
    assert a[..|a|] == a && b[..|b|] == b;
    forall s | Turns(s, a, b) ensures Distance(a, b) <= Cost(s) { NoneCheaper(true, s, a, b, |a|, |b|); }
    var s := SomeAsCheap(true, a, b, |a|, |b|);
    assert Turns(s, a, b);
  }

  /** The same without swaps. */
  lemma SwapFreeIsLeast(a: string, b: string)
    ensures forall s | Plain(s) && Turns(s, a, b) :: SwapFree(a, b) <= Cost(s)
    ensures exists s :: Plain(s) && Turns(s, a, b) && Cost(s) == SwapFree(a, b)
  {
    assert a[..|a|] == a && b[..|b|] == b;
    forall s | Plain(s) && Turns(s, a, b) ensures SwapFree(a, b) <= Cost(s) { NoneCheaper(false, s, a, b, |a|, |b|); }
    var s := SomeAsCheap(false, a, b, |a|, |b|);
    assert Turns(s, a, b);
  }

  // ------------------------------------------------------------ what follows from it

  function Undo(e: Edit): (u: Edit)
    ensures From(u) == To(e) && To(u) == From(e) && Price(u) == Price(e)
  {
    match e
    case Keep(c) => Keep(c)
    case Replace(x, y) => Replace(y, x)
    case Delete(x) => Insert(x)
    case Insert(y) => Delete(y)
    case Transpose(x, y) => Transpose(y, x)
  }

  function UndoAll(s: seq<Edit>): (u: seq<Edit>)
    ensures Source(u) == Target(s) && Target(u) == Source(s) && Cost(u) == Cost(s)
  {
    if s == [] then []
    else
      var u := UndoAll(s[..|s| - 1]);
      var e := Undo(s[|s| - 1]);
      assert (u + [e])[..|u|] == u;
      u + [e]
  }

  lemma Symmetric(a: string, b: string)
    ensures Distance(a, b) == Distance(b, a)
  {
    DistanceIsLeast(a, b);
    DistanceIsLeast(b, a);
    var s :| Turns(s, a, b) && Cost(s) == Distance(a, b);
    var t :| Turns(t, b, a) && Cost(t) == Distance(b, a);
    assert Turns(UndoAll(s), b, a) && Turns(UndoAll(t), a, b);
  }

  lemma {:induction false} FreeScriptsKeep(s: seq<Edit>)
    requires Cost(s) == 0
    ensures Source(s) == Target(s)
    decreases |s|
  {
    if s != [] { FreeScriptsKeep(s[..|s| - 1]); }
  }

  lemma {:induction false} EqualIsFree(a: string, i: nat)
    requires i <= |a|
    ensures D(true, a, a, i, i) == 0
  {
    if i > 0 { EqualIsFree(a, i - 1); }
  }

  lemma ZeroIffEqual(a: string, b: string)
    ensures Distance(a, b) == 0 <==> a == b
  {
    DistanceIsLeast(a, b);
    var s :| Turns(s, a, b) && Cost(s) == Distance(a, b);
    if Cost(s) == 0 { FreeScriptsKeep(s); }
    if a == b { EqualIsFree(a, |a|); }
  }

  lemma {:induction false} LengthsDiffer(s: seq<Edit>)
    ensures |Source(s)| - |Target(s)| <= Cost(s) && |Target(s)| - |Source(s)| <= Cost(s)
    decreases |s|
  {
    if s != [] { LengthsDiffer(s[..|s| - 1]); }
  }

  lemma {:induction false} AtMostLonger(a: string, b: string, i: nat, j: nat)
    requires i <= |a| && j <= |b|
    ensures D(true, a, b, i, j) <= i || D(true, a, b, i, j) <= j
  {
    if i > 0 && j > 0 { AtMostLonger(a, b, i - 1, j - 1); }
  }

  lemma Bounds(a: string, b: string)
    ensures Distance(a, b) >= |a| - |b| && Distance(a, b) >= |b| - |a|
    ensures Distance(a, b) <= |a| || Distance(a, b) <= |b|
  {
    DistanceIsLeast(a, b);
    var s :| Turns(s, a, b) && Cost(s) == Distance(a, b);
    LengthsDiffer(s);
    AtMostLonger(a, b, |a|, |b|);
  }

  // ------------------------------------------------------------ the triangle

  /** The two replacements that do what a swap does. */
  lemma Unswap(s: seq<Edit>, x: char, y: char) returns (u: seq<Edit>)
    ensures Source(u) == Source(s) + [x, y] && Target(u) == Target(s) + [y, x] && Cost(u) == Cost(s) + 2
    ensures Plain(s) ==> Plain(u)
  {
    var t := s + [Replace(x, y)];
    OneMore(s, Replace(x, y));
    OneMore(t, Replace(y, x));
    u := t + [Replace(y, x)];
    assert Source(s) + [x] + [y] == Source(s) + [x, y] && Target(s) + [y] + [x] == Target(s) + [y, x];
  }

  /** Every script has one without swaps that costs at most twice as much. */
  lemma {:induction false} WithoutSwaps(s: seq<Edit>) returns (u: seq<Edit>)
    ensures Plain(u) && Source(u) == Source(s) && Target(u) == Target(s) && Cost(u) <= 2 * Cost(s)
    decreases |s|
  {
    if s == [] { return []; }
    var e := s[|s| - 1];
    var t := WithoutSwaps(s[..|s| - 1]);
    if e.Transpose? {
      u := Unswap(t, e.x, e.y);
    } else {
      OneMore(t, e);
      u := t + [e];
    }
  }

  /** Swaps save something, but never more than half. */
  lemma SwapsSave(a: string, b: string)
    ensures Distance(a, b) <= SwapFree(a, b) <= 2 * Distance(a, b)
  {
    DistanceIsLeast(a, b);
    SwapFreeIsLeast(a, b);
    var s :| Turns(s, a, b) && Cost(s) == Distance(a, b);
    var t :| Plain(t) && Turns(t, a, b) && Cost(t) == SwapFree(a, b);
    var u := WithoutSwaps(s);
    assert Turns(u, a, b);
  }

  /** What an edit and one that takes up what it left do together, unless a character just comes and goes. */
  function Both(e: Edit, f: Edit): (r: Edit)
    requires !e.Transpose? && !f.Transpose? && |To(e)| == 1 && From(f) == To(e) && !(e.Insert? && f.Delete?)
    ensures !r.Transpose? && From(r) == From(e) && To(r) == To(f) && Price(r) <= Price(e) + Price(f)
  {
    if e.Insert? then Insert(To(f)[0])
    else if f.Delete? then Delete(From(e)[0])
    else if e.Keep? && f.Keep? then e
    else Replace(From(e)[0], To(f)[0])
  }

  lemma SameEnds(s: string, e: string, t: string, f: string)
    requires |e| == 1 && |f| == 1 && s + e == t + f
    ensures s == t && e == f
  {
    assert s == (s + e)[..|s|] && t == (t + f)[..|t|];
    assert e == (s + e)[|s|..] && f == (t + f)[|t|..];
  }

  /** The script does what the two do one after the other, at no higher cost. */
  predicate Composes(u: seq<Edit>, s: seq<Edit>, t: seq<Edit>) {
    Plain(u) && Turns(u, Source(s), Target(t)) && Cost(u) <= Cost(s) + Cost(t)
  }

  lemma LastGone(u: seq<Edit>, s: seq<Edit>, t: seq<Edit>)
    requires s != [] && s[|s| - 1].Delete? && Composes(u, s[..|s| - 1], t)
    ensures Composes(u + [s[|s| - 1]], s, t)
  {
    OneMore(u, s[|s| - 1]);
  }

  lemma LastNew(u: seq<Edit>, s: seq<Edit>, t: seq<Edit>)
    requires t != [] && t[|t| - 1].Insert? && Composes(u, s, t[..|t| - 1])
    ensures Composes(u + [t[|t| - 1]], s, t)
  {
    OneMore(u, t[|t| - 1]);
  }

  /** The last edits take up one character from each other. */
  lemma LastBoth(v: seq<Edit>, s: seq<Edit>, t: seq<Edit>) returns (u: seq<Edit>)
    requires Plain(s) && Plain(t) && s != [] && t != [] && !s[|s| - 1].Delete? && !t[|t| - 1].Insert?
    requires To(s[|s| - 1]) == From(t[|t| - 1]) && Composes(v, s[..|s| - 1], t[..|t| - 1])
    ensures Composes(u, s, t)
  {
    var e, f := s[|s| - 1], t[|t| - 1];
    if e.Insert? && f.Delete? { return v; }
    OneMore(v, Both(e, f));
    u := v + [Both(e, f)];
  }

  /** Scripts that fit together and do not end in a deletion or an insertion meet in their last characters. */
  lemma LastsMeet(s: seq<Edit>, t: seq<Edit>)
    requires Plain(s) && Plain(t) && Target(s) == Source(t)
    requires s != [] && t != [] && !s[|s| - 1].Delete? && !t[|t| - 1].Insert?
    ensures To(s[|s| - 1]) == From(t[|t| - 1]) && Target(s[..|s| - 1]) == Source(t[..|t| - 1])
  {
    OneTo(s[|s| - 1]);
    OneFrom(t[|t| - 1]);
    SameEnds(Target(s[..|s| - 1]), To(s[|s| - 1]), Source(t[..|t| - 1]), From(t[|t| - 1]));
  }

  lemma OneTo(e: Edit)
    requires !e.Delete? && !e.Transpose?
    ensures |To(e)| == 1
  {
  }

  lemma OneFrom(e: Edit)
    requires !e.Insert? && !e.Transpose?
    ensures |From(e)| == 1
  {
  }

  /** Both end together. */
  lemma EndsTogether(s: seq<Edit>, t: seq<Edit>)
    requires Plain(s) && Plain(t) && Target(s) == Source(t)
    ensures s == [] && t != [] ==> t[|t| - 1].Insert?
    ensures t == [] && s != [] ==> s[|s| - 1].Delete?
  {
    if s != [] && !s[|s| - 1].Delete? { OneTo(s[|s| - 1]); }
    if t != [] && !t[|t| - 1].Insert? { OneFrom(t[|t| - 1]); }
  }

  lemma DropDelete(s: seq<Edit>)
    requires s != [] && s[|s| - 1].Delete?
    ensures Target(s[..|s| - 1]) == Target(s)
  {
  }

  lemma DropInsert(t: seq<Edit>)
    requires t != [] && t[|t| - 1].Insert?
    ensures Source(t[..|t| - 1]) == Source(t)
  {
  }

  /** One after the other: two scripts without swaps make one, at no higher cost. */
  lemma {:induction false} Compose(s: seq<Edit>, t: seq<Edit>) returns (u: seq<Edit>)
    requires Plain(s) && Plain(t) && Target(s) == Source(t)
    ensures Composes(u, s, t)
    decreases |s| + |t|
  {
    EndsTogether(s, t);
    if s != [] && s[|s| - 1].Delete? {
      DropDelete(s);
      var v := Compose(s[..|s| - 1], t);
      LastGone(v, s, t);
      u := v + [s[|s| - 1]];
    } else if t != [] && t[|t| - 1].Insert? {
      DropInsert(t);
      var v := Compose(s, t[..|t| - 1]);
      LastNew(v, s, t);
      u := v + [t[|t| - 1]];
    } else if s != [] {
      LastsMeet(s, t);
      var v := Compose(s[..|s| - 1], t[..|t| - 1]);
      u := LastBoth(v, s, t);
    } else {
      u := [];
    }
  }

  /** Without swaps the triangle holds. */
  lemma SwapFreeTriangle(a: string, b: string, c: string)
    ensures SwapFree(a, c) <= SwapFree(a, b) + SwapFree(b, c)
  {
    SwapFreeIsLeast(a, b);
    SwapFreeIsLeast(b, c);
    SwapFreeIsLeast(a, c);
    var s :| Plain(s) && Turns(s, a, b) && Cost(s) == SwapFree(a, b);
    var t :| Plain(t) && Turns(t, b, c) && Cost(t) == SwapFree(b, c);
    var u := Compose(s, t);
  }

  /** With them it holds up to a factor of two, and as it stands wherever no swap makes the two shorter ways cheaper. */
  lemma Triangle(a: string, b: string, c: string)
    ensures Distance(a, c) <= SwapFree(a, b) + SwapFree(b, c)
    ensures Distance(a, c) <= 2 * (Distance(a, b) + Distance(b, c))
    ensures Distance(a, b) == SwapFree(a, b) && Distance(b, c) == SwapFree(b, c) ==>
                Distance(a, c) <= Distance(a, b) + Distance(b, c)
  {
    SwapsSave(a, b);
    SwapsSave(b, c);
    SwapsSave(a, c);
    SwapFreeTriangle(a, b, c);
  }

  /**
    It is no metric: a swap on one side is enough to break the triangle, if the other side
    separates what was swapped.
   */
  lemma NoTriangle()
    ensures Distance("CA", "AC") == 1 && Distance("AC", "ABC") == 1 && Distance("CA", "ABC") == 3
  {
    var a, b, c := "CA", "AC", "ABC";
    assert D(true, a, b, 1, 1) == 1 && D(true, a, b, 1, 2) == 1 && D(true, a, b, 2, 1) == 1;
    assert D(true, b, c, 1, 1) == 0 && D(true, b, c, 1, 2) == 1 && D(true, b, c, 1, 3) == 2;
    assert D(true, b, c, 2, 1) == 1 && D(true, b, c, 2, 2) == 1;
    assert D(true, a, c, 1, 1) == 1 && D(true, a, c, 1, 2) == 2 && D(true, a, c, 1, 3) == 2;
    assert D(true, a, c, 2, 1) == 1 && D(true, a, c, 2, 2) == 2;
  }

  // ------------------------------------------------------------ the table

  /** The least of a list, but never more than the largest 32 bit integer. */
  method Minimum(integers: seq<int>) returns (minVal: int)
    ensures minVal <= MAX_INT32 && forall k | 0 <= k < |integers| :: minVal <= integers[k]
    ensures minVal == MAX_INT32 || minVal in integers
  {
    minVal := MAX_INT32;
    for i := 0 to |integers|
      invariant minVal <= MAX_INT32 && forall k | 0 <= k < i :: minVal <= integers[k]
      invariant minVal == MAX_INT32 || minVal in integers[..i]
    {
      if integers[i] < minVal { minVal := integers[i]; }
      assert integers[..i + 1] == integers[..i] + [integers[i]];
    }
    assert integers[..|integers|] == integers;
  }

  /** What the table holds: inner cells are cut off at the largest 32 bit integer, the edges are not. */
  function Held(a: string, b: string, i: nat, j: nat): int
    requires i <= |a| && j <= |b|
  {
    if i == 0 || j == 0 then D(true, a, b, i, j) else Least(D(true, a, b, i, j), MAX_INT32)
  }

  lemma HeldCell(a: string, b: string, i: nat, j: nat)
    requires 0 < i <= |a| && 0 < j <= |b|
    ensures var swap := if Swapped(a, b, i, j) then Held(a, b, i - 2, j - 2) else 0;
            var cell := Cell(a[i - 1] == b[j - 1], Held(a, b, i - 1, j), Held(a, b, i, j - 1), Held(a, b, i - 1, j - 1),
                             Swapped(a, b, i, j), swap);
            Held(a, b, i, j) == Least(MAX_INT32, cell)
  {
  }

  /** Computes one inner cell from the cells before it. */
  method FillCell(a: string, b: string, d: array2<int>, i: nat, j: nat) returns (cell: int)
    requires d.Length0 == |a| + 1 && d.Length1 == |b| + 1 && 0 < i <= |a| && 0 < j <= |b|
    requires d[i - 1, j] == Held(a, b, i - 1, j) && d[i, j - 1] == Held(a, b, i, j - 1)
             && d[i - 1, j - 1] == Held(a, b, i - 1, j - 1)
    requires i > 1 && j > 1 ==> d[i - 2, j - 2] == Held(a, b, i - 2, j - 2)
    ensures cell == Held(a, b, i, j)
  {
    var swapped := i > 1 && j > 1 && a[i - 1] == b[j - 2] && a[i - 2] == b[j - 1];
    cell := CellValue(a[i - 1] == b[j - 1], d[i - 1, j], d[i, j - 1], d[i - 1, j - 1], swapped,
                      if swapped then d[i - 2, j - 2] else 0);
    HeldCell(a, b, i, j);
  }

  method CellValue(same: bool, up: int, left: int, diagonal: int, swapped: bool, swap: int) returns (cell: int)
    ensures cell == Least(MAX_INT32, Cell(same, up, left, diagonal, swapped, swap))
  {
    var cost := if same then 0 else 1;
    var xs := [up + 1, left + 1, diagonal + cost];
    cell := Minimum(xs);
    assert xs[0] == up + 1 && xs[1] == left + 1 && xs[2] == diagonal + cost;
    if swapped {
      var ys := [cell, swap + cost];
      assert ys[0] == cell && ys[1] == swap + cost;
      cell := Minimum(ys);
    }
  }

  /** Rows before `i` are filled, and row `i` up to `j`; so are the edges. */
  ghost predicate Filled(a: string, b: string, d: array2<int>, i: nat, j: nat)
    requires d.Length0 == |a| + 1 && d.Length1 == |b| + 1
    reads d
  {
    forall x, y | 0 <= x <= |a| && 0 <= y <= |b|
    && (x == 0 || y == 0 || x < i || (x == i && y < j)) :: d[x, y] == Held(a, b, x, y)
  }

  /** The distance; for two strings that are not empty cut off at the largest 32 bit integer. */
  method DamerauLevenshteinDistance(a: string, b: string) returns (distance: int)
    ensures distance == if a == "" || b == "" then Distance(a, b) else Least(Distance(a, b), MAX_INT32)
  {
    var d := new int[|a| + 1, |b| + 1]((x, y) => 0);
    for i := 0 to |a| + 1
      invariant forall x | 0 <= x < i :: d[x, 0] == x
    {
      d[i, 0] := i;
    }
    for j := 0 to |b| + 1
      invariant (forall x | 0 <= x <= |a| :: d[x, 0] == x) && (forall y | 0 <= y < j :: d[0, y] == y)
    {
      d[0, j] := j;
    }
    for i := 1 to |a| + 1
      invariant Filled(a, b, d, i, 1)
    {
      FillRow(a, b, d, i);
    }
    return d[|a|, |b|];
  }

  method FillRow(a: string, b: string, d: array2<int>, i: nat)
    requires d.Length0 == |a| + 1 && d.Length1 == |b| + 1 && 0 < i <= |a| && Filled(a, b, d, i, 1)
    modifies d
    ensures Filled(a, b, d, i + 1, 1)
  {
    for j := 1 to |b| + 1
      invariant Filled(a, b, d, i, j)
    {
      var cell := FillCell(a, b, d, i, j);
      d[i, j] := cell;
    }
  }
}
