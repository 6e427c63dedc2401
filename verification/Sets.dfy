/** Counting finite sets, and finding what they do not contain. */
module Sets {
  lemma Smaller<T>(a: set<T>, b: set<T>)
    requires a <= b
    ensures |a| <= |b| && (|a| == |b| ==> a == b)
  {
    assert b == a + (b - a);
  }

  lemma OneLess<T>(a: set<T>, x: T)
    ensures |a - {x}| == if x in a then |a| - 1 else |a|
  {
    if x in a {
      assert a == (a - {x}) + {x};
    } else {
      assert a - {x} == a;
    }
  }

  lemma OneApart<T>(a: set<T>, b: set<T>, x: T)
    requires forall y | y != x :: y in a <==> y in b
    ensures |a| - (if x in a then 1 else 0) == |b| - (if x in b then 1 else 0)
  {
    assert a - {x} == b - {x};
    OneLess(a, x);
    OneLess(b, x);
  }

  lemma Parts<T>(all: set<T>, a: set<T>, b: set<T>)
    requires a !! b && forall x :: x in all <==> x in a || x in b
    ensures |all| == |a| + |b|
  {
    assert all == a + b;
  }

  lemma Covered<T>(s: set<T>, a: set<T>, b: set<T>)
    requires a !! b && forall x | x in s :: x in a || x in b
    ensures |s| <= |a| + |b|
    ensures (forall x | x in a || x in b :: x in s) ==> |s| == |a| + |b|
  {
    Smaller(s, a + b);
    if forall x | x in a || x in b :: x in s { Parts(s, a, b); }
  }

  /** Two parts of a set that together outnumber it have an element in common. */
  lemma Meet<T>(all: set<T>, a: set<T>, b: set<T>) returns (x: T)
    requires a <= all && b <= all && |a| + |b| > |all|
    ensures x in a && x in b
  {
    if a * b == {} {
      assert |a + b| == |a| + |b|;
      Smaller(a + b, all);
      assert false;
    }
    x :| x in a * b;
  }

  /** The numbers below `n`. */
  function Upto(n: nat): (s: set<nat>)
    ensures |s| == n && forall i: nat :: i in s <==> i < n
  {
    if n == 0 then {} else Upto(n - 1) + {n - 1}
  }

  /** As many numbers below `n` as there are, are all of them. */
  lemma Everyone(done: set<nat>, n: nat)
    requires |done| >= n && forall i | i in done :: i < n
    ensures done == Upto(n)
  {
    assert Upto(n) == done + (Upto(n) - done);
    assert |Upto(n) - done| == 0;
  }

  lemma {:induction false} Largest(s: set<int>) returns (m: int)
    requires s != {}
    ensures m in s && forall n | n in s :: n <= m
    decreases |s|
  {
    m := Element(s);
    if s - {m} == {} {
      assert s == {m};
      return;
    }
    var k := Largest(s - {m});
    assert forall n | n in s :: n == m || n in s - {m};
    if k > m { m := k; }
  }

  lemma Element<T>(s: set<T>) returns (x: T)
    requires s != {}
    ensures x in s
  {
    x :| x in s;
  }

  /** A number above all of a finite set. */
  lemma {:induction false} SomeNat(taken: set<nat>) returns (n: nat)
    ensures forall m | m in taken :: m < n
  {
    if taken == {} { return 0; }
    var m :| m in taken;
    n := SomeNat(taken - {m});
    assert forall k | k in taken :: k == m || k in taken - {m};
    if m >= n { n := m + 1; }
  }

  function Xs(n: nat): (u: string)
    ensures |u| == n
  {
    if n == 0 then "" else Xs(n - 1) + "x"
  }

  lemma {:induction false} SomeLength(taken: set<string>) returns (n: nat)
    ensures forall u | u in taken :: |u| < n
  {
    if taken == {} { return 0; }
    var m :| m in taken;
    n := SomeLength(taken - {m});
    assert forall u | u in taken :: u == m || u in taken - {m};
    if |m| >= n { n := |m| + 1; }
  }

  /** A string outside a finite set. */
  lemma SomeString(taken: set<string>) returns (u: string)
    ensures u != "" && u !in taken
  {
    var n := SomeLength(taken);
    u := Xs(n + 1);
  }
}
