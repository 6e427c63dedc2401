/**
  Bucket policies: the order statements are evaluated in (cmd/bucket-policy-parser.go,
  cmd/bucket-policy-handlers.go) and the check that no resource is nested in another one.
 */
module BucketPolicy {
  import opened Seqs

  /** Resources are given without their ARN prefix. */
  datatype Statement = Statement(effect: string, actions: set<string>, resources: set<string>)

  const DENY := "Deny"
  const ALLOW := "Allow"

  predicate Valid(ss: seq<Statement>) {
    forall i | 0 <= i < |ss| :: ss[i].effect == DENY || ss[i].effect == ALLOW
  }

  // ------------------------------------------------------------ evaluation

  /** The statements among the first `k` that deny, or that do not. */
  function Those(ss: seq<Statement>, k: nat, deny: bool): seq<Statement>
    requires k <= |ss|
  {
    if k == 0 then [] else Those(ss, k - 1, deny) + (if (ss[k - 1].effect == DENY) == deny then [ss[k - 1]] else [])
  }

  function Normal(ss: seq<Statement>): seq<Statement> {
    Those(ss, |ss|, true) + Those(ss, |ss|, false)
  }

  /** The normalising half of parsing. */
  method Normalize(ss: seq<Statement>) returns (r: seq<Statement>)
    ensures r == Normal(ss)
  {
    var denyStatements, allowStatements: seq<Statement> := [], [];
    for i := 0 to |ss|
      invariant denyStatements == Those(ss, i, true) && allowStatements == Those(ss, i, false)
    {
      if ss[i].effect == DENY {
        denyStatements := denyStatements + [ss[i]];
      } else {
        allowStatements := allowStatements + [ss[i]];
      }
    }
    return denyStatements + allowStatements;
  }

  /** Whether a statement matches the request at hand. */
  type Request = Statement -> bool

  predicate SomeMatch(ss: seq<Statement>, matches: Request, effect: string) {
    exists i :: 0 <= i < |ss| && matches(ss[i]) && ss[i].effect == effect
  }

  /** The first statement that matches allows. */
  predicate FirstAllows(ss: seq<Statement>, matches: Request) {
    exists i | 0 <= i < |ss| :: matches(ss[i]) && ss[i].effect == ALLOW && forall k | 0 <= k < i :: !matches(ss[k])
  }

  /** First match decides; no match denies. */
  method EvalStatements(ss: seq<Statement>, matches: Request) returns (allowed: bool)
    ensures allowed <==> FirstAllows(ss, matches)
  {
    for i := 0 to |ss|
      invariant forall k | 0 <= k < i :: !matches(ss[k])
    {
      if matches(ss[i]) {
        return ss[i].effect == ALLOW;
      }
    }
    return false;
  }

  lemma {:induction false} ThoseAre(ss: seq<Statement>, k: nat, deny: bool)
    requires k <= |ss|
    ensures forall s :: s in Those(ss, k, deny) <==> s in ss[..k] && (s.effect == DENY) == deny
  {
    if k > 0 {
      ThoseAre(ss, k - 1, deny);
      assert ss[..k] == ss[..k - 1] + [ss[k - 1]];
    }
  }

  lemma NormalParts(ss: seq<Statement>)
    ensures forall s :: s in Those(ss, |ss|, true) <==> s in ss && s.effect == DENY
    ensures forall s :: s in Those(ss, |ss|, false) <==> s in ss && s.effect != DENY
  {
    ThoseAre(ss, |ss|, true);
    ThoseAre(ss, |ss|, false);
    assert ss[..|ss|] == ss;
  }

  lemma {:induction false} FirstMatch(ss: seq<Statement>, matches: Request, n: nat) returns (i: nat)
    requires n <= |ss|
    ensures i <= n && (i < n ==> matches(ss[i])) && forall k | 0 <= k < i :: !matches(ss[k])
  {
    if n == 0 { return 0; }
    i := FirstMatch(ss, matches, n - 1);
    if i == n - 1 && !matches(ss[i]) { i := n; }
  }

  /** Deny overrides: a normalised policy allows a request exactly if some Allow matches it and no Deny does. */
  lemma DenyOverrides(ss: seq<Statement>, matches: Request)
    requires Valid(ss)
    ensures FirstAllows(Normal(ss), matches) <==> SomeMatch(ss, matches, ALLOW) && !SomeMatch(ss, matches, DENY)
  {
    var d, a := Those(ss, |ss|, true), Those(ss, |ss|, false);
    NormalParts(ss);
    var first := FirstMatch(Normal(ss), matches, |Normal(ss)|);
    Split(d, a);
    if first < |d| {
      var s := d[first];
      assert s in d;
      var i :| 0 <= i < |ss| && ss[i] == s;
      assert SomeMatch(ss, matches, DENY);
    } else {
      forall i | 0 <= i < |ss| && ss[i].effect == DENY ensures !matches(ss[i]) {
        assert ss[i] in d;
        var k :| 0 <= k < |d| && d[k] == ss[i];
        assert Normal(ss)[k] == d[k];
      }
      if first < |d| + |a| {
        var s := a[first - |d|];
        assert s in a;
        var i :| 0 <= i < |ss| && ss[i] == s;
        assert SomeMatch(ss, matches, ALLOW);
      } else {
        forall i | 0 <= i < |ss| && ss[i].effect == ALLOW ensures !matches(ss[i]) {
          assert ss[i] in a;
          var k :| 0 <= k < |a| && a[k] == ss[i];
          assert Normal(ss)[|d| + k] == a[k];
        }
      }
    }
  }

  lemma Split(d: seq<Statement>, a: seq<Statement>)
    ensures forall k | 0 <= k < |d| + |a| :: (d + a)[k] == if k < |d| then d[k] else a[k - |d|]
  {
  }

  /** Over the denying half only denying statements are collected; */
  lemma {:induction false} ThoseOfDeny(d: seq<Statement>, a: seq<Statement>, k: nat)
    requires k <= |d| && forall i | 0 <= i < |d| :: d[i].effect == DENY
    ensures Those(d + a, k, true) == d[..k] && Those(d + a, k, false) == []
  {
    if k > 0 {
      ThoseOfDeny(d, a, k - 1);
      assert d[..k] == d[..k - 1] + [d[k - 1]];
    }
  }

  /** over the rest only the others. */
  lemma {:induction false} ThoseOfAllow(d: seq<Statement>, a: seq<Statement>, k: nat)
    requires k <= |a| && (forall i | 0 <= i < |d| :: d[i].effect == DENY)
             && (forall i | 0 <= i < |a| :: a[i].effect != DENY)
    ensures Those(d + a, |d| + k, true) == d && Those(d + a, |d| + k, false) == a[..k]
  {
    if k == 0 {
      ThoseOfDeny(d, a, |d|);
    } else {
      ThoseOfAllow(d, a, k - 1);
      assert (d + a)[|d| + k - 1] == a[k - 1];
      assert a[..k] == a[..k - 1] + [a[k - 1]];
    }
  }

  lemma DenyFirstIsNormal(d: seq<Statement>, a: seq<Statement>)
    requires (forall i | 0 <= i < |d| :: d[i].effect == DENY) && (forall i | 0 <= i < |a| :: a[i].effect != DENY)
    ensures Normal(d + a) == d + a
  {
    ThoseOfAllow(d, a, |a|);
  }

  lemma {:induction false} EffectsOfThose(ss: seq<Statement>, k: nat, deny: bool)
    requires k <= |ss|
    ensures forall i | 0 <= i < |Those(ss, k, deny)| :: (Those(ss, k, deny)[i].effect == DENY) == deny
  {
    if k > 0 { EffectsOfThose(ss, k - 1, deny); }
  }

  /** Normalising again changes nothing. */
  lemma NormalIsNormal(ss: seq<Statement>)
    ensures Normal(Normal(ss)) == Normal(ss)
  {
    EffectsOfThose(ss, |ss|, true);
    EffectsOfThose(ss, |ss|, false);
    DenyFirstIsNormal(Those(ss, |ss|, true), Those(ss, |ss|, false));
  }

  // ------------------------------------------------------------ nesting

  /** Lexicographic order. */
  predicate AtMost(a: string, b: string) {
    a == "" || (b != "" && (a[0] < b[0] || (a[0] == b[0] && AtMost(a[1..], b[1..]))))
  }

  lemma {:induction false} Total(a: string, b: string)
    ensures AtMost(a, b) || AtMost(b, a)
  {
    if a != "" && b != "" && a[0] == b[0] { Total(a[1..], b[1..]); }
  }

  lemma {:induction false} Transitive(a: string, b: string, c: string)
    requires AtMost(a, b) && AtMost(b, c)
    ensures AtMost(a, c)
  {
    if a != "" && a[0] == b[0] == c[0] { Transitive(a[1..], b[1..], c[1..]); }
  }

  lemma {:induction false} Antisymmetric(a: string, b: string)
    requires AtMost(a, b) && AtMost(b, a)
    ensures a == b
  {
    if a != "" {
      Antisymmetric(a[1..], b[1..]);
      assert a == [a[0]] + a[1..] && b == [b[0]] + b[1..];
    }
  }

  /** A prefix comes first. */
  lemma {:induction false} PrefixFirst(a: string, b: string)
    requires a <= b
    ensures AtMost(a, b)
  {
    if a != "" {
      assert a[1..] <= b[1..];
      PrefixFirst(a[1..], b[1..]);
    }
  }

  predicate Sorted(rs: seq<string>) {
    forall i, k | 0 <= i < k < |rs| :: AtMost(rs[i], rs[k])
  }

  /** Inserts a string into a sorted list. */
  method InsertString(rs: seq<string>, r: string) returns (out: seq<string>)
    requires Sorted(rs)
    ensures Sorted(out) && multiset(out) == multiset(rs) + multiset{r}
  {
    var k := |rs|;
    while k > 0 && !AtMost(rs[k - 1], r)
      invariant 0 <= k <= |rs| && forall i | k <= i < |rs| :: AtMost(r, rs[i])
    {
      Total(rs[k - 1], r);
      k := k - 1;
    }
    InsertedSorted(rs, r, k);
    Spliced(rs, r, k);
    return rs[..k] + [r] + rs[k..];
  }

  lemma InsertedSorted(rs: seq<string>, r: string, k: nat)
    requires Sorted(rs) && k <= |rs| && (k > 0 ==> AtMost(rs[k - 1], r)) && forall i | k <= i < |rs| :: AtMost(r, rs[i])
    ensures Sorted(rs[..k] + [r] + rs[k..])
  {
    forall i | 0 <= i < k ensures AtMost(rs[i], r) {
      if i < k - 1 { Transitive(rs[i], rs[k - 1], r); }
    }
  }

  method SortStrings(rs: seq<string>) returns (out: seq<string>)
    ensures Sorted(out) && multiset(out) == multiset(rs)
  {
    out := [];
    for k := 0 to |rs|
      invariant Sorted(out) && multiset(out) == multiset(rs[..k])
    {
      assert rs[..k + 1] == rs[..k] + [rs[k]];
      out := InsertString(out, rs[k]);
    }
    assert rs[..|rs|] == rs;
  }

  /** Two of the list, at different places, of which one is a prefix of the other. */
  ghost predicate Nested(rs: seq<string>) {
    exists i, k :: 0 <= i < |rs| && 0 <= k < |rs| && i != k && rs[i] <= rs[k]
  }

  /** Compares each string with those behind it. */
  method ScanForNesting(rs: seq<string>) returns (nested: bool)
    requires Sorted(rs)
    ensures nested <==> Nested(rs)
  {
    for i := 0 to |rs|
      invariant forall x, y | 0 <= x < i && x < y < |rs| :: !(rs[x] <= rs[y])
    {
      for k := i + 1 to |rs|
        invariant forall y | i < y < k :: !(rs[i] <= rs[y])
      {
        if rs[i] <= rs[k] { return true; }
      }
    }
    forall x, y | 0 <= y < x < |rs| ensures !(rs[x] <= rs[y]) {
      LaterIsNoPrefix(rs, x, y);
    }
    return false;
  }

  /** In a sorted list a string can only be a prefix of a later one, or equal. */
  lemma LaterIsNoPrefix(rs: seq<string>, x: nat, y: nat)
    requires Sorted(rs) && y < x < |rs| && !(rs[y] <= rs[x])
    ensures !(rs[x] <= rs[y])
  {
    if rs[x] <= rs[y] {
      PrefixFirst(rs[x], rs[y]);
      Antisymmetric(rs[x], rs[y]);
    }
  }

  // ------------------------------------------------------------ the resource check

  const NO_PREFIX_ACTIONS := {"s3:GetBucketLocation", "s3:ListBucket", "s3:ListBucketMultipartUploads"}

  /** The part before the first slash. */
  function Head(r: string): string {
    if r == "" || r[0] == '/' then "" else [r[0]] + Head(r[1..])
  }

  /** The resource without a star at its end. */
  function Trimmed(r: string): (t: string)
    ensures r == t || r == t + "*"
  {
    if r != "" && r[|r| - 1] == '*' then r[..|r| - 1] else r
  }

  predicate Offends(bucket: string, action: string, r: string) {
    if action in NO_PREFIX_ACTIONS then r != bucket else Head(r) != bucket
  }

  predicate Malformed(bucket: string, ss: seq<Statement>) {
    exists i | 0 <= i < |ss| :: StatementOffends(bucket, ss[i])
  }

  predicate StatementOffends(bucket: string, s: Statement) {
    exists action, r :: action in s.actions && r in s.resources && Offends(bucket, action, r)
  }

  predicate Collects(s: Statement, r: string) {
    r in s.resources && exists action :: action in s.actions && action !in NO_PREFIX_ACTIONS
  }

  /** The resources whose nesting is checked. */
  predicate Collected(ss: seq<Statement>, r: string) {
    exists i | 0 <= i < |ss| :: Collects(ss[i], r)
  }

  datatype PolicyCode = NoError | MalformedPolicy | PolicyNesting

  /** One statement: every action against every resource. */
  method CollectStatement(bucket: string, s: Statement, resourceMap: set<string>) returns (bad: bool, out: set<string>)
    ensures bad <==> StatementOffends(bucket, s)
    ensures !bad ==> forall r :: r in out <==> r in resourceMap || Collects(s, r)
  {
    out := resourceMap;
    var actions := s.actions;
    while actions != {}
      invariant actions <= s.actions
      invariant forall action, r :: action in s.actions - actions && r in s.resources ==> !Offends(bucket, action, r)
      invariant forall r ::
                r in out
                <==>
                r in resourceMap
                || (r in s.resources && exists action :: action in s.actions - actions && action !in NO_PREFIX_ACTIONS)
      decreases |actions|
    {
      var action :| action in actions;
      bad := CheckAction(bucket, action, s.resources);
      if bad { return; }
      if action !in NO_PREFIX_ACTIONS { out := out + s.resources; }
      actions := actions - {action};
    }
    bad := false;
  }

  method CheckAction(bucket: string, action: string, resources: set<string>) returns (bad: bool)
    ensures bad <==> exists r :: r in resources && Offends(bucket, action, r)
  {
    var left := resources;
    while left != {}
      invariant left <= resources && forall r | r in resources - left :: !Offends(bucket, action, r)
      decreases |left|
    {
      var r :| r in left;
      if Offends(bucket, action, r) { return true; }
      left := left - {r};
    }
    return false;
  }

  /** Two different resources of which one, trimmed, is a prefix of the other. */
  ghost predicate NestedIn(rs: set<string>) {
    exists r, s :: r in rs && s in rs && r != s && Trimmed(r) <= Trimmed(s)
  }

  /** Lists the trimmed resources of a set; `names` tells which each one came from. */
  method TrimAll(rs: set<string>) returns (out: seq<string>, ghost names: seq<string>)
    ensures |names| == |out| && forall k | 0 <= k < |out| :: out[k] == Trimmed(names[k])
    ensures (forall r :: r in rs <==> r in names) && forall i, k | 0 <= i < k < |names| :: names[i] != names[k]
  {
    out, names := [], [];
    var left := rs;
    while left != {}
      invariant left <= rs && |names| == |out| && forall k | 0 <= k < |out| :: out[k] == Trimmed(names[k])
      invariant (forall r :: r in rs - left <==> r in names)
                && forall i, k | 0 <= i < k < |names| :: names[i] != names[k]
      decreases |left|
    {
      var r :| r in left;
      assert r !in names;
      out, names := out + [Trimmed(r)], names + [r];
      left := left - {r};
    }
  }

  lemma NestedNames(rs: set<string>, out: seq<string>, names: seq<string>)
    requires |names| == |out| && forall k | 0 <= k < |out| :: out[k] == Trimmed(names[k])
    requires (forall r :: r in rs <==> r in names) && forall i, k | 0 <= i < k < |names| :: names[i] != names[k]
    ensures Nested(out) <==> NestedIn(rs)
  {
    if Nested(out) {
      var i, k :| 0 <= i < |out| && 0 <= k < |out| && i != k && out[i] <= out[k];
      assert names[i] in rs && names[k] in rs && names[i] != names[k];
    }
    if NestedIn(rs) {
      var r, s :| r in rs && s in rs && r != s && Trimmed(r) <= Trimmed(s);
      var i :| 0 <= i < |names| && names[i] == r;
      var k :| 0 <= k < |names| && names[k] == s;
      assert out[i] <= out[k];
    }
  }

  /** Two of the multiset. */
  ghost predicate NestedPair(m: multiset<string>) {
    exists x, y :: multiset{x, y} <= m && x <= y
  }

  lemma NestedIsPair(rs: seq<string>)
    ensures Nested(rs) <==> NestedPair(multiset(rs))
  {
    if Nested(rs) {
      var i, k :| 0 <= i < |rs| && 0 <= k < |rs| && i != k && rs[i] <= rs[k];
      TwoOf(rs, i, k);
    }
    if NestedPair(multiset(rs)) {
      var x, y :| multiset{x, y} <= multiset(rs) && x <= y;
      var i, k := Places(rs, x, y);
    }
  }

  lemma Without(rs: seq<string>, i: nat)
    requires i < |rs|
    ensures multiset(rs) == multiset(rs[..i] + rs[i + 1..]) + multiset{rs[i]}
  {
    assert rs == rs[..i] + [rs[i]] + rs[i + 1..];
  }

  lemma TwoOf(rs: seq<string>, i: nat, k: nat)
    requires i < |rs| && k < |rs| && i != k
    ensures multiset{rs[i], rs[k]} <= multiset(rs)
  {
    Without(rs, i);
    var rest := rs[..i] + rs[i + 1..];
    assert rest[if k < i then k else k - 1] == rs[k];
    assert rs[k] in multiset(rest);
  }

  lemma Places(rs: seq<string>, x: string, y: string) returns (i: nat, k: nat)
    requires multiset{x, y} <= multiset(rs)
    ensures i < |rs| && k < |rs| && i != k && rs[i] == x && rs[k] == y
  {
    assert x in multiset{x, y} && x in multiset(rs);
    i :| i < |rs| && rs[i] == x;
    Without(rs, i);
    var rest := rs[..i] + rs[i + 1..];
    assert multiset{x, y} == multiset{x} + multiset{y};
    assert y in multiset(rest);
    var m :| 0 <= m < |rest| && rest[m] == y;
    k := if m < i then m else m + 1;
  }

  /** Sorting keeps what is nested. */
  lemma NestedAnyOrder(a: seq<string>, b: seq<string>)
    requires multiset(a) == multiset(b)
    ensures Nested(a) <==> Nested(b)
  {
    NestedIsPair(a);
    NestedIsPair(b);
  }

  /** What a resource that ends in a star stands for: everything that starts with what is before it. */
  predicate Covers(r: string, x: string) {
    if r != "" && r[|r| - 1] == '*' then r[..|r| - 1] <= x else r == x
  }

  /** Two resources that end in a star cover something in common exactly if they count as nested. */
  lemma StarsOverlapIff(r: string, s: string)
    requires r != "" && s != "" && r[|r| - 1] == '*' && s[|s| - 1] == '*'
    ensures (exists x :: Covers(r, x) && Covers(s, x)) <==> Trimmed(r) <= Trimmed(s) || Trimmed(s) <= Trimmed(r)
  {
    var p, q := r[..|r| - 1], s[..|s| - 1];
    assert Trimmed(r) == p && Trimmed(s) == q;
    if p <= q { assert Covers(r, q) && Covers(s, q); }
    if q <= p { assert Covers(r, p) && Covers(s, p); }
    if x :| Covers(r, x) && Covers(s, x) {
      if |p| <= |q| { assert x[..|q|][..|p|] == x[..|p|]; } else { assert x[..|p|][..|q|] == x[..|q|]; }
    }
  }

  predicate BucketAction(action: string) {
    action == "s3:GetBucketLocation" || action == "s3:ListBucket" || action == "s3:ListBucketMultipartUploads"
  }

  /** Bucket actions go with the bucket itself, all others with it or with something in it. */
  predicate Goes(bucket: string, action: string, r: string) {
    r == bucket || (bucket + "/" <= r && !BucketAction(action))
  }

  /** Some statement has the resource and an action that is not about the bucket itself. */
  ghost predicate HasObjectAction(ss: seq<Statement>, r: string) {
    exists i, action :: 0 <= i < |ss| && r in ss[i].resources && action in ss[i].actions && !BucketAction(action)
  }

  lemma CollectedExactly(ss: seq<Statement>, r: string)
    ensures Collected(ss, r) <==> HasObjectAction(ss, r)
  {
    if Collected(ss, r) {
      var i :| 0 <= i < |ss| && Collects(ss[i], r);
      var action :| action in ss[i].actions && action !in NO_PREFIX_ACTIONS;
      assert !BucketAction(action);
    }
    if HasObjectAction(ss, r) {
      var i, action :| 0 <= i < |ss| && r in ss[i].resources && action in ss[i].actions && !BucketAction(action);
      assert action !in NO_PREFIX_ACTIONS;
      assert Collects(ss[i], r);
    }
  }

  /** Bucket names have no slash, so the part before the first slash tells what is in a bucket. */
  lemma {:induction false} HeadTells(bucket: string, r: string)
    requires '/' !in bucket
    ensures Head(r) == bucket <==> r == bucket || bucket + "/" <= r
  {
    if r != "" && r[0] != '/' {
      if bucket != "" {
        HeadTells(bucket[1..], r[1..]);
        assert r == [r[0]] + r[1..] && bucket == [bucket[0]] + bucket[1..];
        assert bucket + "/" == [bucket[0]] + (bucket[1..] + "/");
        assert bucket + "/" <= r <==> bucket[0] == r[0] && bucket[1..] + "/" <= r[1..];
      }
    }
  }

  lemma OffendsExactly(bucket: string, action: string, r: string)
    requires '/' !in bucket
    ensures Offends(bucket, action, r) <==> !Goes(bucket, action, r)
  {
    HeadTells(bucket, r);
  }

  lemma MalformedExactly(bucket: string, ss: seq<Statement>)
    requires '/' !in bucket
    ensures Malformed(bucket, ss) <==> exists i, action, r :: 0 <= i < |ss| && action in ss[i].actions
                                                        && r in ss[i].resources && !Goes(bucket, action, r)
  {
    forall action, r ensures Offends(bucket, action, r) <==> !Goes(bucket, action, r) {
      OffendsExactly(bucket, action, r);
    }
    forall i | 0 <= i < |ss|
      ensures StatementOffends(bucket, ss[i]) <==>
              exists action, r :: action in ss[i].actions && r in ss[i].resources && !Goes(bucket, action, r)
    {
    }
  }

  method CheckBucketPolicyResources(bucket: string, ss: seq<Statement>) returns (code: PolicyCode)
    ensures code == MalformedPolicy <==> Malformed(bucket, ss)
    ensures code == PolicyNesting <==>
            !Malformed(bucket, ss) && exists r, s :: Collected(ss, r) && Collected(ss, s) && r != s
                                                     && Trimmed(r) <= Trimmed(s)
    ensures '/' !in bucket ==>
              (code == MalformedPolicy <==> exists i, action, r :: 0 <= i < |ss| && action in ss[i].actions
                                                && r in ss[i].resources && !Goes(bucket, action, r))
    ensures code == PolicyNesting <==>
            code != MalformedPolicy && exists r, s :: HasObjectAction(ss, r) && HasObjectAction(ss, s) && r != s
                                                      && Trimmed(r) <= Trimmed(s)
  {
    if '/' !in bucket { MalformedExactly(bucket, ss); }
    forall r ensures Collected(ss, r) <==> HasObjectAction(ss, r) { CollectedExactly(ss, r); }
    var resourceMap: set<string> := {};
    for i := 0 to |ss|
      invariant forall k | 0 <= k < i :: !StatementOffends(bucket, ss[k])
      invariant forall r :: r in resourceMap <==> exists k | 0 <= k < i :: Collects(ss[k], r)
    {
      var bad, more := CollectStatement(bucket, ss[i], resourceMap);
      if bad { return MalformedPolicy; }
      resourceMap := more;
    }
    var resources, names := TrimAll(resourceMap);
    NestedNames(resourceMap, resources, names);
    var sorted := SortStrings(resources);
    NestedAnyOrder(sorted, resources);
    var nested := ScanForNesting(sorted);
    assert forall r :: r in resourceMap <==> Collected(ss, r);
    if nested { return PolicyNesting; }
    return NoError;
  }
}
