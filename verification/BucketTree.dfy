/**
  The directory tree that holds the objects of one bucket on the FS backend
  (cmd/fs-v1-helpers.go, cmd/fs-v1.go). A key is the sequence of the names on its path;
  the bucket itself is the empty path. The tree refines a map of keys in which no key lies
  inside another one.
 */
module BucketTree {
  import opened Wrappers

  type Path = seq<string>

  type Keys = map<Path, Bytes>

  datatype FsError = FileNotFound | NotADirectory | IsADirectory | VolumeNotEmpty | VolumeNotFound

  function Parent(p: Path): Path
    requires p != []
  {
    p[..|p| - 1]
  }

  /** Some key lies below the path. */
  predicate Above(files: Keys, p: Path) {
    exists k :: k in files && p < k
  }

  /** Some key lies on the way to the path. */
  predicate Below(files: Keys, p: Path) {
    exists k :: k in files && k < p
  }

  /** Directories are exactly the bucket and the paths that have a key below them. */
  ghost predicate Tidy(files: Keys, dirs: set<Path>) {
    && (forall p :: p in dirs <==> p == [] || Above(files, p))
    && (forall k | k in files :: k != [] && !Above(files, k))
  }

  /** No key lies inside another one. */
  ghost predicate PrefixFree(files: Keys) {
    forall k, l | k in files && l in files :: !(k < l)
  }

  lemma TidyIsPrefixFree(files: Keys, dirs: set<Path>)
    requires Tidy(files, dirs)
    ensures PrefixFree(files) && files.Keys !! dirs
  {
  }

  /** The directories a set of keys needs. */
  function DirsOf(files: Keys): set<Path> {
    {[]} + set k, i | k in files && 0 <= i < |k| :: k[..i]
  }

  lemma DirsAreTidy(files: Keys)
    requires PrefixFree(files) && [] !in files
    ensures Tidy(files, DirsOf(files))
  {
    forall p ensures p in DirsOf(files) <==> p == [] || Above(files, p) {
      if p != [] && p in DirsOf(files) {
        var k, i :| k in files && 0 <= i < |k| && p == k[..i];
        assert p < k;
      }
      if Above(files, p) {
        var k :| k in files && p < k;
        assert p == k[..|p|];
      }
    }
  }

  /** Keys can be held by a tree exactly if none lies inside another one. */
  lemma HeldIffPrefixFree(files: Keys)
    ensures (exists dirs :: Tidy(files, dirs)) <==> PrefixFree(files) && [] !in files
  {
    if PrefixFree(files) && [] !in files { DirsAreTidy(files); }
    forall dirs | Tidy(files, dirs) ensures PrefixFree(files) && [] !in files { TidyIsPrefixFree(files, dirs); }
  }

  /** The tree has no memory: it is determined by the keys it holds. */
  lemma TreeIsItsKeys(files: Keys, dirs: set<Path>, others: set<Path>)
    requires Tidy(files, dirs) && Tidy(files, others)
    ensures dirs == others
  {
  }

  /** A put is possible exactly if the key lies neither inside nor around another one. */
  predicate CanPut(files: Keys, key: Path) {
    !Above(files, key) && !Below(files, key)
  }

  /** Some entry is directly inside the directory. */
  predicate HasEntry(files: Keys, dirs: set<Path>, p: Path) {
    (exists q :: q in files && q != [] && Parent(q) == p) || (exists q :: q in dirs && q != [] && Parent(q) == p)
  }

  /** Every entry is inside a directory, and nothing is both a file and a directory. */
  ghost predicate Rooted(files: Keys, dirs: set<Path>) {
    && [] in dirs && (forall p | p in dirs && p != [] :: Parent(p) in dirs)
    && (forall k | k in files :: k != [] && k !in dirs && Parent(k) in dirs)
  }

  lemma TidyIsRooted(files: Keys, dirs: set<Path>)
    requires Tidy(files, dirs)
    ensures Rooted(files, dirs)
  {
    forall p | p in dirs && p != [] ensures Parent(p) in dirs {
      var k :| k in files && p < k;
      assert Parent(p) < k;
    }
    forall k | k in files ensures Parent(k) in dirs {
      assert Parent(k) < k;
    }
  }

  lemma {:induction false} RootedUp(files: Keys, dirs: set<Path>, p: Path, q: Path)
    requires Rooted(files, dirs) && p in dirs && q <= p
    ensures q in dirs && q !in files
    decreases |p|
  {
    if q != p {
      assert q <= Parent(p);
      RootedUp(files, dirs, Parent(p), q);
    }
  }

  lemma UpOne(q: Path, p: Path)
    requires p != []
    ensures q <= p <==> q == p || q <= Parent(p)
    ensures q < p <==> q <= Parent(p)
  {
  }

  /** The directories after all missing ones on the way to `p` and `p` itself were made. */
  ghost predicate Made(was: set<Path>, now: set<Path>, p: Path) {
    forall q :: q in now <==> q in was || q <= p
  }

  lemma MadeOne(was: set<Path>, now: set<Path>, p: Path)
    requires p != [] && Made(was, now, Parent(p))
    ensures Made(was, now + {p}, p)
  {
    forall q ensures q in now + {p} <==> q in was || q <= p { UpOne(q, p); }
  }

  /** Tidy but for the directories on the way to `p`, which may have lost their last key. */
  ghost predicate Pending(files: Keys, dirs: set<Path>, p: Path) {
    && (forall q :: q in dirs <==> q == [] || Above(files, q) || q <= p)
    && (forall k | k in files :: k != [] && !Above(files, k) && !(k <= p))
  }

  lemma PutKeepsTidy(files: Keys, dirs: set<Path>, now: set<Path>, key: Path, data: Bytes)
    requires Tidy(files, dirs) && key != [] && CanPut(files, key) && Made(dirs, now, Parent(key))
    ensures Tidy(files[key := data], now)
  {
    var files' := files[key := data];
    forall p ensures p in now <==> p == [] || Above(files', p) {
      if p <= Parent(key) { assert p < key && key in files'; }
      if k :| k in files' && p < k { if k != key { assert k in files; } else { assert p <= Parent(key); } }
      if k :| k in files && p < k { assert k in files'; }
    }
    forall k | k in files' ensures !Above(files', k) {
      assert forall l | l in files' && l != key :: l in files;
    }
  }

  lemma RemovedIsPending(files: Keys, dirs: set<Path>, key: Path)
    requires Tidy(files, dirs) && key in files
    ensures Pending(files - {key}, dirs, Parent(key))
  {
    var left := files - {key};
    forall q ensures q in dirs <==> q == [] || Above(left, q) || q <= Parent(key) {
      if k :| k in files && q < k { if k == key { assert q <= Parent(key); } else { assert k in left; } }
      if q <= Parent(key) { assert q < key; }
      if k :| k in left && q < k { assert k in files; }
    }
    forall k | k in left ensures !Above(left, k) && !(k <= Parent(key)) {
      UpOne(k, key);
      assert !(k < key);
      assert forall l | l in left :: l in files;
    }
  }

  /** A directory with an entry still has a key below it. */
  lemma EntryMeansKey(files: Keys, dirs: set<Path>, p: Path)
    requires Pending(files, dirs, p)
    ensures HasEntry(files, dirs, p) <==> Above(files, p)
  {
    if q :| q in files && q != [] && Parent(q) == p {
      assert p < q;
    }
    if q :| q in dirs && q != [] && Parent(q) == p {
      assert p < q && !(q <= p);
      var k :| k in files && q < k;
      assert p < k;
    }
    if k :| k in files && p < k {
      var q := k[..|p| + 1];
      assert Parent(q) == p;
      if q != k { assert q < k; }
    }
  }

  lemma KeptIsTidy(files: Keys, dirs: set<Path>, p: Path)
    requires Pending(files, dirs, p) && (p == [] || Above(files, p))
    ensures Tidy(files, dirs)
  {
    forall q | q <= p && q != [] ensures Above(files, q) {
      var k :| k in files && p < k;
      assert q < k;
    }
  }

  lemma EmptiedIsPending(files: Keys, dirs: set<Path>, p: Path)
    requires Pending(files, dirs, p) && p != [] && !Above(files, p)
    ensures Pending(files, dirs - {p}, Parent(p))
  {
    forall q ensures q in dirs - {p} <==> q == [] || Above(files, q) || q <= Parent(p) {
      if q <= p && q != p { assert q <= Parent(p); }
      if q <= Parent(p) { assert q <= p && q != p; }
    }
    forall k | k in files ensures !(k <= Parent(p)) {
      UpOne(k, p);
    }
  }

  // ------------------------------------------------------------ the key map it refines

  datatype Op = Put(key: Path, data: Bytes) | Delete(key: Path) | DropBucket

  /** A bucket that is there, with its keys, or not. */
  type KeyMap = Option<Keys>

  predicate Succeeds(m: KeyMap, op: Op) {
    m.Some? && match op
               case Put(key, _) => CanPut(m.value, key)
               case Delete(key) => key == [] || key in m.value || Above(m.value, key)
               case DropBucket => m.value == map[]
  }

  function Apply(m: KeyMap, op: Op): KeyMap {
    if !Succeeds(m, op) then m
    else match op
         case Put(key, data) => Some(m.value[key := data])
         case Delete(key) => Some(m.value - {key})
         case DropBucket => None
  }

  function ApplyAll(m: KeyMap, ops: seq<Op>): KeyMap
    decreases |ops|
  {
    if ops == [] then m else ApplyAll(Apply(m, ops[0]), ops[1..])
  }

  /** Keys stay prefix-free over every run of puts and deletes. */
  lemma {:induction false} RunsStayPrefixFree(m: KeyMap, ops: seq<Op>)
    requires m.Some? ==> PrefixFree(m.value)
    ensures ApplyAll(m, ops).Some? ==> PrefixFree(ApplyAll(m, ops).value)
    decreases |ops|
  {
    if ops != [] { RunsStayPrefixFree(Apply(m, ops[0]), ops[1..]); }
  }

  /** Deleting a key that was just put for the first time undoes the put. */
  lemma DeleteUndoesPut(m: KeyMap, key: Path, data: Bytes)
    requires Succeeds(m, Put(key, data)) && key !in m.value
    ensures Succeeds(Apply(m, Put(key, data)), Delete(key))
    ensures Apply(Apply(m, Put(key, data)), Delete(key)) == m
  {
    assert m.value[key := data] - {key} == m.value;
  }

  /** Deleting a path that only has keys below it succeeds and deletes nothing. */
  lemma DeleteOfDirectoryDoesNothing(m: KeyMap, key: Path)
    requires m.Some? && PrefixFree(m.value) && Above(m.value, key)
    ensures Succeeds(m, Delete(key)) && Apply(m, Delete(key)) == m
  {
    assert m.value - {key} == m.value;
  }

  class Bucket {
    var files: Keys
    var dirs: set<Path>
    var present: bool

    ghost predicate Valid()
      reads this
    {
      present ==> Tidy(files, dirs)
    }

    function View(): KeyMap
      reads this
    {
      if present then Some(files) else None
    }

    constructor ()
      ensures Valid() && View() == Some(map[])
    {
      files, dirs, present := map[], {[]}, true;
    }

    method PutObject(key: Path, data: Bytes) returns (err: Option<FsError>)
      requires Valid() && key != []
      modifies this
      ensures Valid() && View() == Apply(old(View()), Put(key, data))
      ensures err.None? <==> Succeeds(old(View()), Put(key, data))
    {
      if !present { return Some(VolumeNotFound); }
      err := RenameFile(key, data);
    }

    method DeleteObject(key: Path) returns (err: Option<FsError>)
      requires Valid()
      modifies this
      ensures Valid() && View() == Apply(old(View()), Delete(key))
      ensures err.None? <==> Succeeds(old(View()), Delete(key))
    {
      if !present { return Some(VolumeNotFound); }
      if key in dirs { assert files - {key} == files; }
      err := DeleteFile(key);
    }

    /** Only an empty bucket directory can be removed. */
    method DeleteBucket() returns (err: Option<FsError>)
      requires Valid()
      modifies this
      ensures Valid() && View() == Apply(old(View()), DropBucket)
      ensures err.None? <==> Succeeds(old(View()), DropBucket)
    {
      if !present { return Some(VolumeNotFound); }
      EmptyIffNoKeys(files, dirs);
      if HasEntry(files, dirs, []) { return Some(VolumeNotEmpty); }
      present, dirs := false, {};
      return None;
    }

    /** Makes a directory and those above it; refused if a file is on the way. */
    method MkdirAll(p: Path) returns (err: Option<FsError>)
      requires Rooted(files, dirs)
      modifies this`dirs
      ensures err.None? <==> forall k | k in files :: !(k <= p)
      ensures if err.None? then Made(old(dirs), dirs, p) else dirs == old(dirs)
      ensures err.None? ==> Rooted(files, dirs)
      decreases |p|
    {
      if p in dirs {
        forall q | q <= p ensures q in dirs && q !in files { RootedUp(files, dirs, p, q); }
        return None;
      }
      if p in files { return Some(NotADirectory); }
      err := MkdirAll(Parent(p));
      forall k | k in files ensures k <= p <==> k <= Parent(p) { UpOne(k, p); }
      if err.Some? { return; }
      MadeOne(old(dirs), dirs, p);
      dirs := dirs + {p};
    }

    /** Moves a finished temporary file into place. */
    method RenameFile(key: Path, data: Bytes) returns (err: Option<FsError>)
      requires key != [] && Tidy(files, dirs)
      modifies this`files, this`dirs
      ensures Tidy(files, dirs)
      ensures err.None? <==> CanPut(old(files), key)
      ensures files == if err.None? then old(files)[key := data] else old(files)
      ensures err.Some? ==> dirs == old(dirs)
    {
      TidyIsRooted(files, dirs);
      err := MkdirAll(Parent(key));
      forall k | k in files ensures k < key <==> k <= Parent(key) { UpOne(k, key); }
      if err.Some? { return; }
      if key in dirs {
        NothingMade(files, old(dirs), dirs, key);
        return Some(IsADirectory);
      }
      PutKeepsTidy(files, old(dirs), dirs, key, data);
      files := files[key := data];
    }

    /** Removes a file and then the directories this leaves empty, but not the bucket. */
    method DeleteFile(path: Path) returns (err: Option<FsError>)
      requires Tidy(files, dirs) || Pending(files, dirs, path)
      modifies this`files, this`dirs
      ensures Tidy(files, dirs)
      ensures old(path in dirs) ==> err == None && files == old(files)
      ensures old(path in files) ==> err == None && files == old(files) - {path}
      ensures old(path !in dirs && path !in files) ==> err.Some? && files == old(files)
      decreases |path|
    {
      if path == [] {
        if !Tidy(files, dirs) { KeptIsTidy(files, dirs, path); }
        return None;
      }
      if path !in files && path !in dirs {
        return Some(if Below(files, path) then NotADirectory else FileNotFound);
      }
      if path in dirs {
        if HasEntry(files, dirs, path) {
          KeepsEntry(files, dirs, path);
          return None;
        }
        RemovesEmpty(files, dirs, path);
        dirs := dirs - {path};
      } else {
        RemovedIsPending(files, dirs, path);
        files := files - {path};
      }
      err := DeleteFile(Parent(path));
    }
  }

  lemma NothingMade(files: Keys, was: set<Path>, now: set<Path>, key: Path)
    requires Tidy(files, was) && key != [] && Made(was, now, Parent(key)) && key in now
    ensures now == was && Above(files, key)
  {
    UpOne(key, key);
    forall q | q <= Parent(key) ensures q in was {
      var k :| k in files && key < k;
      assert q < k;
    }
  }

  lemma TidyIsPending(files: Keys, dirs: set<Path>, p: Path)
    requires Tidy(files, dirs) && p in dirs
    ensures Pending(files, dirs, p)
  {
    TidyIsRooted(files, dirs);
    forall q | q <= p ensures q in dirs { RootedUp(files, dirs, p, q); }
    forall k | k in files ensures !(k <= p) {
      if k <= p { RootedUp(files, dirs, p, k); }
    }
  }

  lemma EmptyIffNoKeys(files: Keys, dirs: set<Path>)
    requires Tidy(files, dirs)
    ensures HasEntry(files, dirs, []) <==> files != map[]
  {
    TidyIsPending(files, dirs, []);
    EntryMeansKey(files, dirs, []);
    if files != map[] {
      var k :| k in files;
      assert [] < k;
    }
  }

  lemma KeepsEntry(files: Keys, dirs: set<Path>, p: Path)
    requires (Tidy(files, dirs) && p in dirs) || Pending(files, dirs, p)
    requires HasEntry(files, dirs, p)
    ensures Tidy(files, dirs)
  {
    if !Tidy(files, dirs) {
      EntryMeansKey(files, dirs, p);
      KeptIsTidy(files, dirs, p);
    }
  }

  lemma RemovesEmpty(files: Keys, dirs: set<Path>, p: Path)
    requires (Tidy(files, dirs) && p in dirs) || Pending(files, dirs, p)
    requires !HasEntry(files, dirs, p) && p != []
    ensures Pending(files, dirs - {p}, Parent(p))
  {
    if Tidy(files, dirs) { TidyIsPending(files, dirs, p); }
    EntryMeansKey(files, dirs, p);
    EmptiedIsPending(files, dirs, p);
  }
}
