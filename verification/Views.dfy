/**
  Prefix views of the barrier's storage (`src/storage/barrier_view.rs`).

  The barrier is a key-value store here; the module `Barrier` proves that the encrypting
  barrier behaves like one. Listing follows the one-level contract of
  `src/storage/mod.rs`: a name up to and including the next '/', or the rest of the key.
  */
module Views {
  import opened Wrappers
  import opened Sorting

  // ---- One-level listing.

  /** The position of the first '/', or the length. */
  function FirstSlash(s: string): (n: nat)
    ensures n <= |s|
    ensures n < |s| ==> s[n] == '/'
    ensures forall i | 0 <= i < n :: s[i] != '/'
  {
    if s == [] || s[0] == '/' then 0 else 1 + FirstSlash(s[1..])
  }

  function Name(rest: string): string {
    var n := FirstSlash(rest);
    if n < |rest| then rest[..n + 1] else rest
  }

  /** What a one-level list of a prefix returns, as a set. */
  function Names(keys: set<string>, prefix: string): set<string> {
    set k | k in keys && prefix <= k :: Name(k[|prefix|..])
  }

  predicate IsDir(d: string) {
    d == [] || d[|d| - 1] == '/'
  }

  /** Everything up to and including the last '/'. */
  function DirOf(key: string): (d: string)
    ensures IsDir(d) && d <= key
    ensures forall i | |d| <= i < |key| :: key[i] != '/'
  {
    if IsDir(key) then key else DirOf(key[..|key| - 1])
  }

  lemma DirOfUnique(key: string, d: string)
    requires IsDir(d) && d <= key && forall i | |d| <= i < |key| :: key[i] != '/'
    ensures DirOf(key) == d
  {
    hide DirOf;
    var e := DirOf(key);
    assert e != [] ==> key[|e| - 1] == '/';
    assert d != [] ==> key[|d| - 1] == '/';
    assert d == key[..|d|] && e == key[..|e|];
  }

  /** The directory that holds directory d. */
  function ParentOf(d: string): (p: string)
    requires d != []
    ensures IsDir(p) && |p| < |d|
  {
    DirOf(d[..|d| - 1])
  }

  /** The directories on the way to the keys, the top one included. */
  function Dirs(keys: set<string>): set<string> {
    {""} + set k, i | k in keys && 0 <= i < |k| && k[i] == '/' :: k[..i + 1]
  }

  /** A listed name that ends in '/' is a directory right below the listed one. */
  lemma ListedDir(dir: string, name: string)
    requires IsDir(dir) && name != [] && IsDir(name)
    requires forall i | 0 <= i < |name| - 1 :: name[i] != '/'
    ensures ParentOf(dir + name) == dir
  {
    hide DirOf;
    var d := dir + name;
    var inner := d[..|d| - 1];
    assert dir <= inner;
    assert forall i | |dir| <= i < |inner| :: inner[i] == name[i - |dir|];
    DirOfUnique(inner, dir);
  }

  /** A listed name without '/' is a key right in the listed directory. */
  lemma ListedKey(dir: string, name: string)
    requires IsDir(dir) && forall i | 0 <= i < |name| :: name[i] != '/'
    ensures DirOf(dir + name) == dir
  {
    hide DirOf;
    var key := dir + name;
    assert forall i | |dir| <= i < |key| :: key[i] == name[i - |dir|];
    DirOfUnique(key, dir);
  }

  lemma DirOnTheWay(keys: set<string>, k: string, d: string)
    requires k in keys && d <= k && IsDir(d)
    ensures d in Dirs(keys)
  {
    if d != [] {
      assert k[|d| - 1] == '/' && d == k[..|d| - 1 + 1];
    }
  }

  lemma NamesOfDir(keys: set<string>, dir: string, name: string)
    requires IsDir(dir) && name in Names(keys, dir)
    ensures if name != [] && IsDir(name) then
              dir + name in Dirs(keys) && ParentOf(dir + name) == dir
            else
              dir + name in keys && DirOf(dir + name) == dir
  {
    hide Name, DirOf, Dirs, ParentOf;
    var k :| k in keys && dir <= k && name == Name(k[|dir|..]);
    var rest := k[|dir|..];
    assert k == dir + rest;
    NameShape(rest);
    if name != [] && IsDir(name) {
      ListedDir(dir, name);
      assert dir + name <= k;
      DirOnTheWay(keys, k, dir + name);
    } else {
      ListedKey(dir, name);
    }
  }

  lemma NameShape(rest: string)
    ensures Name(rest) <= rest
    ensures if Name(rest) != [] && IsDir(Name(rest)) then
              forall i | 0 <= i < |Name(rest)| - 1 :: Name(rest)[i] != '/'
            else
              Name(rest) == rest && forall i | 0 <= i < |rest| :: rest[i] != '/'
  {
    hide FirstSlash;
  }

  lemma SubdirIsNamed(keys: set<string>, d: string)
    requires d in Dirs(keys) && d != []
    ensures IsDir(d) && ParentOf(d) <= d && ParentOf(d) in Dirs(keys)
    ensures d[|ParentOf(d)|..] in Names(keys, ParentOf(d))
  {
    hide DirOf;
    var k, i :| k in keys && 0 <= i < |k| && k[i] == '/' && d == k[..i + 1];
    hide Dirs;
    var p := ParentOf(d);
    assert p <= d[..i] <= d <= k;
    DirOnTheWay(keys, k, p);
    NameUpToSlash(k, p, i);
  }

  lemma NameUpToSlash(k: string, p: string, i: nat)
    requires p <= k && |p| <= i < |k| && k[i] == '/' && forall j | |p| <= j < i :: k[j] != '/'
    ensures Name(k[|p|..]) == k[..i + 1][|p|..]
  {
    hide FirstSlash;
    var rest := k[|p|..];
    var n := FirstSlash(rest);
    assert rest[i - |p|] == '/';
    assert n < |rest| ==> k[|p| + n] == '/';
    assert n == i - |p|;
  }

  lemma KeyIsNamed(keys: set<string>, k: string)
    requires k in keys
    ensures DirOf(k) in Dirs(keys)
    ensures k[|DirOf(k)|..] in Names(keys, DirOf(k))
  {
    hide DirOf, FirstSlash;
    var d := DirOf(k);
    DirOnTheWay(keys, k, d);
    var rest := k[|d|..];
    assert forall i | 0 <= i < |rest| :: rest[i] == k[|d| + i];
    assert Name(rest) == rest;
  }

  // ---- Keys seen through a view.

  /** The keys stored under a prefix, without it. */
  function Relative(keys: set<string>, prefix: string): set<string> {
    set k | k in keys && prefix <= k :: k[|prefix|..]
  }

  lemma RelativeMember(keys: set<string>, prefix: string, r: string)
    ensures r in Relative(keys, prefix) <==> prefix + r in keys
  {
    if r in Relative(keys, prefix) {
      var k :| k in keys && prefix <= k && r == k[|prefix|..];
      assert k == prefix + r;
    }
    if prefix + r in keys {
      assert (prefix + r)[|prefix|..] == r;
    }
  }

  /** Listing through the view is listing the view's own keys. */
  lemma NamesThroughView(keys: set<string>, prefix: string, dir: string)
    ensures Names(keys, prefix + dir) == Names(Relative(keys, prefix), dir)
  {
    forall k | k in keys && prefix + dir <= k
      ensures Name(k[|prefix + dir|..]) in Names(Relative(keys, prefix), dir)
    {
      var r := k[|prefix|..];
      assert prefix <= k && dir <= r && r[|dir|..] == k[|prefix + dir|..];
      assert r in Relative(keys, prefix);
    }
    forall r | r in Relative(keys, prefix) && dir <= r
      ensures Name(r[|dir|..]) in Names(keys, prefix + dir)
    {
      RelativeMember(keys, prefix, r);
      var k := prefix + r;
      assert prefix + dir <= k && k[|prefix + dir|..] == r[|dir|..];
    }
  }

  /** `sanity_check`. */
  predicate Sane(key: string) {
    !ContainsDotDot(key) && !(key != [] && key[0] == '/')
  }

  predicate ContainsDotDot(key: string) {
    exists i :: 0 <= i < |key| - 1 && key[i] == '.' && key[i + 1] == '.'
  }

  /** A key is sane if ".." is nowhere in it and "/" is not at its start. */
  lemma SaneMeans(key: string)
    ensures Sane(key) <==> !("/" <= key) && !exists before, after :: key == before + ".." + after
  {
    if ContainsDotDot(key) {
      var i :| 0 <= i < |key| - 1 && key[i] == '.' && key[i + 1] == '.';
      assert key == key[..i] + ".." + key[i + 2..];
    }
    if exists before, after :: key == before + ".." + after {
      var before, after :| key == before + ".." + after;
      assert key[|before|] == '.' && key[|before| + 1] == '.';
    }
  }

  /** A backend's one-level list, sorted as the barrier sorts it. */
  method SortedNames(keys: set<string>, prefix: string) returns (names: seq<string>)
    ensures StrictlySorted(names)
    ensures forall n :: n in names <==> n in Names(keys, prefix)
  {
    var rest := Names(keys, prefix);
    var found: seq<string> := [];
    while rest != {}
      invariant forall i, j | 0 <= i < j < |found| :: found[i] != found[j]
      invariant forall n :: n in found ==> n !in rest
      invariant forall n :: n in found || n in rest <==> n in Names(keys, prefix)
      decreases rest
    {
      var n :| n in rest;
      found := found + [n];
      rest := rest - {n};
    }
    names := Sort(found);
    assert forall n :: n in names <==> n in multiset(names);
    assert forall n :: n in found <==> n in multiset(found);
  }

  /** An unsealed barrier, seen as the storage it is. */
  class Storage<V> {
    var entries: map<string, V>

    constructor ()
      ensures entries == map[]
    {
      entries := map[];
    }

    method List(prefix: string) returns (names: seq<string>)
      ensures StrictlySorted(names)
      ensures forall n :: n in names <==> n in Names(entries.Keys, prefix)
    {
      names := SortedNames(entries.Keys, prefix);
    }
  }

  /** The full paths of the listed subdirectories, in list order. */
  function DirItems(dir: string, names: seq<string>): seq<string> {
    if names == [] then []
    else
      var n := names[|names| - 1];
      DirItems(dir, names[..|names| - 1]) + if n != [] && IsDir(n) then [dir + n] else []
  }

  /** The full paths of the listed keys, in list order. */
  function KeyItems(dir: string, names: seq<string>): seq<string> {
    if names == [] then []
    else
      var n := names[|names| - 1];
      KeyItems(dir, names[..|names| - 1]) + if n != [] && IsDir(n) then [] else [dir + n]
  }

  ghost predicate NoRepeats(s: seq<string>) {
    forall i, j | 0 <= i < j < |s| :: s[i] != s[j]
  }

  lemma {:induction false} ItemsOf(dir: string, names: seq<string>)
    requires NoRepeats(names)
    ensures NoRepeats(DirItems(dir, names)) && NoRepeats(KeyItems(dir, names))
    ensures forall d :: d in DirItems(dir, names) <==>
              dir <= d && d[|dir|..] in names && d[|dir|..] != [] && IsDir(d[|dir|..])
    ensures forall k :: k in KeyItems(dir, names) <==>
              dir <= k && k[|dir|..] in names && !(k[|dir|..] != [] && IsDir(k[|dir|..]))
  {
    if names != [] {
      var last := |names| - 1;
      var n := names[last];
      ItemsOf(dir, names[..last]);
      assert n !in names[..last];
      assert forall m :: m in names <==> m in names[..last] || m == n;
      assert (dir + n)[|dir|..] == n;
      assert forall d :: dir <= d && d[|dir|..] == n ==> d == dir + n;
    }
  }

  function Elements(s: seq<string>): set<string> {
    set x | x in s
  }

  /**
    What the worklist of `get_keys` has established: a directory is on the stack or
    visited exactly when its parent has been visited, and exactly the keys of visited
    directories have been collected.
    */
  ghost predicate Progress(rel: set<string>, visited: set<string>, stack: set<string>, found: set<string>) {
    && visited + stack <= Dirs(rel)
    && visited !! stack
    && "" in visited + stack
    && (forall d | d in Dirs(rel) && d != [] :: ParentOf(d) in visited <==> d in visited + stack)
    && (forall k :: k in found <==> k in rel && DirOf(k) in visited)
  }

  lemma ListedItems(rel: set<string>, curr: string, names: seq<string>)
    requires IsDir(curr) && NoRepeats(names) && forall n :: n in names <==> n in Names(rel, curr)
    ensures NoRepeats(DirItems(curr, names)) && NoRepeats(KeyItems(curr, names))
    ensures forall d :: d in DirItems(curr, names) <==> d in Dirs(rel) && d != [] && ParentOf(d) == curr
    ensures forall k :: k in KeyItems(curr, names) <==> k in rel && DirOf(k) == curr
  {
    hide Dirs, Names, DirOf, DirItems, KeyItems;
    ItemsOf(curr, names);
    forall d ensures d in DirItems(curr, names) <==> d in Dirs(rel) && d != [] && ParentOf(d) == curr {
      if d in DirItems(curr, names) {
        NamesOfDir(rel, curr, d[|curr|..]);
        assert d == curr + d[|curr|..];
      }
      if d in Dirs(rel) && d != [] && ParentOf(d) == curr {
        SubdirIsNamed(rel, d);
        assert d[|curr|..] != [] && IsDir(d[|curr|..]);
      }
    }
    forall k ensures k in KeyItems(curr, names) <==> k in rel && DirOf(k) == curr {
      if k in KeyItems(curr, names) {
        NamesOfDir(rel, curr, k[|curr|..]);
        assert k == curr + k[|curr|..];
      }
      if k in rel && DirOf(k) == curr {
        KeyIsNamed(rel, k);
        assert k[|curr|..] != [] ==> !IsDir(k[|curr|..]);
      }
    }
  }

  /** One round: visit one directory of the stack. */
  lemma ProgressStep(rel: set<string>, visited: set<string>, stack: set<string>, found: set<string>,
                     curr: string, dirs: set<string>, keys: set<string>)
    requires Progress(rel, visited, stack, found) && curr in stack
    requires forall d :: d in dirs <==> d in Dirs(rel) && d != [] && ParentOf(d) == curr
    requires forall k :: k in keys <==> k in rel && DirOf(k) == curr
    ensures Progress(rel, visited + {curr}, stack - {curr} + dirs, found + keys)
    ensures dirs !! stack && keys !! found
  {
    hide Dirs, DirOf, ParentOf;
    forall d | d in dirs ensures d !in visited && d !in stack && d != curr {
      assert ParentOf(d) !in visited;
    }
  }

  lemma DirsAreDirs(rel: set<string>, d: string)
    requires d in Dirs(rel)
    ensures IsDir(d)
  {}

  lemma NoRepeatsConcat(a: seq<string>, b: seq<string>)
    requires NoRepeats(a) && NoRepeats(b) && Elements(a) !! Elements(b)
    ensures NoRepeats(a + b) && Elements(a + b) == Elements(a) + Elements(b)
  {
    forall i, j | 0 <= i < j < |a + b| ensures (a + b)[i] != (a + b)[j] {
      if i < |a| <= j {
        assert a[i] in Elements(a) && b[j - |a|] in Elements(b);
      }
    }
  }

  lemma NoRepeatsPop(s: seq<string>)
    requires NoRepeats(s) && s != []
    ensures var n := |s| - 1;
            NoRepeats(s[..n]) && Elements(s[..n]) == Elements(s) - {s[n]} && s[n] in Elements(s)
  {
    var n := |s| - 1;
    assert s == s[..n] + [s[n]];
  }

  lemma StartsClean()
    ensures Elements([""]) == {""} && Elements([]) == {} && NoRepeats([""]) && NoRepeats([])
  {}

  lemma MembersOf(s: seq<string>)
    ensures forall x :: x in s <==> x in Elements(s)
  {}

  lemma UniqueKeys(s: seq<string>)
    requires NoRepeats(s)
    ensures forall i, j | 0 <= i < j < |s| :: s[i] != s[j]
  {}

  lemma OnStack(rel: set<string>, visited: set<string>, stack: set<string>, found: set<string>, curr: string)
    requires Progress(rel, visited, stack, found) && curr in stack
    ensures curr in Dirs(rel) && curr !in visited && IsDir(curr)
  {
    DirsAreDirs(rel, curr);
  }

  lemma ProgressStart(rel: set<string>)
    ensures Progress(rel, {}, {""}, {})
  {}

  /** With the stack empty, every directory has been visited. */
  lemma {:induction false} AllVisited(rel: set<string>, visited: set<string>, found: set<string>, d: string)
    requires Progress(rel, visited, {}, found) && d in Dirs(rel)
    ensures d in visited
    decreases |d|
  {
    if d != [] {
      SubdirIsNamed(rel, d);
      AllVisited(rel, visited, found, ParentOf(d));
    }
  }

  lemma AllFound(rel: set<string>, visited: set<string>, found: set<string>)
    requires Progress(rel, visited, {}, found)
    ensures visited == Dirs(rel) && found == rel
  {
    hide Dirs, DirOf, ParentOf;
    forall d | d in Dirs(rel) ensures d in visited {
      AllVisited(rel, visited, found, d);
    }
    forall k | k in rel ensures k in found {
      KeyIsNamed(rel, k);
    }
  }

  /** `BarrierView`. */
  class View<V> {
    const storage: Storage<V>
    const prefix: string

    constructor (storage: Storage<V>, prefix: string)
      ensures this.storage == storage && this.prefix == prefix
    {
      this.storage := storage;
      this.prefix := prefix;
    }

    /** The keys this view shows. */
    ghost function Shown(): set<string>
      reads storage
    {
      Relative(storage.entries.Keys, prefix)
    }

    method List(dir: string) returns (r: Result<seq<string>, RvError>)
      ensures r.Failure? <==> !Sane(dir)
      ensures r.Failure? ==> r.error == ErrBarrierKeySanityCheckFailed
      ensures r.Success? ==>
                && StrictlySorted(r.value)
                && forall n :: n in r.value <==> n in Names(Shown(), dir)
    {
      if !Sane(dir) {
        return Failure(ErrBarrierKeySanityCheckFailed);
      }
      var names := storage.List(prefix + dir);
      NamesThroughView(storage.entries.Keys, prefix, dir);
      return Success(names);
    }

    method Delete(key: string) returns (r: Result<(), RvError>)
      modifies storage
      ensures r == if Sane(key) then Success(()) else Failure(ErrBarrierKeySanityCheckFailed)
      ensures storage.entries == if Sane(key) then old(storage.entries) - {prefix + key} else old(storage.entries)
    {
      if !Sane(key) {
        return Failure(ErrBarrierKeySanityCheckFailed);
      }
      storage.entries := storage.entries - {prefix + key};
      return Success(());
    }

    /**
      `get_keys` terminates; it returns the keys shown, each once and sorted, unless some
      directory on the way to one of them fails the sanity check.
      */
    method GetKeys() returns (r: Result<seq<string>, RvError>)
      ensures r.Failure? <==> exists d :: d in Dirs(Shown()) && !Sane(d)
      ensures r.Failure? ==> r.error == ErrBarrierKeySanityCheckFailed
      ensures r.Success? ==> StrictlySorted(r.value) && forall k :: k in r.value <==> k in Shown()
    {
      ghost var rel := Shown();
      hide Dirs, Names, Shown, Elements, NoRepeats, Progress, DirItems, KeyItems;
      ghost var visited: set<string> := {};
      var paths := [""];
      var keys: seq<string> := [];
      StartsClean();
      ProgressStart(rel);
      while paths != []
        invariant Progress(rel, visited, Elements(paths), Elements(keys))
        invariant NoRepeats(paths) && NoRepeats(keys)
        invariant forall d | d in visited :: Sane(d)
        decreases Dirs(rel) - visited
      {
        var curr := paths[|paths| - 1];
        NoRepeatsPop(paths);
        OnStack(rel, visited, Elements(paths), Elements(keys), curr);
        var items := List(curr);
        if items.Failure? {
          return items;
        }
        SortedHasNoRepeats(items.value);
        ListedItems(rel, curr, items.value);
        var dirs, found := DirItems(curr, items.value), KeyItems(curr, items.value);
        MembersOf(dirs);
        MembersOf(found);
        ProgressStep(rel, visited, Elements(paths), Elements(keys), curr, Elements(dirs), Elements(found));
        NoRepeatsConcat(paths[..|paths| - 1], dirs);
        NoRepeatsConcat(keys, found);
        paths, keys := Sift(curr, items.value, paths[..|paths| - 1], keys);
        visited := visited + {curr};
      }
      StartsClean();
      AllFound(rel, visited, Elements(keys));
      MembersOf(keys);
      UniqueKeys(keys);
      var sorted := Sort(keys);
      assert forall k :: k in sorted <==> k in multiset(sorted);
      assert forall k :: k in keys <==> k in multiset(keys);
      return Success(sorted);
    }

    /** The inner loop of `get_keys`: push subdirectories, collect keys. */
    static method Sift(curr: string, items: seq<string>, paths0: seq<string>, keys0: seq<string>)
      returns (paths: seq<string>, keys: seq<string>)
      ensures paths == paths0 + DirItems(curr, items)
      ensures keys == keys0 + KeyItems(curr, items)
    {
      paths, keys := paths0, keys0;
      for i := 0 to |items|
        invariant paths == paths0 + DirItems(curr, items[..i])
        invariant keys == keys0 + KeyItems(curr, items[..i])
      {
        var p := items[i];
        assert items[..i + 1][..i] == items[..i];
        if p != [] && p[|p| - 1] == '/' {
          paths := paths + [curr + p];
        } else {
          keys := keys + [curr + p];
        }
      }
      assert items[..|items|] == items;
    }

    /**
      `clear` succeeds exactly when every key shown passes the sanity check and then
      removes those keys and no other; a failing call removes some of them at most.
      */
    method Clear() returns (r: Result<(), RvError>)
      modifies storage
      ensures r.Success? <==> forall k | k in old(Shown()) :: Sane(k)
      ensures r.Success? ==>
                storage.entries == map k | k in old(storage.entries) && !(prefix <= k) :: old(storage.entries)[k]
      ensures forall k | k in old(storage.entries) && !(prefix <= k) ::
                k in storage.entries && storage.entries[k] == old(storage.entries)[k]
    {
      ghost var before := storage.entries;
      ghost var shown := Shown();
      SaneDirs(shown);
      hide Sane, Dirs;
      var keys := GetKeys();
      if keys.Failure? {
        return Failure(keys.error);
      }
      for i := 0 to |keys.value|
        invariant storage.entries == before - (set k | k in keys.value[..i] :: prefix + k)
        invariant forall k | k in keys.value[..i] :: Sane(k)
      {
        var step := Delete(keys.value[i]);
        assert keys.value[i] in shown;
        if step.Failure? {
          return step;
        }
        assert keys.value[..i + 1] == keys.value[..i] + [keys.value[i]];
      }
      assert keys.value[..|keys.value|] == keys.value;
      forall k | k in before ensures k in (set k | k in keys.value :: prefix + k) <==> prefix <= k {
        if prefix <= k {
          RelativeMember(before.Keys, prefix, k[|prefix|..]);
          assert k == prefix + k[|prefix|..];
        }
      }
      return Success(());
    }
  }

  lemma SortedHasNoRepeats(s: seq<string>)
    requires StrictlySorted(s)
    ensures NoRepeats(s)
  {
    forall i, j | 0 <= i < j < |s| ensures s[i] != s[j] {
      LessIrreflexive(s[i]);
    }
  }

  lemma {:induction false} LessIrreflexive(a: string)
    ensures !Less(a, a)
  {
    if a != [] {
      LessIrreflexive(a[1..]);
    }
  }

  /** A directory that fails the sanity check has a key below it that fails it. */
  lemma SaneDirs(rel: set<string>)
    ensures (exists d :: d in Dirs(rel) && !Sane(d)) ==> exists k :: k in rel && !Sane(k)
  {
    if d :| d in Dirs(rel) && !Sane(d) {
      var k, i :| k in rel && 0 <= i < |k| && k[i] == '/' && d == k[..i + 1];
      assert forall j | 0 <= j < |d| :: d[j] == k[j];
      assert !Sane(k);
    }
  }

  lemma IncomparablePrefix(p: string, q: string, k: string)
    requires !(p <= q) && !(q <= p) && q <= k
    ensures !(p <= k)
  {
    assert q == k[..|q|];
    if |p| <= |q| {
      assert k[..|p|] == q[..|p|];
    } else if |p| <= |k| {
      assert k[..|p|][..|q|] == q;
    }
  }

  /**
    Clearing a view changes nothing that a view with an incomparable prefix shows, and
    the values there stay as they were.
    */
  lemma ClearKeepsIncomparable<V>(before: map<string, V>, after: map<string, V>, prefix: string, other: string)
    requires after == map k | k in before && !(prefix <= k) :: before[k]
    requires !(prefix <= other) && !(other <= prefix)
    ensures Relative(after.Keys, other) == Relative(before.Keys, other)
    ensures forall r | r in Relative(before.Keys, other) ::
              other + r in after && other + r in before && after[other + r] == before[other + r]
  {
    forall k | k in before && other <= k ensures !(prefix <= k) {
      IncomparablePrefix(prefix, other, k);
    }
    forall r | r in Relative(before.Keys, other)
      ensures other + r in after && other + r in before && after[other + r] == before[other + r]
    {
      RelativeMember(before.Keys, other, r);
      assert other <= other + r;
    }
    forall r ensures r in Relative(after.Keys, other) <==> r in Relative(before.Keys, other) {
      RelativeMember(before.Keys, other, r);
      RelativeMember(after.Keys, other, r);
    }
  }
}
