/**
  Path matching in `src/router.rs`. A trie is its finite map; `get_ancestor` finds the
  longest key that is a prefix of the path.
  */
module Router {
  import opened Wrappers

  /** `get_ancestor`. */
  function Ancestor(keys: set<string>, path: string): (r: Option<string>)
    ensures r.None? <==> forall k | k in keys :: !(k <= path)
    ensures r.Some? ==> r.value in keys && r.value <= path
    ensures r.Some? ==> forall k | k in keys && k <= path :: k <= r.value
  {
    if path in keys then Some(path)
    else if path == [] then None
    else
      var shorter := path[..|path| - 1];
      ProperPrefixes(keys, path);
      Ancestor(keys, shorter)
  }

  lemma ProperPrefixes(keys: set<string>, path: string)
    requires path != [] && path !in keys
    ensures forall k | k in keys :: k <= path <==> k <= path[..|path| - 1]
  {
    var shorter := path[..|path| - 1];
    forall k | k in keys ensures k <= path <==> k <= shorter {
      if k <= path {
        assert k == path[..|k|];
        assert path[..|path|] == path;
      }
      if |k| < |path| {
        assert path[..|k|] == shorter[..|k|];
      }
    }
  }

  // ---- Pattern tables.

  predicate IsWildcard(pattern: string) {
    pattern != [] && pattern[|pattern| - 1] == '*'
  }

  function Stem(pattern: string): string {
    if IsWildcard(pattern) then pattern[..|pattern| - 1] else pattern
  }

  /** A wildcard matches every extension of its stem, any other pattern only itself. */
  predicate Matches(pattern: string, path: string) {
    if IsWildcard(pattern) then Stem(pattern) <= path else pattern == path
  }

  /** A pattern with a star at its end matches what begins like it, any other itself alone. */
  lemma MatchesMeans(stem: string, pattern: string, path: string)
    ensures Matches(stem + "*", path) <==> stem <= path
    ensures pattern == [] || pattern[|pattern| - 1] != '*' ==> (Matches(pattern, path) <==> path == pattern)
  {
    assert (stem + "*")[..|stem|] == stem;
  }

  /** A linear scan of the patterns. */
  ghost predicate SomeMatch(patterns: seq<string>, path: string) {
    exists p :: p in patterns && Matches(p, path)
  }

  /** The table of a pattern list: the last pattern written for a stem decides. */
  function Table(patterns: seq<string>): map<string, bool> {
    if patterns == [] then map[]
    else
      var p := patterns[|patterns| - 1];
      Table(patterns[..|patterns| - 1])[Stem(p) := IsWildcard(p)]
  }

  method NewRadixFromPaths(paths: seq<string>) returns (radix: map<string, bool>)
    ensures radix == Table(paths)
  {
    radix := map[];
    for i := 0 to |paths|
      invariant radix == Table(paths[..i])
    {
      var path := paths[i];
      var prefixMatch := path != [] && path[|path| - 1] == '*';
      radix := radix[if prefixMatch then path[..|path| - 1] else path := prefixMatch];
      assert paths[..i + 1][..i] == paths[..i];
    }
    assert paths[..|paths|] == paths;
  }

  lemma {:induction false} TableEntries(patterns: seq<string>)
    ensures forall k :: k in Table(patterns) <==> exists p :: p in patterns && Stem(p) == k
    ensures forall k | k in Table(patterns) ::
              exists p :: p in patterns && Stem(p) == k && IsWildcard(p) == Table(patterns)[k]
  {
    if patterns != [] {
      var last := |patterns| - 1;
      TableEntries(patterns[..last]);
      assert forall p :: p in patterns <==> p in patterns[..last] || p == patterns[last];
      assert patterns[last] in patterns;
    }
  }

  /** The last pattern written for a stem decides. */
  lemma {:induction false} LastPatternDecides(patterns: seq<string>, i: nat)
    requires i < |patterns| && forall j | i < j < |patterns| :: Stem(patterns[j]) != Stem(patterns[i])
    ensures Stem(patterns[i]) in Table(patterns)
    ensures Table(patterns)[Stem(patterns[i])] <==> patterns[i] != [] && patterns[i][|patterns[i]| - 1] == '*'
  {
    var last := |patterns| - 1;
    if i < last {
      LastPatternDecides(patterns[..last], i);
    }
  }

  /** The decision of `is_unauth_path` and `is_root_path` on the path below the mount. */
  predicate TableMatch(table: map<string, bool>, path: string) {
    match Ancestor(table.Keys, path)
    case None => false
    case Some(k) => if table[k] then k <= path else path == k
  }

  /**
    The path's longest stem was last written by an exact pattern that is not the path:
    an exact pattern hides the wildcards above it from its own extensions.
    */
  ghost predicate Shadowed(table: map<string, bool>, path: string) {
    exists k :: k in table && !table[k] && k < path && forall l | l in table && l <= path :: l <= k
  }

  /** The table says yes exactly when a pattern matches and no exact pattern shadows it. */
  lemma TableMatchExactly(patterns: seq<string>, path: string)
    ensures TableMatch(Table(patterns), path)
            <==> SomeMatch(patterns, path) && !Shadowed(Table(patterns), path)
  {
    hide Table;
    var table := Table(patterns);
    TableEntries(patterns);
    assert forall p | p in patterns && Matches(p, path) :: Stem(p) in table && Stem(p) <= path;
    var ancestor := Ancestor(table.Keys, path);
    if ancestor.Some? {
      var k := ancestor.value;
      var p :| p in patterns && Stem(p) == k && IsWildcard(p) == table[k];
      if TableMatch(table, path) {
        assert Matches(p, path);
        assert !Shadowed(table, path) by {
          LongestIsUnique(table, path, k);
        }
      } else {
        assert k < path;
      }
    }
  }

  lemma LongestIsUnique(table: map<string, bool>, path: string, k: string)
    requires k in table && k <= path && forall l | l in table && l <= path :: l <= k
    ensures Shadowed(table, path) <==> !table[k] && k < path
  {
    assert forall l | l in table && l <= path && k <= l :: l == k;
  }

  /** The condition under which the table agrees with the scan for every path. */
  ghost predicate NoExactUnderWildcard(patterns: seq<string>) {
    forall w, e | w in patterns && e in patterns && IsWildcard(w) && !IsWildcard(e) :: !(Stem(w) <= e)
  }

  lemma TableAgreesWithScan(patterns: seq<string>, path: string)
    requires NoExactUnderWildcard(patterns)
    ensures TableMatch(Table(patterns), path) <==> SomeMatch(patterns, path)
  {
    hide Table;
    TableMatchExactly(patterns, path);
    TableEntries(patterns);
    var table := Table(patterns);
    assert forall k | k in table && !table[k] :: k in patterns && !IsWildcard(k);
    assert forall p | p in patterns && Matches(p, path) ::
        Stem(p) in table && Stem(p) <= path && (!IsWildcard(p) ==> Stem(p) == path);
  }

  /**
    Conversely, an exact pattern at or under a wildcard's stem, if it was written last,
    makes every path below it lose its match that no longer stem leads towards.
    */
  lemma ExactUnderWildcardDisagrees(patterns: seq<string>, w: string, e: string, tail: string)
    requires w in patterns && IsWildcard(w) && e in patterns && Stem(w) <= e && tail != []
    requires e in Table(patterns) && !Table(patterns)[e]
    requires forall p | p in patterns && e <= Stem(p) <= e + tail :: Stem(p) == e
    ensures SomeMatch(patterns, e + tail) && !TableMatch(Table(patterns), e + tail)
  {
    hide Table;
    var table, path := Table(patterns), e + tail;
    assert Matches(w, path);
    TableEntries(patterns);
    TableMatchExactly(patterns, path);
    forall l | l in table && l <= path ensures l <= e {
      ComparePrefixes(l, e, path);
    }
    assert e < path;
    hide TableMatch, SomeMatch;
    assert Shadowed(table, path);
  }

  lemma ComparePrefixes(l: string, e: string, path: string)
    requires l <= path && e <= path
    ensures l <= e || e <= l
  {
    assert l == path[..|l|] && e == path[..|e|];
  }

  // ---- The router's own trie of mounts.

  /** `replacen(pattern, "", 1)`: drop the first occurrence. */
  function DropFirst(s: string, pattern: string): string {
    if pattern <= s then s[|pattern|..]
    else if s == [] then s
    else [s[0]] + DropFirst(s[1..], pattern)
  }

  /** `is_unauth_path` (and `is_root_path`) over a mount table. */
  predicate MountedMatch(mounts: map<string, map<string, bool>>, path: string) {
    match Ancestor(mounts.Keys, path)
    case None => false
    case Some(mount) => TableMatch(mounts[mount], DropFirst(path, mount))
  }

  /** The tables that mounting backends with these patterns builds. */
  function Tables(patterns: map<string, seq<string>>): map<string, map<string, bool>> {
    map m | m in patterns :: Table(patterns[m])
  }

  /** m is the longest of the mounted prefixes of a path. */
  ghost predicate Owns(mounts: set<string>, m: string, path: string) {
    m in mounts && m <= path && forall l | l in mounts && l <= path :: l <= m
  }

  /**
    A path is exempt exactly when the longest mounted prefix has a pattern that matches
    the rest of the path and is not shadowed there.
    */
  lemma MountedMatchExactly(patterns: map<string, seq<string>>, path: string)
    ensures MountedMatch(Tables(patterns), path) <==>
            exists m :: Owns(patterns.Keys, m, path) &&
              SomeMatch(patterns[m], path[|m|..]) && !Shadowed(Table(patterns[m]), path[|m|..])
  {
    hide Table, SomeMatch, Shadowed, TableMatch;
    var mounts := Tables(patterns);
    assert mounts.Keys == patterns.Keys;
    var ancestor := Ancestor(mounts.Keys, path);
    if ancestor.Some? {
      var m := ancestor.value;
      assert DropFirst(path, m) == path[|m|..];
      TableMatchExactly(patterns[m], path[|m|..]);
      assert Owns(patterns.Keys, m, path);
      assert forall l | Owns(patterns.Keys, l, path) :: l == m;
    }
  }
}
