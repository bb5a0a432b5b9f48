/**
  The storage keys below `sys/token/`, which `src/modules/auth/token_store.rs` and
  `src/modules/auth/expiration.rs` share, and the lease ids that serve as keys below the
  lease prefix.

  The token store keeps its salt, its tokens and its parent index there, and the
  expiration manager its index from tokens to leases. Nothing but the shape of the keys
  keeps the four apart.
  */
module StorageKeys {
  import opened Views
  import opened Forest
  import T = TokenStore

  /** The form of a salted id: a SHA-1 digest in hexadecimal digits. */
  predicate IsDigest(s: string) {
    |s| == 40 && NoSlash(s) && NoDot(s)
  }

  predicate NoDot(s: string) {
    forall i | 0 <= i < |s| :: s[i] != '.'
  }

  predicate NoSlash(s: string) {
    forall i | 0 <= i < |s| :: s[i] != '/'
  }

  datatype Key =
    | SaltKey
    | TokenKey(id: string)
    | ParentKey(parent: string, child: string)
    | IndexKey(token: string, lease: string)
  {
    predicate WellFormed() {
      match this
      case SaltKey => true
      case TokenKey(id) => IsDigest(id)
      case ParentKey(parent, child) => IsDigest(parent) && IsDigest(child)
      case IndexKey(token, lease) => IsDigest(token) && IsDigest(lease)
    }
  }

  function Render(k: Key): string {
    match k
    case SaltKey => "salt"
    case TokenKey(id) => "id/" + id
    case ParentKey(parent, child) => "parent/" + parent + "/" + child
    case IndexKey(token, lease) => token + "/" + lease
  }

  lemma HeadOfPath(head: string, rest: string)
    requires NoSlash(head)
    ensures FirstSlash(head + "/" + rest) == |head|
    ensures (head + "/" + rest)[|head| + 1..] == rest && (head + "/" + rest)[..|head|] == head
  {
    hide FirstSlash;
    var s := head + "/" + rest;
    assert forall i | 0 <= i < |head| :: s[i] == head[i];
    FirstSlashAt(s, |head|);
  }

  lemma FirstSlashAt(s: string, n: nat)
    requires n <= |s| && (n < |s| ==> s[n] == '/') && forall i | 0 <= i < n :: s[i] != '/'
    ensures FirstSlash(s) == n
  {
    hide FirstSlash;
  }

  /** What stands before the first slash, and whether there is one, tells the kinds apart. */
  lemma KindOfKey(k: Key)
    requires k.WellFormed()
    ensures FirstSlash(Render(k)) ==
            match k { case SaltKey => 4 case TokenKey(_) => 2 case ParentKey(_, _) => 6 case IndexKey(_, _) => 40 }
  {
    hide FirstSlash;
    match k {
      case SaltKey => FirstSlashAt("salt", 4);
      case TokenKey(id) => TokenKeyKind(id);
      case ParentKey(parent, child) => ParentKeyKind(parent, child);
      case IndexKey(token, lease) => HeadOfPath(token, lease);
    }
  }

  lemma TokenKeyKind(id: string)
    ensures FirstSlash("id/" + id) == 2
  {
    hide FirstSlash;
    HeadOfPath("id", id);
    assert "id/" + id == "id" + "/" + id;
  }

  lemma ParentKeyKind(parent: string, child: string)
    ensures FirstSlash("parent/" + parent + "/" + child) == 6
  {
    hide FirstSlash;
    var rest := parent + "/" + child;
    HeadOfPath("parent", rest);
    assert "parent/" + parent + "/" + child == "parent" + "/" + rest;
  }

  lemma PartsOfParentKey(p: string, c: string)
    requires IsDigest(p)
    ensures Render(ParentKey(p, c))[7..47] == p && Render(ParentKey(p, c))[48..] == c
  {
    var s := "parent/" + p + "/" + c;
    assert s[7..47] == p;
    assert s[48..] == c;
  }

  /** No two entries share a key, of whatever kinds they are. */
  lemma KeysNeverCollide(k: Key, k': Key)
    requires k.WellFormed() && k'.WellFormed() && Render(k) == Render(k')
    ensures k == k'
  {
    KindOfKey(k);
    KindOfKey(k');
    match k {
      case SaltKey =>
      case TokenKey(id) =>
        assert id == Render(k)[3..];
        assert k'.id == Render(k')[3..];
      case ParentKey(parent, child) =>
        PartsOfParentKey(parent, child);
        PartsOfParentKey(k'.parent, k'.child);
      case IndexKey(token, lease) =>
        assert token == Render(k)[..40] && lease == Render(k)[41..];
        assert k'.token == Render(k')[..40] && k'.lease == Render(k')[41..];
    }
  }

  ghost predicate AllWellFormed(keys: set<Key>) {
    forall k | k in keys :: k.WellFormed()
  }

  /** The stored strings. */
  function Rendered(keys: set<Key>): set<string> {
    set k | k in keys :: Render(k)
  }

  /** Reading, writing and deleting one entry touches that entry alone. */
  lemma EntriesAreSeparate(keys: set<Key>, k: Key)
    requires AllWellFormed(keys) && k.WellFormed()
    ensures Render(k) in Rendered(keys) <==> k in keys
    ensures Rendered(keys + {k}) == Rendered(keys) + {Render(k)}
    ensures Rendered(keys - {k}) == Rendered(keys) - {Render(k)}
  {
    hide Render;
    forall j | j in keys && Render(j) == Render(k) ensures j == k {
      KeysNeverCollide(j, k);
    }
    assert forall s | s in Rendered(keys - {k}) :: s in Rendered(keys) && s != Render(k);
    assert forall s | s in Rendered(keys) && s != Render(k) :: s in Rendered(keys - {k});
  }

  lemma NameOfDigest(d: string)
    requires NoSlash(d)
    ensures Name(d) == d
  {
    hide FirstSlash;
    FirstSlashAt(d, |d|);
  }

  /** The keys below a parent's prefix are its index entries. */
  lemma BelowParent(k: Key, p: string)
    requires k.WellFormed() && IsDigest(p)
    ensures "parent/" + p + "/" <= Render(k) <==> k.ParentKey? && k.parent == p
    ensures k.ParentKey? && k.parent == p ==> Render(k)[|"parent/" + p + "/"|..] == k.child
  {
    var prefix := "parent/" + p + "/";
    if k.ParentKey? && k.parent == p {
      assert Render(k) == prefix + k.child;
    }
    if prefix <= Render(k) {
      HeadOfPath("parent", p + "/" + Render(k)[48..]);
      assert Render(k) == "parent" + "/" + (p + "/" + Render(k)[48..]);
      KindOfKey(k);
      hide FirstSlash;
      assert k.ParentKey?;
      PartsOfParentKey(k.parent, k.child);
      hide Render;
      assert Render(k)[7..47] == prefix[7..47] == p;
    }
  }

  lemma BelowToken(k: Key, t: string)
    requires k.WellFormed() && IsDigest(t)
    ensures t + "/" <= Render(k) <==> k.IndexKey? && k.token == t
    ensures k.IndexKey? && k.token == t ==> Render(k)[|t + "/"|..] == k.lease
  {
    var prefix := t + "/";
    if k.IndexKey? && k.token == t {
      assert Render(k) == prefix + k.lease;
    }
    if prefix <= Render(k) {
      HeadOfPath(t, Render(k)[41..]);
      assert Render(k) == t + "/" + Render(k)[41..];
      KindOfKey(k);
      hide FirstSlash;
      assert k.IndexKey?;
      assert prefix[..40] == t && Render(k)[..40] == k.token;
      assert Render(k)[..40] == prefix[..40];
    }
  }

  /** One-level listing of a parent's prefix gives exactly its children. */
  lemma ListingGivesChildren(keys: set<Key>, p: string)
    requires AllWellFormed(keys) && IsDigest(p)
    ensures Names(Rendered(keys), "parent/" + p + "/") == set k | k in keys && k.ParentKey? && k.parent == p :: k.child
  {
    hide Name, Render;
    var prefix := "parent/" + p + "/";
    var children := set k | k in keys && k.ParentKey? && k.parent == p :: k.child;
    forall k | k in keys
      ensures prefix <= Render(k) <==> k.ParentKey? && k.parent == p
      ensures k.ParentKey? && k.parent == p ==> Name(Render(k)[|prefix|..]) == k.child
    {
      BelowParent(k, p);
      if k.ParentKey? {
        NameOfDigest(k.child);
      }
    }
    forall n | n in Names(Rendered(keys), prefix) ensures n in children {
      var s :| s in Rendered(keys) && prefix <= s && n == Name(s[|prefix|..]);
      var k :| k in keys && s == Render(k);
    }
    forall c | c in children ensures c in Names(Rendered(keys), prefix) {
      var k :| k in keys && k.ParentKey? && k.parent == p && c == k.child;
      assert Render(k) in Rendered(keys);
    }
  }

  /** One-level listing of a token's prefix gives exactly its leases. */
  lemma ListingGivesLeases(keys: set<Key>, t: string)
    requires AllWellFormed(keys) && IsDigest(t)
    ensures Names(Rendered(keys), t + "/") == set k | k in keys && k.IndexKey? && k.token == t :: k.lease
  {
    hide Name, Render;
    var prefix := t + "/";
    var leases := set k | k in keys && k.IndexKey? && k.token == t :: k.lease;
    forall k | k in keys
      ensures prefix <= Render(k) <==> k.IndexKey? && k.token == t
      ensures k.IndexKey? && k.token == t ==> Name(Render(k)[|prefix|..]) == k.lease
    {
      BelowToken(k, t);
      if k.IndexKey? {
        NameOfDigest(k.lease);
      }
    }
    forall n | n in Names(Rendered(keys), prefix) ensures n in leases {
      var s :| s in Rendered(keys) && prefix <= s && n == Name(s[|prefix|..]);
      var k :| k in keys && s == Render(k);
    }
    forall l | l in leases ensures l in Names(Rendered(keys), prefix) {
      var k :| k in keys && k.IndexKey? && k.token == t && l == k.lease;
      assert Render(k) in Rendered(keys);
    }
  }

  // ---- The keys of a token store.

  /** `salt_id`: digests, different ones for different strings in use. */
  ghost predicate Salting(salt: string -> string, used: set<string>) {
    && (forall s | s in used :: IsDigest(salt(s)))
    && (forall s, t | s in used && t in used :: salt(s) == salt(t) ==> s == t)
  }

  /** The string form of a lease id. */
  function LeaseName(l: T.LeaseId, salt: string -> string): string {
    match l
    case SecretLease(path, uuid) => path + "/" + uuid
    case TokenLease(path, token) => path + "/" + salt(token)
  }

  predicate IsUuid(s: string) {
    |s| == 36 && NoSlash(s) && NoDot(s)
  }

  ghost predicate ProperLease(l: T.LeaseId, used: set<string>) {
    match l
    case SecretLease(path, uuid) => IsUuid(uuid)
    case TokenLease(path, token) => token in used
  }

  /** The view's sanity check on a lease id is the check on the lease's path. */
  lemma LeaseNameIsSane(l: T.LeaseId, salt: string -> string, used: set<string>)
    requires Salting(salt, used) && ProperLease(l, used)
    ensures Sane(LeaseName(l, salt)) <==> T.SanePath(l.path)
  {
    var last := if l.SecretLease? then l.uuid else salt(l.token);
    var name := l.path + "/" + last;
    assert LeaseName(l, salt) == name;
    assert name[|l.path|] == '/';
    assert forall i | 0 <= i < |l.path| :: name[i] == l.path[i];
    assert forall i | |l.path| < i < |name| :: name[i] == last[i - |l.path| - 1];
    if ContainsDotDot(l.path) {
      var i :| 0 <= i < |l.path| - 1 && l.path[i] == '.' && l.path[i + 1] == '.';
      assert name[i] == '.' && name[i + 1] == '.';
    }
    if ContainsDotDot(name) {
      var i :| 0 <= i < |name| - 1 && name[i] == '.' && name[i + 1] == '.';
      assert l.path[i] == '.' && l.path[i + 1] == '.';
    }
  }

  lemma NoSlashAfter(path: string, last: string, i: nat)
    requires NoSlash(last) && i < |path + "/" + last| && (path + "/" + last)[i] == '/'
    ensures i <= |path|
  {
    var s := path + "/" + last;
    assert forall j | |path| < j < |s| :: s[j] == last[j - |path| - 1];
  }

  lemma LastSlash(path: string, last: string, path': string, last': string)
    requires NoSlash(last) && NoSlash(last') && path + "/" + last == path' + "/" + last'
    ensures path == path' && last == last'
  {
    var s := path + "/" + last;
    assert s[|path|] == '/' && s[|path'|] == '/';
    NoSlashAfter(path, last, |path'|);
    NoSlashAfter(path', last', |path|);
    assert path == s[..|path|] && path' == s[..|path'|];
    assert last == s[|path| + 1..] && last' == s[|path'| + 1..];
  }

  /** Secrets and tokens, under whatever paths, never share a lease id. */
  lemma LeaseNamesNeverCollide(l: T.LeaseId, l': T.LeaseId, salt: string -> string, used: set<string>)
    requires Salting(salt, used) && ProperLease(l, used) && ProperLease(l', used)
    requires LeaseName(l, salt) == LeaseName(l', salt)
    ensures l == l'
  {
    var last := if l.SecretLease? then l.uuid else salt(l.token);
    var last' := if l'.SecretLease? then l'.uuid else salt(l'.token);
    LastSlash(l.path, last, l'.path, last');
  }

  /** The entries that a token store with the given contents keeps below `sys/token/`. */
  function Layout(tokens: set<Id>, parents: Edges, index: set<(Id, T.LeaseId)>, salt: string -> string): set<Key> {
    {SaltKey}
    + (set x | x in tokens :: TokenKey(salt(x)))
    + (set e | e in parents :: ParentKey(salt(e.0), salt(e.1)))
    + (set i | i in index :: IndexKey(salt(i.0), salt(LeaseName(i.1, salt))))
  }

  /** All ids and lease ids of the contents are salted without a collision. */
  ghost predicate InUse(tokens: set<Id>, parents: Edges, index: set<(Id, T.LeaseId)>, salt: string -> string,
                        used: set<string>)
  {
    && Salting(salt, used)
    && (forall x | x in tokens :: x in used)
    && (forall e | e in parents :: e.0 in used && e.1 in used)
    && (forall i | i in index :: i.0 in used && ProperLease(i.1, used) && LeaseName(i.1, salt) in used)
  }

  lemma LayoutWellFormed(tokens: set<Id>, parents: Edges, index: set<(Id, T.LeaseId)>, salt: string -> string,
                         used: set<string>)
    requires InUse(tokens, parents, index, salt, used)
    ensures AllWellFormed(Layout(tokens, parents, index, salt))
  {
    hide IsDigest;
  }

  /** Looking up one entry of the storage tells whether it is in the contents. */
  lemma LookupsAreExact(tokens: set<Id>, parents: Edges, index: set<(Id, T.LeaseId)>, salt: string -> string,
                        used: set<string>, x: Id, y: Id, l: T.LeaseId)
    requires InUse(tokens, parents, index, salt, used)
    requires x in used && y in used && ProperLease(l, used) && LeaseName(l, salt) in used
    ensures "salt" in Rendered(Layout(tokens, parents, index, salt))
    ensures var stored := Rendered(Layout(tokens, parents, index, salt));
            && ("id/" + salt(x) in stored <==> x in tokens)
            && ("parent/" + salt(x) + "/" + salt(y) in stored <==> (x, y) in parents)
            && (salt(x) + "/" + salt(LeaseName(l, salt)) in stored <==> (x, l) in index)
  {
    var keys := Layout(tokens, parents, index, salt);
    LayoutWellFormed(tokens, parents, index, salt, used);
    assert SaltKey in keys;
    EntriesAreSeparate(keys, SaltKey);
    EntriesAreSeparate(keys, TokenKey(salt(x)));
    EntriesAreSeparate(keys, ParentKey(salt(x), salt(y)));
    EntriesAreSeparate(keys, IndexKey(salt(x), salt(LeaseName(l, salt))));
    hide Layout, IsDigest, Rendered, AllWellFormed, LeaseName, ProperLease, InUse;
    TokenAndParentEntries(tokens, parents, index, salt, used, x, y);
    IndexEntry(tokens, parents, index, salt, used, x, l);
  }

  lemma TokenAndParentEntries(tokens: set<Id>, parents: Edges, index: set<(Id, T.LeaseId)>, salt: string -> string,
                              used: set<string>, x: Id, y: Id)
    requires InUse(tokens, parents, index, salt, used) && x in used && y in used
    ensures TokenKey(salt(x)) in Layout(tokens, parents, index, salt) <==> x in tokens
    ensures ParentKey(salt(x), salt(y)) in Layout(tokens, parents, index, salt) <==> (x, y) in parents
  {
    hide IsDigest, LeaseName, ProperLease;
    if (x, y) in parents {
      assert ParentKey(salt((x, y).0), salt((x, y).1)) in Layout(tokens, parents, index, salt);
    }
  }

  lemma IndexEntry(tokens: set<Id>, parents: Edges, index: set<(Id, T.LeaseId)>, salt: string -> string,
                   used: set<string>, x: Id, l: T.LeaseId)
    requires InUse(tokens, parents, index, salt, used)
    requires x in used && ProperLease(l, used) && LeaseName(l, salt) in used
    ensures IndexKey(salt(x), salt(LeaseName(l, salt))) in Layout(tokens, parents, index, salt) <==> (x, l) in index
  {
    hide IsDigest, LeaseName, ProperLease;
    var key := IndexKey(salt(x), salt(LeaseName(l, salt)));
    if (x, l) in index {
      assert key == IndexKey(salt((x, l).0), salt(LeaseName((x, l).1, salt)));
    }
    if key in Layout(tokens, parents, index, salt) {
      var i :| i in index && key == IndexKey(salt(i.0), salt(LeaseName(i.1, salt)));
      LeaseNamesNeverCollide(i.1, l, salt, used);
    }
  }

  /** Listing a parent's prefix in the storage gives exactly the salted ids of its children. */
  lemma StoredChildren(tokens: set<Id>, parents: Edges, index: set<(Id, T.LeaseId)>, salt: string -> string,
                       used: set<string>, p: Id)
    requires InUse(tokens, parents, index, salt, used) && p in used
    ensures Names(Rendered(Layout(tokens, parents, index, salt)), "parent/" + salt(p) + "/") ==
            set e | e in parents && e.0 == p :: salt(e.1)
  {
    hide IsDigest, Rendered, AllWellFormed, LeaseName, ProperLease, Names;
    var keys := Layout(tokens, parents, index, salt);
    LayoutWellFormed(tokens, parents, index, salt, used);
    ListingGivesChildren(keys, salt(p));
    var listed := set k | k in keys && k.ParentKey? && k.parent == salt(p) :: k.child;
    forall e | e in parents && e.0 == p ensures salt(e.1) in listed {
      assert ParentKey(salt(e.0), salt(e.1)) in keys;
    }
  }

  /** Listing a token's prefix gives exactly the salted ids of the leases in its index. */
  lemma StoredLeases(tokens: set<Id>, parents: Edges, index: set<(Id, T.LeaseId)>, salt: string -> string,
                     used: set<string>, t: Id)
    requires InUse(tokens, parents, index, salt, used) && t in used
    ensures Names(Rendered(Layout(tokens, parents, index, salt)), salt(t) + "/") ==
            set i | i in index && i.0 == t :: salt(LeaseName(i.1, salt))
  {
    hide IsDigest, Rendered, AllWellFormed, LeaseName, ProperLease, Names;
    var keys := Layout(tokens, parents, index, salt);
    LayoutWellFormed(tokens, parents, index, salt, used);
    ListingGivesLeases(keys, salt(t));
    var listed := set k | k in keys && k.IndexKey? && k.token == salt(t) :: k.lease;
    forall i | i in index && i.0 == t ensures salt(LeaseName(i.1, salt)) in listed {
      assert IndexKey(salt(i.0), salt(LeaseName(i.1, salt))) in keys;
    }
  }
}
