/**
  Tokens and their leases: `src/modules/auth/token_store.rs` and
  `src/modules/auth/expiration.rs`, which call each other and share one storage.

  Ids are the salted ones; `salt_id` is taken to be injective on the ids in use, so a raw
  id and its salted form are identified. Records are stored as values. The field `budget`
  is the number of storage calls that still succeed: when it is used up, every call fails,
  so a method stopped by it has been interrupted between two of its storage calls.
  */
module TokenStore {
  import opened Wrappers
  import opened Forest
  import L = Lease
  import Views

  /** What a successful check hands out: the token's policies, plain and sanitised. */
  datatype Auth = Auth(clientToken: Id, tokenPolicies: seq<string>, policies: seq<string>)

  datatype TokenEntry = TokenEntry(
    id: Id, parent: Id, policies: seq<string>, path: string, numUses: nat,
    ttl: nat, period: nat, explicitMaxTtl: nat)

  /** A secret's lease ends in a fresh uuid, a token's lease in the token. */
  datatype LeaseId = SecretLease(path: string, uuid: string) | TokenLease(path: string, token: Id)

  datatype LeaseEntry = LeaseEntry(
    leaseId: LeaseId, clientToken: Id, path: string, renewable: bool, issueTime: nat, expireTime: nat)

  /** What `PartialEq` and `Hash` of a lease entry look at. */
  datatype QueueKey = QueueKey(leaseId: LeaseId, clientToken: Id, path: string)

  /**
    The paths under which a lease can be stored: the view's sanity check on the lease id,
    that is the path, a slash and a uuid or digest.
    */
  predicate SanePath(path: string) {
    path != "" && path[0] != '/' && !Views.ContainsDotDot(path)
  }

  function KeyOf(le: LeaseEntry): QueueKey {
    QueueKey(le.leaseId, le.clientToken, le.path)
  }

  function Priority(expireTime: nat): nat {
    expireTime / L.MILLISECOND
  }

  // ---- Invariants, as statements about values.

  /** Children are younger than their parents. */
  ghost predicate ForestOk(parents: Edges, rank: map<Id, nat>, clock: nat) {
    forall e | e in parents :: e.0 in rank && e.1 in rank && rank[e.0] < rank[e.1] < clock
  }

  /** Every stored token is listed under its parent. */
  ghost predicate Listed(tokens: map<Id, TokenEntry>, parents: Edges) {
    forall x | x in tokens ::
      tokens[x].id == x && x != "" && (tokens[x].parent != "" ==> (tokens[x].parent, x) in parents)
  }

  /** Secret leases are indexed under their token, and only they are. */
  ghost predicate LeasesOk(leases: map<LeaseId, LeaseEntry>, index: set<(Id, LeaseId)>, owner: map<LeaseId, QueueKey>) {
    && (forall l | l in leases ::
          && leases[l].leaseId == l && l in owner && owner[l] == KeyOf(leases[l])
          && (leases[l].expireTime == 0 || leases[l].expireTime >= L.SECOND)
          && (l.SecretLease? ==> (leases[l].clientToken, l) in index)
          && (l.TokenLease? ==> leases[l].clientToken == l.token != ""))
    && (forall i | i in index :: i.1.SecretLease? && i.1 in owner && owner[i.1].clientToken == i.0)
    && (forall l | l in owner :: owner[l].leaseId == l && SanePath(l.path))
    && (forall l | l in owner && l.TokenLease? :: owner[l] == QueueKey(l, l.token, l.path))
  }

  /** The head of the queue is an entry of least priority. */
  ghost predicate HeadOk(queue: map<QueueKey, nat>, head: Option<QueueKey>) {
    && (head.None? <==> queue == map[])
    && (head.Some? ==> head.value in queue && forall k | k in queue :: queue[head.value] <= queue[k])
  }

  /** Every stored lease that expires has one queue entry, at its expiry in milliseconds. */
  ghost predicate QueueOk(leases: map<LeaseId, LeaseEntry>, queue: map<QueueKey, nat>, owner: map<LeaseId, QueueKey>) {
    && (forall l | l in leases && leases[l].expireTime != 0 ::
          KeyOf(leases[l]) in queue && queue[KeyOf(leases[l])] == Priority(leases[l].expireTime))
    && (forall k | k in queue :: k.leaseId in owner && owner[k.leaseId] == k)
    && (forall k | k in queue && k.leaseId in leases :: queue[k] == Priority(leases[k.leaseId].expireTime))
  }

  ghost predicate NoSecrets(leases: map<LeaseId, LeaseEntry>, t: Id) {
    forall l | l in leases :: l.SecretLease? ==> leases[l].clientToken != t
  }

  ghost predicate SubMap<K, V>(m: map<K, V>, n: map<K, V>) {
    forall k | k in m :: k in n && m[k] == n[k]
  }

  /** Leases disappear only as secrets of tokens in a given set. */
  ghost predicate LeasesCut(leases: map<LeaseId, LeaseEntry>, leases': map<LeaseId, LeaseEntry>, gone: set<Id>) {
    && SubMap(leases', leases)
    && forall l | l in leases && l !in leases' :: l.SecretLease? && leases[l].clientToken in gone
  }

  /** A revocation leaves the queue alone, or its head is an entry of a revoked lease. */
  ghost predicate QueueGrew(queue: map<QueueKey, nat>, head: Option<QueueKey>,
                            queue': map<QueueKey, nat>, head': Option<QueueKey>) {
    && queue.Keys <= queue'.Keys
    && (forall k | k in queue' && queue'[k] != 0 :: k in queue && queue[k] != 0)
    && ((queue' == queue && head' == head) || (head'.Some? && head'.value in queue' && queue'[head'.value] == 0))
  }

  // ---- How many storage calls suffice.

  /** A call makes at most cost storage calls, and succeeds if so many still do. */
  ghost predicate Affordable(before: nat, after: nat, cost: nat, ok: bool) {
    after + cost >= before && (before >= cost ==> ok)
  }

  /** Enough storage calls to revoke a tree of a height, with so many entries in the two indexes. */
  function Enough(height: nat, parents: nat, index: nat): nat {
    5 + 4 * index + if height == 0 then 0 else parents * Enough(height - 1, parents, index)
  }

  lemma {:induction false} EnoughMonotone(h: nat, p: nat, i: nat, h': nat, p': nat, i': nat)
    requires h <= h' && p <= p' && i <= i'
    ensures Enough(h, p, i) <= Enough(h', p', i')
  {
    if h > 0 {
      EnoughMonotone(h - 1, p, i, h' - 1, p', i');
      Product(p, p', Enough(h - 1, p, i), Enough(h' - 1, p', i'));
    }
  }

  lemma Product(a: nat, b: nat, x: nat, y: nat)
    requires a <= b && x <= y
    ensures a * x <= b * y
  {
    assert a * x <= a * y;
    assert a * y <= b * y;
  }

  /** The entries under one id are no more than all entries. */
  lemma {:induction false} FewerThanPairs<T>(pairs: set<(Id, T)>, t: Id, under: set<T>)
    requires forall x | x in under :: (t, x) in pairs
    ensures |under| <= |pairs|
  {
    if under != {} {
      var x :| x in under;
      FewerThanPairs(pairs - {(t, x)}, t, under - {x});
    }
  }

  lemma FewerSet<T>(a: set<T>, b: set<T>)
    requires a <= b
    ensures |a| <= |b|
  {
    assert b == a + (b - a);
  }

  /** The children's trees and the token itself. */
  lemma EnoughForTree(h: nat, p: nat, i: nat, children: nat)
    requires children <= p
    ensures 5 + 4 * i + EnoughBelow(children, h, p, i) <= Enough(h, p, i)
  {
    if h > 0 {
      Product(children, p, Enough(h - 1, p, i), Enough(h - 1, p, i));
    }
  }

  lemma EnoughForOne(h: nat, p: nat, i: nat)
    ensures 5 + 4 * i <= Enough(h, p, i)
  {
    if h > 0 {
      Product(0, p, 0, Enough(h - 1, p, i));
    }
  }

  /** Enough storage calls for so many trees that are less high than the given height. */
  function EnoughBelow(children: nat, h: nat, p: nat, i: nat): nat {
    if h == 0 then 0 else children * Enough(h - 1, p, i)
  }

  /** One of several equal shares of a cost is spent. */
  lemma ShareSpent(all: nat, left: nat, each: nat)
    requires 0 < left <= all
    ensures (all - left) * each + each == (all - (left - 1)) * each
    ensures (all - left) * each + each <= all * each
  {
    assert (all - left) * each + each == (all - left + 1) * each;
    Product(all - left + 1, all, each, each);
  }

  /** Removing leases keeps the lease invariants. */
  lemma LeasesShrink(leases: map<LeaseId, LeaseEntry>, index: set<(Id, LeaseId)>, owner: map<LeaseId, QueueKey>,
                     queue: map<QueueKey, nat>, l: LeaseId)
    requires LeasesOk(leases, index, owner) && QueueOk(leases, queue, owner)
    ensures LeasesOk(leases - {l}, index, owner) && QueueOk(leases - {l}, queue, owner)
    ensures l in leases ==> LeasesOk(leases - {l}, index - {(leases[l].clientToken, l)}, owner)
    ensures l in leases ==> QueueOk(leases - {l}, queue[KeyOf(leases[l]) := 0], owner)
  {
    hide SanePath;
    QueueShrinks(leases, index, owner, queue, l);
    hide QueueOk;
  }

  lemma QueueShrinks(leases: map<LeaseId, LeaseEntry>, index: set<(Id, LeaseId)>, owner: map<LeaseId, QueueKey>,
                     queue: map<QueueKey, nat>, l: LeaseId)
    requires LeasesOk(leases, index, owner) && QueueOk(leases, queue, owner)
    ensures QueueOk(leases - {l}, queue, owner)
    ensures l in leases ==> QueueOk(leases - {l}, queue[KeyOf(leases[l]) := 0], owner)
  {
    hide SanePath;
  }

  // ---- What revocations do, as relations between states.

  datatype Snap = Snap(
    tokens: map<Id, TokenEntry>, parents: Edges, leases: map<LeaseId, LeaseEntry>,
    queue: map<QueueKey, nat>, head: Option<QueueKey>)

  /** A step that touches leases of one token only. */
  ghost predicate LeaseStep(a: Snap, b: Snap, gone: set<Id>) {
    && b.tokens == a.tokens && b.parents == a.parents
    && LeasesCut(a.leases, b.leases, gone)
    && QueueGrew(a.queue, a.head, b.queue, b.head)
  }

  /** One token revoked, or a first part of that. */
  ghost predicate OneRevoked(a: Snap, b: Snap, s: Id) {
    && (b.tokens == a.tokens || b.tokens == a.tokens - {s})
    && b.parents <= a.parents
    && (forall e | e in a.parents && e !in b.parents :: e.1 == s && s in a.tokens && b.tokens == a.tokens - {s})
    && LeasesCut(a.leases, b.leases, {s} - b.tokens.Keys)
    && (s !in a.tokens ==> b.leases == a.leases)
    && QueueGrew(a.queue, a.head, b.queue, b.head)
  }

  lemma NotEmptyStop(a: Snap, s: Id, budget: nat)
    ensures StopsShort(a, s, budget) ==> s in a.tokens
  {}

  /** A tree revoked, or a first part of that: bottom up, and only below s. */
  ghost predicate TreeRevoked(a: Snap, b: Snap, s: Id) {
    && SubMap(b.tokens, a.tokens)
    && Pruned(a.tokens.Keys, a.parents, b.tokens.Keys, b.parents)
    && (forall x | x in a.tokens && x !in b.tokens :: Reach(a.parents, s, x))
    && LeasesCut(a.leases, b.leases, a.tokens.Keys - b.tokens.Keys)
    && QueueGrew(a.queue, a.head, b.queue, b.head)
  }

  /** No stored secret belongs to a token that went away. */
  ghost predicate Thorough(a: Snap, b: Snap) {
    forall x | x in a.tokens && x !in b.tokens :: NoSecrets(b.leases, x)
  }

  /** The same for all tokens that went away but one. */
  ghost predicate ThoroughExcept(a: Snap, b: Snap, x: Id) {
    forall y | y in a.tokens && y !in b.tokens && y != x :: NoSecrets(b.leases, y)
  }

  /** A revocation that stops leaves secrets of at most one of the tokens that went away. */
  ghost predicate AlmostThorough(a: Snap, b: Snap) {
    exists x :: ThoroughExcept(a, b, x)
  }

  lemma TreeNothing(a: Snap, s: Id)
    ensures TreeRevoked(a, a, s) && Thorough(a, a) && AlmostThorough(a, a)
  {
    assert ThoroughExcept(a, a, s);
  }

  lemma ThoroughIsAlmost(a: Snap, b: Snap)
    requires Thorough(a, b)
    ensures AlmostThorough(a, b)
  {
    hide NoSecrets;
    assert ThoroughExcept(a, b, "");
  }

  lemma ThoroughTransitive(a: Snap, m: Snap, b: Snap)
    requires Thorough(a, m) && SubMap(b.leases, m.leases)
    ensures Thorough(m, b) ==> Thorough(a, b)
    ensures AlmostThorough(m, b) ==> AlmostThorough(a, b)
  {
    forall x | x in a.tokens && x !in m.tokens ensures NoSecrets(b.leases, x) {
      NoSecretsShrink(m.leases, b.leases, x);
    }
    hide NoSecrets, SubMap;
    if AlmostThorough(m, b) {
      var x :| ThoroughExcept(m, b, x);
      assert ThoroughExcept(a, b, x);
    }
  }

  lemma QueueGrewTransitive(a: Snap, m: Snap, b: Snap)
    requires QueueGrew(a.queue, a.head, m.queue, m.head) && QueueGrew(m.queue, m.head, b.queue, b.head)
    ensures QueueGrew(a.queue, a.head, b.queue, b.head)
  {}

  lemma LeasesCutTransitive(a: map<LeaseId, LeaseEntry>, m: map<LeaseId, LeaseEntry>, b: map<LeaseId, LeaseEntry>,
                            gone: set<Id>, gone': set<Id>)
    requires LeasesCut(a, m, gone) && LeasesCut(m, b, gone')
    ensures LeasesCut(a, b, gone + gone')
  {}

  lemma NoSecretsShrink(leases: map<LeaseId, LeaseEntry>, leases': map<LeaseId, LeaseEntry>, t: Id)
    requires NoSecrets(leases, t) && SubMap(leases', leases)
    ensures NoSecrets(leases', t)
  {}

  lemma BelowChild(e: Edges, e': Edges, s: Id, c: Id, x: Id)
    requires (s, c) in e && e' <= e && Reach(e', c, x)
    ensures Reach(e, s, x)
  {
    ReachMonotone(e', e, c, x);
    ReachFirst(e, s, x);
  }

  /** A child's tree is part of the parent's. */
  lemma TreeWithChild(a: Snap, m: Snap, b: Snap, s: Id, c: Id)
    requires TreeRevoked(a, m, s) && TreeRevoked(m, b, c) && (s, c) in a.parents
    ensures TreeRevoked(a, b, s)
    ensures Thorough(a, m) && Thorough(m, b) ==> Thorough(a, b)
    ensures Thorough(a, m) && AlmostThorough(m, b) ==> AlmostThorough(a, b)
    ensures forall d | Cleared(m.tokens.Keys, a.parents, d) :: Cleared(b.tokens.Keys, a.parents, d)
    ensures Cleared(b.tokens.Keys, m.parents, c) ==> Cleared(b.tokens.Keys, a.parents, c)
  {
    PrunedTransitive(a.tokens.Keys, a.parents, m.tokens.Keys, m.parents, b.tokens.Keys, b.parents);
    QueueGrewTransitive(a, m, b);
    LeasesCutTransitive(a.leases, m.leases, b.leases,
                        a.tokens.Keys - m.tokens.Keys, m.tokens.Keys - b.tokens.Keys);
    assert (a.tokens.Keys - m.tokens.Keys) + (m.tokens.Keys - b.tokens.Keys) == a.tokens.Keys - b.tokens.Keys;
    forall x | x in m.tokens && x !in b.tokens ensures Reach(a.parents, s, x) {
      BelowChild(a.parents, m.parents, s, c, x);
    }
    if Thorough(a, m) {
      ThoroughTransitive(a, m, b);
    }
    hide Thorough, AlmostThorough;
    if Cleared(b.tokens.Keys, m.parents, c) {
      ClearedBackwards(a.tokens.Keys, a.parents, m.tokens.Keys, m.parents, b.tokens.Keys, c);
    }
  }

  lemma ClearedFewerEdges(e: Edges, e': Edges, live: set<Id>, c: Id)
    requires e' <= e && Cleared(live, e, c)
    ensures Cleared(live, e', c)
  {
    forall y | y in live ensures !Reach(e', c, y) {
      MonotoneImplication(e', e, c, y);
    }
  }

  lemma MonotoneImplication(e: Edges, f: Edges, x: Id, y: Id)
    requires e <= f
    ensures Reach(e, x, y) ==> Reach(f, x, y)
  {
    if Reach(e, x, y) {
      ReachMonotone(e, f, x, y);
    }
  }

  lemma AllGone(live: set<Id>, e: Edges, s: Id, live': set<Id>)
    requires forall c | (s, c) in e :: Cleared(live, e, c)
    requires live' <= live && s !in live'
    ensures Cleared(live', e, s)
  {
    forall y | y in live' ensures !Reach(e, s, y) {
      ReachFirst(e, s, y);
    }
  }

  lemma OneIsPruned(a: Snap, m: Snap, b: Snap, s: Id)
    requires m.parents <= a.parents && OneRevoked(m, b, s)
    requires forall c | (s, c) in a.parents :: Cleared(m.tokens.Keys, a.parents, c)
    ensures Pruned(m.tokens.Keys, m.parents, b.tokens.Keys, b.parents)
  {
    var live, live' := m.tokens.Keys, b.tokens.Keys;
    forall c | (s, c) in m.parents ensures Cleared(live, m.parents, c) {
      ClearedFewerEdges(a.parents, m.parents, live, c);
    }
    hide Cleared;
    assert live' == live || live' == live - {s};
    PrunedOne(live, m.parents, live', b.parents, s);
  }

  /** With the children's trees gone, the token itself goes last. */
  lemma TreeWithRoot(a: Snap, m: Snap, b: Snap, s: Id)
    requires TreeRevoked(a, m, s) && OneRevoked(m, b, s)
    requires forall c | (s, c) in a.parents :: Cleared(m.tokens.Keys, a.parents, c)
    ensures TreeRevoked(a, b, s)
    ensures s !in b.tokens ==> Cleared(b.tokens.Keys, a.parents, s)
    ensures Thorough(a, m) && (s in m.tokens ==> NoSecrets(b.leases, s)) ==> Thorough(a, b)
    ensures Thorough(a, m) ==> AlmostThorough(a, b)
  {
    var live, live' := m.tokens.Keys, b.tokens.Keys;
    PrunedEdges(a, m);
    hide Pruned, Cleared, Reach;
    OneIsPruned(a, m, b, s);
    PrunedTransitive(a.tokens.Keys, a.parents, live, m.parents, live', b.parents);
    QueueGrewTransitive(a, m, b);
    ReachSelf(a.parents, s);
    RootLeases(a, m, b, s);
    if s !in b.tokens {
      AllGone(live, a.parents, s, live');
    }
    if Thorough(a, m) {
      ThoroughTransitive(a, m, b);
      assert ThoroughExcept(m, b, s);
    }
  }

  lemma RootLeases(a: Snap, m: Snap, b: Snap, s: Id)
    requires TreeRevoked(a, m, s) && OneRevoked(m, b, s)
    ensures LeasesCut(a.leases, b.leases, a.tokens.Keys - b.tokens.Keys)
  {
    PrunedEdges(a, m);
    hide Pruned, Reach;
    if s in m.tokens {
      LeasesCutTransitive(a.leases, m.leases, b.leases, a.tokens.Keys - m.tokens.Keys, {s} - b.tokens.Keys);
    }
  }

  ghost predicate OwnedBy(owner: map<LeaseId, QueueKey>, t: Id, todo: set<LeaseId>) {
    forall l | l in todo :: l.SecretLease? && l in owner && owner[l].clientToken == t
  }

  ghost predicate SecretsAmong(leases: map<LeaseId, LeaseEntry>, t: Id, todo: set<LeaseId>) {
    forall l | l in leases && l.SecretLease? && leases[l].clientToken == t :: l in todo
  }

  lemma NoLeaseStep(a: Snap, t: Id)
    ensures LeaseStep(a, a, {t})
  {}

  /** The index entries of a token name exactly its secrets, and perhaps revoked ones. */
  lemma IndexFacts(leases: map<LeaseId, LeaseEntry>, index: set<(Id, LeaseId)>, owner: map<LeaseId, QueueKey>,
                   t: Id, todo: set<LeaseId>)
    requires LeasesOk(leases, index, owner) && todo == set i | i in index && i.0 == t :: i.1
    ensures OwnedBy(owner, t, todo) && SecretsAmong(leases, t, todo)
  {
    forall l | l in leases && l.SecretLease? && leases[l].clientToken == t ensures l in todo {
      assert (t, l) in index;
    }
  }

  lemma OwnedLease(leases: map<LeaseId, LeaseEntry>, index: set<(Id, LeaseId)>, owner: map<LeaseId, QueueKey>,
                   t: Id, todo: set<LeaseId>, l: LeaseId)
    requires LeasesOk(leases, index, owner) && OwnedBy(owner, t, todo) && l in todo
    ensures l.SecretLease? && SanePath(l.path) && (l in leases ==> leases[l].clientToken == t)
    ensures OwnedBy(owner, t, todo - {l})
  {}

  lemma FewerSecrets(m: Snap, b: Snap, t: Id, todo: set<LeaseId>, l: LeaseId)
    requires SecretsAmong(m.leases, t, todo) && LeaseTaken(m, b, l)
    ensures SecretsAmong(b.leases, t, todo)
    ensures l !in b.leases ==> SecretsAmong(b.leases, t, todo - {l})
  {}

  lemma SecretsGone(leases: map<LeaseId, LeaseEntry>, t: Id, todo: set<LeaseId>)
    requires SecretsAmong(leases, t, todo) && todo == {}
    ensures NoSecrets(leases, t)
  {}

  /** The storage fails right after a token without children, and its index entry, are deleted. */
  ghost predicate StopsShort(a: Snap, s: Id, budget: nat) {
    && s in a.tokens && (forall e | e in a.parents :: e.0 != s)
    && budget == if a.tokens[s].parent != "" then 4 else 3
  }

  /** There is neither the token nor an entry below it, and the storage lasts. */
  ghost predicate NothingThere(a: Snap, s: Id, budget: nat) {
    s !in a.tokens && (forall e | e in a.parents :: e.0 != s) && budget >= 3
  }

  lemma StopsWithoutChildren(a: Snap, s: Id, budget: nat)
    ensures StopsShort(a, s, budget) || NothingThere(a, s, budget) ==> budget > 0 && forall c :: (s, c) !in a.parents
  {}

  lemma OneNothing(a: Snap, s: Id)
    ensures OneRevoked(a, a, s)
  {}

  /** Deleting a token's record, and its index entry, keeps tokens listed. */
  lemma TokenDropped(tokens: map<Id, TokenEntry>, parents: Edges, rank: map<Id, nat>, clock: nat, s: Id)
    requires Listed(tokens, parents) && ForestOk(parents, rank, clock)
    ensures Listed(tokens - {s}, parents)
    ensures s in tokens ==>
              && tokens[s].id == s
              && Listed(tokens - {s}, parents - {(tokens[s].parent, s)})
              && ForestOk(parents - {(tokens[s].parent, s)}, rank, clock)
  {}

  /** The index entry of a revoked token is gone, and no other. */
  ghost predicate TokenUnlisted(a: Snap, b: Snap, s: Id) {
    b.parents ==
      if s in a.tokens && a.tokens[s].parent != "" then a.parents - {(a.tokens[s].parent, s)} else a.parents
  }

  lemma OneDropped(a: Snap, b: Snap, s: Id)
    requires b.tokens == a.tokens - {s} && b.leases == a.leases && b.queue == a.queue && b.head == a.head
    requires b.parents == a.parents || (s in a.tokens && b.parents == a.parents - {(a.tokens[s].parent, s)})
    ensures OneRevoked(a, b, s)
  {}

  lemma OneWithLeases(a: Snap, m: Snap, b: Snap, s: Id)
    requires OneRevoked(a, m, s) && m.tokens == a.tokens - {s} && m.leases == a.leases && s in a.tokens
    requires LeaseStep(m, b, {s})
    ensures OneRevoked(a, b, s) && b.tokens == m.tokens && b.parents == m.parents
  {
    QueueGrewTransitive(a, m, b);
    assert {s} - b.tokens.Keys == {s};
  }

  /** A revoked lease is out of its token's index, and in the queue as revoked if that is asked for. */
  ghost predicate LeaseDropped(le: LeaseEntry, index: set<(Id, LeaseId)>, queue: map<QueueKey, nat>,
                               queue': map<QueueKey, nat>, register: bool)
  {
    && (le.leaseId.SecretLease? ==> (le.clientToken, le.leaseId) !in index)
    && (register ==> KeyOf(le) in queue' && queue'[KeyOf(le)] == 0)
    && (!register ==> queue' == queue)
  }

  /** The secrets of a token, apart from those still to do, are out of the index and queued as revoked. */
  ghost predicate SecretsDropped(leases: map<LeaseId, LeaseEntry>, index: set<(Id, LeaseId)>, queue: map<QueueKey, nat>,
                                 t: Id, todo: set<LeaseId>)
  {
    forall l | l in leases && l.SecretLease? && leases[l].clientToken == t && l !in todo ::
      (t, l) !in index && KeyOf(leases[l]) in queue && queue[KeyOf(leases[l])] == 0
  }

  /** Leases still to do are as they were. */
  ghost predicate Untouched(leases: map<LeaseId, LeaseEntry>, leases': map<LeaseId, LeaseEntry>, todo: set<LeaseId>) {
    forall l | l in todo && l in leases :: l in leases' && leases'[l] == leases[l]
  }

  lemma StillThere(leases: map<LeaseId, LeaseEntry>, leases': map<LeaseId, LeaseEntry>, todo: set<LeaseId>, l: LeaseId)
    requires Untouched(leases, leases', todo) && l in todo
    ensures l in leases ==> l in leases' && leases'[l] == leases[l]
  {}

  lemma LeaseIds(leases: map<LeaseId, LeaseEntry>, index: set<(Id, LeaseId)>, owner: map<LeaseId, QueueKey>)
    requires LeasesOk(leases, index, owner)
    ensures forall l | l in leases :: leases[l].leaseId == l
  {}

  lemma NothingDropped(leases: map<LeaseId, LeaseEntry>, index: set<(Id, LeaseId)>, queue: map<QueueKey, nat>, t: Id,
                       todo: set<LeaseId>)
    requires SecretsAmong(leases, t, todo)
    ensures SecretsDropped(leases, index, queue, t, todo) && Untouched(leases, leases, todo)
  {}

  lemma OneMoreDropped(leases: map<LeaseId, LeaseEntry>, m: Snap, b: Snap, index: set<(Id, LeaseId)>,
                       index': set<(Id, LeaseId)>, t: Id, todo: set<LeaseId>, l: LeaseId)
    requires SecretsDropped(leases, index, m.queue, t, todo) && Untouched(leases, m.leases, todo) && l in todo
    requires LeaseTaken(m, b, l) && index' <= index
    requires l in leases ==> leases[l].leaseId == l && LeaseDropped(leases[l], index', m.queue, b.queue, true)
    ensures SecretsDropped(leases, index', b.queue, t, todo - {l}) && Untouched(leases, b.leases, todo - {l})
  {}

  /** At most one lease was taken out of a state. */
  ghost predicate LeaseTaken(m: Snap, b: Snap, l: LeaseId) {
    && b.tokens == m.tokens && b.parents == m.parents
    && (b.leases == m.leases || b.leases == m.leases - {l})
    && QueueGrew(m.queue, m.head, b.queue, b.head)
  }

  lemma LeaseFacts(leases: map<LeaseId, LeaseEntry>, index: set<(Id, LeaseId)>, owner: map<LeaseId, QueueKey>,
                   l: LeaseId)
    requires LeasesOk(leases, index, owner) && l in leases
    ensures leases[l].leaseId == l && l in owner && owner[l] == KeyOf(leases[l]) && SanePath(l.path)
    ensures l.SecretLease? ==> (leases[l].clientToken, l) in index
    ensures l.TokenLease? ==> leases[l].clientToken == l.token != "" && leases[l].path == l.path
  {}

  lemma LeaseStays(a: Snap, m: Snap, l: LeaseId)
    requires l in a.leases && (m == a || (l.TokenLease? && TreeRevoked(a, m, l.token)))
    ensures l in m.leases && m.leases[l] == a.leases[l]
  {}

  /** A secret of t more, or nothing more, is gone. */
  lemma LeaseStepTransitive(a: Snap, m: Snap, b: Snap, t: Id, l: LeaseId)
    requires LeaseStep(a, m, {t}) && LeaseTaken(m, b, l)
    requires l.SecretLease? && (l in m.leases ==> m.leases[l].clientToken == t)
    ensures LeaseStep(a, b, {t})
  {
    QueueGrewTransitive(a, m, b);
  }

  // ---- Sweeping.

  /** A lease that expires, and does so before the millisecond after now. */
  predicate Due(le: LeaseEntry, now: nat) {
    0 < le.expireTime < (now + 1) * L.MILLISECOND
  }

  /** A priority is the expiry in whole milliseconds. */
  lemma PriorityMeans(expireTime: nat, now: nat)
    ensures Priority(expireTime) * 1_000_000 <= expireTime < (Priority(expireTime) + 1) * 1_000_000
    ensures Priority(expireTime) <= now <==> expireTime < (now + 1) * 1_000_000
  {}

  /** A sweep begins exactly if some entry's millisecond is past. */
  lemma OverdueMeans(queue: map<QueueKey, nat>, head: Option<QueueKey>, now: nat)
    requires HeadOk(queue, head)
    ensures Overdue(queue, head, now) <==> exists k :: k in queue && queue[k] < now
  {}

  /** A lease that ends later than the sweep's last millisecond, or never, and does not go with a token, stays. */
  lemma NotYetEndedStays(a: Snap, b: Snap, last: nat, l: LeaseId)
    requires SweptExactly(a, b, last) && l in a.leases
    requires a.leases[l].expireTime == 0 || a.leases[l].expireTime >= (last + 1) * 1_000_000
    requires l.SecretLease? && a.leases[l].clientToken in a.tokens ==> !DueAbove(a, a.leases[l].clientToken, last)
    ensures l in b.leases && b.leases[l] == a.leases[l]
  {
    hide DueAbove;
  }

  predicate Overdue(queue: map<QueueKey, nat>, head: Option<QueueKey>, now: nat) {
    head.Some? && head.value in queue && queue[head.value] < now
  }

  /** x goes because the lease of a token above it, or its own, is due. */
  ghost predicate DueAbove(a: Snap, x: Id, now: nat) {
    exists l :: l in a.leases && l.TokenLease? && Due(a.leases[l], now) && Reach(a.parents, l.token, x)
  }

  /** What a sweep may have removed. */
  ghost predicate Swept(a: Snap, b: Snap, now: nat) {
    && SubMap(b.tokens, a.tokens) && SubMap(b.leases, a.leases)
    && Pruned(a.tokens.Keys, a.parents, b.tokens.Keys, b.parents)
    && (forall x | x in a.tokens && x !in b.tokens :: DueAbove(a, x, now))
    && (forall l | l in a.leases && l !in b.leases ::
          Due(a.leases[l], now) || (l.SecretLease? && a.leases[l].clientToken in a.tokens.Keys - b.tokens.Keys))
  }

  /** The lease of a token goes only after the token's whole tree. */
  ghost predicate TreesGone(a: Snap, b: Snap) {
    forall l | l in a.leases && l !in b.leases && l.TokenLease? :: Cleared(b.tokens.Keys, a.parents, l.token)
  }

  lemma SweptNothing(a: Snap, now: nat)
    ensures Swept(a, a, now) && TreesGone(a, a) && Thorough(a, a)
  {}

  /** Revoking one more lease, a token's with its tree. */
  lemma TreesGoneStep(a: Snap, m0: Snap, m: Snap, b: Snap, l: LeaseId, now: nat)
    requires Swept(a, m0, now) && TreesGone(a, m0) && Thorough(a, m0) && l in m0.leases
    requires if l.TokenLease? then TreeRevoked(m0, m, l.token) && AlmostThorough(m0, m) else m == m0
    requires l.TokenLease? && l !in b.leases ==> Thorough(m0, m) && Cleared(m.tokens.Keys, m0.parents, l.token)
    requires LeaseTaken(m, b, l)
    ensures TreesGone(a, b) && AlmostThorough(a, b)
    ensures l !in b.leases ==> Thorough(a, b)
  {
    TreeFacts(m0, m, b, l);
    ThoroughTransitive(a, m0, b);
    TreesStay(a, m0, m, b, l, now);
  }

  lemma TreeFacts(m0: Snap, m: Snap, b: Snap, l: LeaseId)
    requires if l.TokenLease? then TreeRevoked(m0, m, l.token) && AlmostThorough(m0, m) else m == m0
    requires LeaseTaken(m, b, l)
    ensures SubMap(b.leases, m0.leases) && b.tokens.Keys <= m0.tokens.Keys && AlmostThorough(m0, b)
    ensures Thorough(m0, m) || l.SecretLease? ==> Thorough(m0, b)
  {
    hide Pruned, Reach, QueueGrew;
    if l.TokenLease? {
      var x :| ThoroughExcept(m0, m, x);
      assert ThoroughExcept(m0, b, x);
    } else {
      assert ThoroughExcept(m0, b, "");
    }
  }

  lemma TreesStay(a: Snap, m0: Snap, m: Snap, b: Snap, l: LeaseId, now: nat)
    requires Swept(a, m0, now) && TreesGone(a, m0) && b.tokens.Keys <= m0.tokens.Keys
    requires l.TokenLease? && l !in b.leases && l in m0.leases ==> Cleared(m.tokens.Keys, m0.parents, l.token)
    requires LeaseTaken(m, b, l) && (m.leases == m0.leases || (l.TokenLease? && TreeRevoked(m0, m, l.token)))
    ensures TreesGone(a, b)
  {
    forall k | k in a.leases && k !in b.leases && k.TokenLease? ensures Cleared(b.tokens.Keys, a.parents, k.token) {
      if k in m0.leases {
        TokenLeaseTaken(m0, m, b, l, k);
        hide TreeRevoked, LeaseTaken, TreesGone;
        ClearedBackwards(a.tokens.Keys, a.parents, m0.tokens.Keys, m0.parents, b.tokens.Keys, k.token);
      }
    }
  }

  lemma TokenLeaseTaken(m0: Snap, m: Snap, b: Snap, l: LeaseId, k: LeaseId)
    requires k.TokenLease? && k in m0.leases && k !in b.leases
    requires LeaseTaken(m, b, l) && (m.leases == m0.leases || (l.TokenLease? && TreeRevoked(m0, m, l.token)))
    ensures k == l && b.tokens == m.tokens
  {
    hide Pruned, Reach, QueueGrew;
  }

  lemma DueTreesGone(a: Snap, b: Snap, latest: nat, now: nat)
    requires Swept(a, b, latest) && TreesGone(a, b) && forall l | l in b.leases :: !Due(b.leases[l], now)
    ensures forall l | l in a.leases && l.TokenLease? && Due(a.leases[l], now) ::
              Cleared(b.tokens.Keys, a.parents, l.token)
  {
    hide Pruned, Cleared, DueAbove, Due;
  }

  lemma Completed(a: Snap, b: Snap, last: nat, latest: nat)
    requires Swept(a, b, latest) && TreesGone(a, b) && Thorough(a, b)
    requires forall l | l in b.leases :: !Due(b.leases[l], last)
    ensures forall l | l in a.leases && l.TokenLease? && Due(a.leases[l], last) ::
              Cleared(b.tokens.Keys, a.parents, l.token)
    ensures last == latest ==> SweptExactly(a, b, last)
  {
    hide Swept, TreesGone, Thorough, Cleared, SweptExactly, Due;
    DueTreesGone(a, b, latest, last);
    if last == latest {
      CompleteSweep(a, b, last);
    }
  }

  /** What a complete sweep leaves: all that is not due and not below or of something due. */
  ghost predicate SweptExactly(a: Snap, b: Snap, now: nat) {
    && SubMap(b.tokens, a.tokens) && SubMap(b.leases, a.leases)
    && (forall x | x in a.tokens :: x in b.tokens <==> !DueAbove(a, x, now))
    && (forall l | l in a.leases ::
          l in b.leases <==>
            && !Due(a.leases[l], now)
            && !(l.SecretLease? && a.leases[l].clientToken in a.tokens && DueAbove(a, a.leases[l].clientToken, now)))
  }

  lemma CompleteSweep(a: Snap, b: Snap, now: nat)
    requires Swept(a, b, now) && TreesGone(a, b) && Thorough(a, b)
    requires forall l | l in b.leases :: !Due(b.leases[l], now)
    ensures SweptExactly(a, b, now)
  {
    hide Pruned, Due, Reach;
    forall x | x in a.tokens && DueAbove(a, x, now) ensures x !in b.tokens {
      var l :| l in a.leases && l.TokenLease? && Due(a.leases[l], now) && Reach(a.parents, l.token, x);
      assert l !in b.leases;
    }
    hide DueAbove, Cleared;
  }

  /** The clock does not run backwards. */
  ghost predicate NeverBack(clock: nat -> nat) {
    forall i, j | i <= j :: clock(i) <= clock(j)
  }

  /** The clock was read n + 1 times: last is the last reading and latest the greatest. */
  ghost predicate Readings(clock: nat -> nat, n: nat, last: nat, latest: nat) {
    && last == clock(n)
    && (exists m: nat :: m <= n && clock(m) == latest)
    && (forall m: nat | m <= n :: clock(m) <= latest)
  }

  lemma FirstReading(clock: nat -> nat)
    ensures Readings(clock, 0, clock(0), clock(0))
  {}

  lemma NextReading(clock: nat -> nat, n: nat, last: nat, latest: nat)
    requires Readings(clock, n, last, latest)
    ensures var now := clock(n + 1);
            Readings(clock, n + 1, now, if now > latest then now else latest)
  {
    var m: nat :| m <= n && clock(m) == latest;
    var now := clock(n + 1);
    assert clock(if now > latest then n + 1 else m) == if now > latest then now else latest;
    forall k: nat | k <= n + 1 ensures clock(k) <= if now > latest then now else latest {}
  }

  lemma ReadingsInOrder(clock: nat -> nat, n: nat, last: nat, latest: nat)
    requires Readings(clock, n, last, latest) && NeverBack(clock)
    ensures last == latest >= clock(0)
  {}

  lemma InOrder(clock: nat -> nat, n: nat, last: nat, latest: nat)
    requires Readings(clock, n, last, latest)
    ensures NeverBack(clock) ==> last == latest >= clock(0)
  {
    if NeverBack(clock) {
      ReadingsInOrder(clock, n, last, latest);
    }
  }

  /** The entries of a queue that stand for an expiry. */
  ghost function Live(queue: map<QueueKey, nat>): set<QueueKey> {
    set k | k in queue && queue[k] != 0
  }

  ghost function Weight(leases: map<LeaseId, LeaseEntry>, queue: map<QueueKey, nat>): nat {
    |leases.Keys| + |Live(queue)|
  }

  lemma HeadFacts(queue: map<QueueKey, nat>, head: Option<QueueKey>)
    requires HeadOk(queue, head)
    ensures head.Some? ==> head.value in queue
    ensures head.None? ==> queue == map[]
    ensures head.Some? ==> forall k | k in queue :: queue[head.value] <= queue[k]
  {}

  lemma WeightBound(leases: map<LeaseId, LeaseEntry>, queue: map<QueueKey, nat>)
    ensures Weight(leases, queue) <= |leases| + |queue|
  {
    FewerSet(Live(queue), queue.Keys);
  }

  lemma SmallerSet<T>(a: set<T>, b: set<T>)
    requires a < b
    ensures |a| < |b|
  {
    assert b == a + (b - a);
    assert b - a != {};
  }

  /** Popping an entry makes a store no heavier, and lighter if the entry stood for an expiry. */
  lemma WeightPops(leases: map<LeaseId, LeaseEntry>, queue: map<QueueKey, nat>, k: QueueKey)
    requires k in queue
    ensures Weight(leases, queue - {k}) <= Weight(leases, queue)
    ensures queue[k] != 0 ==> Weight(leases, queue - {k}) < Weight(leases, queue)
  {
    assert Live(queue - {k}) == Live(queue) - {k};
    FewerSet(Live(queue) - {k}, Live(queue));
  }

  /** A revocation makes a store no heavier, and lighter if the lease was there. */
  lemma WeightRevokes(m0: Snap, m: Snap, b: Snap, l: LeaseId)
    requires LeaseTaken(m, b, l) && (m == m0 || (l.TokenLease? && TreeRevoked(m0, m, l.token)))
    ensures Weight(b.leases, b.queue) <= Weight(m0.leases, m0.queue)
    ensures l in m0.leases && l !in b.leases ==> Weight(b.leases, b.queue) < Weight(m0.leases, m0.queue)
  {
    hide Pruned, Reach;
    assert Live(b.queue) <= Live(m.queue) <= Live(m0.queue);
    FewerSet(Live(b.queue), Live(m0.queue));
    assert b.leases.Keys <= m0.leases.Keys;
    FewerSet(b.leases.Keys, m0.leases.Keys);
    if l in m0.leases && l !in b.leases {
      SmallerSet(b.leases.Keys, m0.leases.Keys);
    }
  }

  /** Enough storage calls for a sweep of so many leases and queue entries. */
  function EnoughToSweep(entries: nat, height: nat, parents: nat, index: nat): nat {
    entries * (3 + Enough(height, parents, index))
  }

  /** So far only the shares of the weight that is gone have been spent. */
  ghost predicate Paid(start: nat, budget: nat, all: nat, left: nat, each: nat) {
    left <= all && budget + (all - left) * each >= start
  }

  /** The storage calls did not suffice. */
  ghost predicate TooFew(start: nat, all: nat, each: nat) {
    start < all * each
  }

  /** What a round of a sweep has left of the storage calls that suffice. */
  lemma RoundPaid(all: nat, left: nat, left': nat, each: nat, start: nat, before: nat, after: nat)
    requires 0 < left <= all && left' < left
    requires before + (all - left) * each >= start && after + each >= before
    ensures after + (all - left') * each >= start
    ensures before < each ==> start < all * each
  {
    ShareSpent(all, left, each);
    Product(all - (left - 1), all - left', each, each);
  }

  lemma StartPaid(budget: nat, all: nat, each: nat)
    ensures Paid(budget, budget, all, all, each)
  {}

  /** One child's tree, out of equal shares for all of them. */
  lemma ChildPaid(start: nat, before: nat, after: nat, all: nat, left: nat, cost: nat, each: nat, ok: bool)
    requires Paid(start, before, all, left, each) && left > 0 && cost <= each && Affordable(before, after, cost, ok)
    ensures ok ==> Paid(start, after, all, left - 1, each)
    ensures !ok && after == 0 ==> Affordable(start, after, all * each, false)
  {
    RoundPaid(all, left, left - 1, each, start, before, after);
  }

  lemma AllPaid(start: nat, after: nat, all: nat, each: nat)
    requires Paid(start, after, all, 0, each)
    ensures Affordable(start, after, all * each, true)
  {}

  lemma ChildRanks(parents: Edges, rank: map<Id, nat>, clock: nat, s: Id)
    requires ForestOk(parents, rank, clock)
    ensures forall c | (s, c) in parents :: s in rank && c in rank && rank[s] < rank[c] < clock
  {}

  lemma NothingPaid(leases: map<LeaseId, LeaseEntry>, queue: map<QueueKey, nat>, budget: nat, h: nat, p: nat, i: nat)
    ensures var all, each := Weight(leases, queue), 3 + Enough(h, p, i);
            && Paid(budget, budget, all, all, each)
            && (TooFew(budget, all, each) ==> budget < EnoughToSweep(|leases| + |queue|, h, p, i))
  {
    hide Weight, Enough;
    WeightBound(leases, queue);
    var each := 3 + Enough(h, p, i);
    Product(Weight(leases, queue), |leases| + |queue|, each, each);
  }

  lemma RoundFree(all: nat, left: nat, left': nat, each: nat, start: nat, before: nat)
    requires left <= all && left' <= left && before + (all - left) * each >= start
    ensures before + (all - left') * each >= start
  {
    Product(all - left, all - left', each, each);
  }

  /** What was due is due later. */
  lemma SweptLater(a: Snap, b: Snap, now: nat, later: nat)
    requires Swept(a, b, now) && now <= later
    ensures Swept(a, b, later)
  {
    hide Pruned, SubMap, Reach;
    forall x | x in a.tokens && x !in b.tokens ensures DueAbove(a, x, later) {
      var l :| l in a.leases && l.TokenLease? && Due(a.leases[l], now) && Reach(a.parents, l.token, x);
      assert Due(a.leases[l], later);
    }
  }

  /** Revoking one due lease is part of a sweep. */
  lemma SweptOne(a: Snap, m0: Snap, m: Snap, b: Snap, l: LeaseId, now: nat)
    requires Swept(a, m0, now)
    requires l in m0.leases && Due(m0.leases[l], now)
    requires if l.TokenLease? then TreeRevoked(m0, m, l.token) else m == m0
    requires LeaseTaken(m, b, l)
    ensures Swept(a, b, now)
  {
    hide Cleared, Pruned, Due, QueueGrew, Reach;
    if l.TokenLease? {
      PrunedTransitive(a.tokens.Keys, a.parents, m0.tokens.Keys, m0.parents, m.tokens.Keys, m.parents);
      forall x | x in m0.tokens && x !in m.tokens ensures DueAbove(a, x, now) {
        PrunedEdges(a, m0);
        ReachMonotone(m0.parents, a.parents, l.token, x);
        assert l in a.leases && a.leases[l] == m0.leases[l];
      }
    }
  }

  lemma PrunedEdges(a: Snap, b: Snap)
    requires Pruned(a.tokens.Keys, a.parents, b.tokens.Keys, b.parents)
    ensures b.parents <= a.parents && b.tokens.Keys <= a.tokens.Keys
  {}

  /** Popping an entry that belongs to no stored expiring lease keeps the agreement. */
  lemma QueuePops(leases: map<LeaseId, LeaseEntry>, queue: map<QueueKey, nat>, owner: map<LeaseId, QueueKey>,
                  index: set<(Id, LeaseId)>, k: QueueKey)
    requires LeasesOk(leases, index, owner) && QueueOk(leases, queue, owner) && k in queue
    requires k.leaseId !in leases || queue[k] == 0
    ensures QueueOk(leases, queue - {k}, owner)
  {}

  lemma QueueSane(leases: map<LeaseId, LeaseEntry>, queue: map<QueueKey, nat>, owner: map<LeaseId, QueueKey>,
                  index: set<(Id, LeaseId)>, k: QueueKey)
    requires LeasesOk(leases, index, owner) && QueueOk(leases, queue, owner) && k in queue
    ensures SanePath(k.leaseId.path)
  {}

  lemma QueueTells(leases: map<LeaseId, LeaseEntry>, queue: map<QueueKey, nat>, owner: map<LeaseId, QueueKey>,
                   k: QueueKey, now: nat)
    requires QueueOk(leases, queue, owner) && k in queue && k.leaseId in leases && 0 < queue[k] <= now
    ensures Due(leases[k.leaseId], now)
  {
    PriorityMeans(leases[k.leaseId].expireTime, now);
  }

  lemma NothingDue(leases: map<LeaseId, LeaseEntry>, queue: map<QueueKey, nat>, owner: map<LeaseId, QueueKey>,
                   now: nat)
    requires QueueOk(leases, queue, owner) && forall k | k in queue :: queue[k] > now
    ensures forall l | l in leases :: !Due(leases[l], now)
  {
    forall l | l in leases ensures !Due(leases[l], now) {
      PriorityMeans(leases[l].expireTime, now);
    }
  }

  /** A lease whose id has not been issued with another key. */
  ghost predicate Storable(owner: map<LeaseId, QueueKey>, le: LeaseEntry) {
    && (le.leaseId in owner ==> owner[le.leaseId] == KeyOf(le))
    && (le.expireTime == 0 || le.expireTime >= L.SECOND)
    && SanePath(le.leaseId.path)
    && (le.leaseId.TokenLease? ==> le.clientToken == le.leaseId.token != "" && le.path == le.leaseId.path)
  }

  /** Storing a lease, with its index entry if it is a secret's. */
  lemma LeaseStored(leases: map<LeaseId, LeaseEntry>, index: set<(Id, LeaseId)>, owner: map<LeaseId, QueueKey>,
                    le: LeaseEntry)
    requires LeasesOk(leases, index, owner) && Storable(owner, le)
    ensures LeasesOk(leases[le.leaseId := le],
                     index + (if le.leaseId.SecretLease? then {(le.clientToken, le.leaseId)} else {}),
                     owner[le.leaseId := KeyOf(le)])
  {}

  /** Queueing a stored lease at its expiry. */
  lemma LeaseQueued(leases: map<LeaseId, LeaseEntry>, owner: map<LeaseId, QueueKey>, queue: map<QueueKey, nat>,
                    index: set<(Id, LeaseId)>, le: LeaseEntry)
    requires LeasesOk(leases, index, owner) && QueueOk(leases, queue, owner) && Storable(owner, le)
    ensures QueueOk(leases[le.leaseId := le], queue[KeyOf(le) := Priority(le.expireTime)],
                    owner[le.leaseId := KeyOf(le)])
  {}

  // ---- The life of tokens.

  predicate IsSubset(sub: seq<string>, all: seq<string>) {
    forall i | 0 <= i < |sub| :: sub[i] in all
  }

  /** What `handle_create` demands of a parent and a child. */
  predicate Narrows(parent: TokenEntry, child: TokenEntry) {
    && parent.numUses == 0
    && ("root" !in parent.policies ==> IsSubset(child.policies, parent.policies))
    && (child.ttl == 0 ==> parent.ttl == 0)
  }

  predicate NarrowedBy(tokens: map<Id, TokenEntry>, te: TokenEntry) {
    te.parent in tokens ==> Narrows(tokens[te.parent], te)
  }

  /** Every token ever created is younger than its parent. */
  ghost predicate LineageOk(created: map<Id, TokenEntry>, rank: map<Id, nat>, clock: nat) {
    forall x | x in created ::
      && x in rank && rank[x] < clock
      && (created[x].parent != "" ==>
            && created[x].parent in created && created[x].parent in rank
            && rank[created[x].parent] < rank[x])
  }

  /** Every token was created with no more authority than its parent. */
  ghost predicate NarrowOk(created: map<Id, TokenEntry>) {
    forall x | x in created && created[x].parent != "" && created[x].parent in created ::
      Narrows(created[created[x].parent], created[x])
  }

  /** Every index entry stands for a parent link, of a token or of one that was never stored. */
  ghost predicate EdgesOk(parents: Edges, created: map<Id, TokenEntry>) {
    forall e | e in parents ::
      e.0 != "" && e.0 in created && (e.1 in created ==> created[e.1].parent == e.0)
  }

  lemma EdgesShrink(parents: Edges, parents': Edges, created: map<Id, TokenEntry>)
    requires EdgesOk(parents, created) && parents' <= parents
    ensures EdgesOk(parents', created)
  {}

  /** Listing a new id under a stored parent. */
  lemma EdgesListed(tokens: map<Id, TokenEntry>, parents: Edges, created: map<Id, TokenEntry>, passes: map<Id, nat>,
                    rank: map<Id, nat>, clock: nat, te: TokenEntry)
    requires EdgesOk(parents, created) && LineageOk(created, rank, clock) && UsesOk(tokens, created, passes)
    requires te.id !in rank && (te.parent != "" ==> te.parent in tokens)
    ensures te.parent != "" ==> EdgesOk(parents + {(te.parent, te.id)}, created)
  {
    assert te.id !in created;
  }

  /** Creating the token that was listed. */
  lemma EdgesCreated(parents: Edges, parents': Edges, created: map<Id, TokenEntry>, rank: map<Id, nat>, clock: nat,
                     te: TokenEntry)
    requires EdgesOk(parents', created) && ForestOk(parents, rank, clock) && te.id !in rank && te.id !in created
    requires parents' == parents || parents' == parents + {(te.parent, te.id)}
    ensures EdgesOk(parents', created[te.id := te])
  {}

  /** The index agrees with the records: a stored token is listed under its parent alone. */
  lemma ListedUnderParentOnly(tokens: map<Id, TokenEntry>, parents: Edges, created: map<Id, TokenEntry>,
                              passes: map<Id, nat>, x: Id, p: Id)
    requires Listed(tokens, parents) && EdgesOk(parents, created) && UsesOk(tokens, created, passes) && x in tokens
    ensures (p, x) in parents <==> tokens[x].parent == p != ""
  {}

  /** Uses left and uses made add up to the uses granted. */
  ghost predicate UsesOk(tokens: map<Id, TokenEntry>, created: map<Id, TokenEntry>, passes: map<Id, nat>) {
    && passes.Keys == created.Keys
    && (forall x | x in tokens ::
          && x in created && tokens[x] == created[x].(numUses := tokens[x].numUses)
          && if created[x].numUses == 0 then tokens[x].numUses == 0
             else tokens[x].numUses > 0 && tokens[x].numUses + passes[x] == created[x].numUses)
    && (forall x | x in created && created[x].numUses > 0 :: passes[x] <= created[x].numUses)
  }

  lemma UsesShrink(tokens: map<Id, TokenEntry>, tokens': map<Id, TokenEntry>, created: map<Id, TokenEntry>,
                   passes: map<Id, nat>)
    requires UsesOk(tokens, created, passes) && SubMap(tokens', tokens)
    ensures UsesOk(tokens', created, passes)
  {}

  lemma SubMapOfTree(a: Snap, b: Snap, s: Id)
    requires TreeRevoked(a, b, s) || OneRevoked(a, b, s)
    ensures SubMap(b.tokens, a.tokens)
  {}

  /** A chain of parent links upwards. */
  ghost predicate IsLine(created: map<Id, TokenEntry>, line: seq<Id>) {
    && line != []
    && line[0] in created
    && (|line| == 1 || (created[line[0]].parent == line[1] != "" && IsLine(created, line[1..])))
  }

  /** x descends from s by parent links of the given records. */
  ghost predicate Descends(records: map<Id, TokenEntry>, x: Id, s: Id) {
    exists line :: IsLine(records, line) && line[0] == x && line[|line| - 1] == s
  }

  function Upwards(path: seq<Id>): seq<Id> {
    if |path| <= 1 then path else [path[|path| - 1]] + Upwards(path[..|path| - 1])
  }

  /** A path in the index, read upwards, is a line of parent links. */
  lemma {:induction false} PathIsLine(parents: Edges, created: map<Id, TokenEntry>, path: seq<Id>)
    requires EdgesOk(parents, created) && IsPath(parents, path) && path[|path| - 1] in created
    ensures var line := Upwards(path);
            IsLine(created, line) && line[0] == path[|path| - 1] && line[|line| - 1] == path[0]
  {
    if |path| > 1 {
      var n := |path| - 1;
      var shorter := path[..n];
      assert (path[n - 1], path[n - 1 + 1]) in parents;
      forall i | 0 <= i < |shorter| - 1 ensures (shorter[i], shorter[i + 1]) in parents {
        assert (path[i], path[i + 1]) in parents;
      }
      PathIsLine(parents, created, shorter);
      var line := Upwards(path);
      assert line[1..] == Upwards(shorter);
    }
  }

  /** What the index reaches descends by parent links. */
  lemma ReachedDescends(parents: Edges, created: map<Id, TokenEntry>, s: Id, x: Id)
    requires EdgesOk(parents, created) && Reach(parents, s, x) && x in created
    ensures Descends(created, x, s)
  {
    hide IsLine;
    var path :| IsPath(parents, path) && path[0] == s && path[|path| - 1] == x;
    PathIsLine(parents, created, path);
  }

  /** A line of stored tokens is reached in the index. */
  lemma {:induction false} StoredLineIsReached(tokens: map<Id, TokenEntry>, parents: Edges, line: seq<Id>)
    requires Listed(tokens, parents) && IsLine(tokens, line)
    ensures Reach(parents, line[|line| - 1], line[0])
  {
    hide Reach;
    ReachSelf(parents, line[0]);
    if |line| > 1 {
      StoredLineIsReached(tokens, parents, line[1..]);
      assert (line[1], line[0]) in parents;
      ReachLast(parents, line[|line| - 1], line[1], line[0]);
    }
  }

  lemma ReachLast(e: Edges, x: Id, y: Id, z: Id)
    requires Reach(e, x, y) && (y, z) in e
    ensures Reach(e, x, z)
  {
    var p :| IsPath(e, p) && p[0] == x && p[|p| - 1] == y;
    var q := p + [z];
    forall i | 0 <= i < |q| - 1 ensures (q[i], q[i + 1]) in e {
      if i < |p| - 1 {
        assert (p[i], p[i + 1]) in e;
      }
    }
    assert IsPath(e, q);
  }

  /** What a revoked tree means for the parent links. */
  lemma TreeByLinks(tokens: map<Id, TokenEntry>, parents: Edges, created: map<Id, TokenEntry>, passes: map<Id, nat>,
                    s: Id, x: Id)
    requires Listed(tokens, parents) && EdgesOk(parents, created) && UsesOk(tokens, created, passes) && x in tokens
    ensures Reach(parents, s, x) ==> Descends(created, x, s)
    ensures Descends(tokens, x, s) ==> Reach(parents, s, x)
  {
    if Reach(parents, s, x) {
      ReachedDescends(parents, created, s, x);
    }
    if Descends(tokens, x, s) {
      var line :| IsLine(tokens, line) && line[0] == x && line[|line| - 1] == s;
      StoredLineIsReached(tokens, parents, line);
    }
  }

  /**
    Authority only narrows: however far down the parent links, a descendant of a token
    without root holds some of that token's policies and no others, and a descendant
    that never expires has no expiring ancestor.
    */
  lemma {:induction false} AuthorityNarrows(created: map<Id, TokenEntry>, rank: map<Id, nat>, clock: nat, line: seq<Id>)
    requires LineageOk(created, rank, clock) && NarrowOk(created) && IsLine(created, line)
    ensures line[|line| - 1] in created
    ensures var descendant, ancestor := created[line[0]], created[line[|line| - 1]];
            && ("root" !in ancestor.policies ==> IsSubset(descendant.policies, ancestor.policies))
            && (descendant.ttl == 0 ==> ancestor.ttl == 0)
            && (|line| > 1 ==> ancestor.numUses == 0 && line[0] != line[|line| - 1])
  {
    if |line| > 1 {
      AuthorityNarrows(created, rank, clock, line[1..]);
      AncestorsAreOlder(created, rank, clock, line);
      var child, parent, top := created[line[0]], created[line[1]], created[line[|line| - 1]];
      if "root" !in top.policies {
        SubsetTransitive(child.policies, parent.policies, top.policies);
      }
    }
  }

  lemma SubsetTransitive(a: seq<string>, b: seq<string>, c: seq<string>)
    requires IsSubset(b, c) && ("root" !in b ==> IsSubset(a, b)) && "root" !in c
    ensures IsSubset(a, c)
  {
    assert forall s | s in b :: s in c;
  }

  lemma {:induction false} AncestorsAreOlder(created: map<Id, TokenEntry>, rank: map<Id, nat>, clock: nat, line: seq<Id>)
    requires LineageOk(created, rank, clock) && IsLine(created, line)
    ensures line[0] in rank && line[|line| - 1] in rank
    ensures |line| > 1 ==> rank[line[|line| - 1]] < rank[line[0]]
  {
    if |line| > 1 {
      AncestorsAreOlder(created, rank, clock, line[1..]);
    }
  }

  /** A limited token is gone exactly once its uses are used up, unless revoked before. */
  lemma UsesRunOut(tokens: map<Id, TokenEntry>, created: map<Id, TokenEntry>, passes: map<Id, nat>, x: Id)
    requires UsesOk(tokens, created, passes) && x in created && created[x].numUses > 0
    ensures passes[x] <= created[x].numUses
    ensures x in tokens ==> passes[x] < created[x].numUses
    ensures passes[x] == created[x].numUses ==> x !in tokens
  {}

  /** A new id is the youngest. */
  lemma RankGrows(parents: Edges, created: map<Id, TokenEntry>, rank: map<Id, nat>, clock: nat, id: Id, parent: Id)
    requires ForestOk(parents, rank, clock) && LineageOk(created, rank, clock) && id !in rank
    ensures ForestOk(parents, rank[id := clock], clock + 1)
    ensures LineageOk(created, rank[id := clock], clock + 1)
    ensures parent in created ==> ForestOk(parents + {(parent, id)}, rank[id := clock], clock + 1)
  {}

  /** Creating a token, below a stored parent if it has one. */
  lemma LineageGrows(tokens: map<Id, TokenEntry>, created: map<Id, TokenEntry>, passes: map<Id, nat>,
                     rank: map<Id, nat>, clock: nat, te: TokenEntry)
    requires LineageOk(created, rank, clock) && UsesOk(tokens, created, passes) && te.id !in rank
    requires te.parent != "" ==> te.parent in tokens
    ensures LineageOk(created[te.id := te], rank[te.id := clock], clock + 1)
    ensures te.parent != "" ==> te.parent in created
  {}

  lemma NarrowGrows(tokens: map<Id, TokenEntry>, created: map<Id, TokenEntry>, passes: map<Id, nat>,
                    rank: map<Id, nat>, clock: nat, te: TokenEntry)
    requires LineageOk(created, rank, clock) && UsesOk(tokens, created, passes) && te.id !in rank
    requires te.id != ""
    ensures (te.parent == "" || te.parent in tokens) && NarrowedBy(tokens, te) && NarrowOk(created) ==>
              NarrowOk(created[te.id := te])
  {
    hide IsSubset;
  }

  lemma UsesGrow(tokens: map<Id, TokenEntry>, created: map<Id, TokenEntry>, passes: map<Id, nat>,
                 rank: map<Id, nat>, clock: nat, te: TokenEntry)
    requires LineageOk(created, rank, clock) && UsesOk(tokens, created, passes) && te.id !in rank
    ensures UsesOk(tokens[te.id := te], created[te.id := te], passes[te.id := 0]) && te.id !in created
  {
    assert te.id !in created;
    hide LineageOk;
  }

  /** One use more made, and one less left if the token is limited. */
  lemma UsesPass(tokens: map<Id, TokenEntry>, created: map<Id, TokenEntry>, passes: map<Id, nat>, t: Id)
    requires UsesOk(tokens, created, passes) && t in tokens
    ensures t in passes
    ensures tokens[t].numUses == 0 ==> UsesOk(tokens, created, passes[t := passes[t] + 1])
    ensures tokens[t].numUses == 1 ==> UsesOk(tokens - {t}, created, passes[t := passes[t] + 1])
    ensures tokens[t].numUses > 1 ==>
              UsesOk(tokens[t := tokens[t].(numUses := tokens[t].numUses - 1)], created, passes[t := passes[t] + 1])
  {}

  lemma ListedUse(tokens: map<Id, TokenEntry>, parents: Edges, t: Id, n: nat)
    requires Listed(tokens, parents) && t in tokens
    ensures tokens[t].id == t && Listed(tokens[t := tokens[t].(numUses := n)], parents)
  {}

  lemma ChildListed(tokens: map<Id, TokenEntry>, parents: Edges, te: TokenEntry)
    requires Listed(tokens, parents) && te.id != ""
    ensures Listed(tokens, parents + {(te.parent, te.id)})
    ensures Listed(tokens[te.id := te], parents + {(te.parent, te.id)})
    ensures te.parent == "" ==> Listed(tokens[te.id := te], parents)
  {}

  function WithId(te: TokenEntry, uuid: Id): TokenEntry {
    if te.id == "" then te.(id := uuid) else te
  }

  const NON_ASSIGNABLE_POLICIES: seq<string> := ["response-wrapping", "control-group"]

  /** The request data of `handle_create`; absent durations are None. */
  datatype CreateData = CreateData(
    id: Id, policies: seq<string>, noParent: bool, ttl: Option<nat>, lease: Option<nat>, numUses: nat,
    period: nat, explicitMaxTtl: nat)

  /** How a created token stands to the token that asked for it. */
  ghost predicate ProperChild(parent: TokenEntry, clientToken: Id, data: CreateData, te: TokenEntry) {
    && Narrows(parent, te)
    && te.numUses == data.numUses
    && te.parent == (if data.noParent then "" else clientToken)
    && (data.noParent || data.id != "" ==> "root" in parent.policies)
    && (data.policies != [] ==> te.policies == data.policies)
    && forall p | p in te.policies :: p !in NON_ASSIGNABLE_POLICIES
  }

  /** The lifetime in seconds that `handle_create` gives a token. */
  function CreatedTtl(data: CreateData, policies: seq<string>, creation: nat, now: nat): Result<nat, RvError> {
    var asked := if data.ttl.Some? then L.AsSecs(data.ttl.value)
                 else if data.lease.Some? then L.AsSecs(data.lease.value) else 0;
    var ttl :=
      if L.AsSecs(data.period) > 0 || asked > 0 || "root" !in policies then
        L.Ttl(L.MAX_LEASE_TTL, L.DEFAULT_LEASE_TTL,
              L.Terms(0, data.period, asked * L.SECOND, 0, data.explicitMaxTtl), creation, now)
      else Success(0);
    match ttl
    case Failure(e) => Failure(e)
    case Success(t) =>
      var secs := if L.AsSecs(data.period) > 0 || asked > 0 || "root" !in policies then L.AsSecs(t) else asked;
      Success(if secs == 0 && L.AsSecs(data.explicitMaxTtl) > 0 then L.AsSecs(data.explicitMaxTtl) else secs)
  }

  /** The index entry that `handle_create` writes, at most; it is there if the child is and has a parent. */
  ghost predicate EntryWritten(parents: Edges, parents': Edges, clientToken: Id, body: Option<CreateData>, uuid: Id,
                               ok: bool)
  {
    if body.None? || body.value.noParent then parents' == parents
    else
      var edge := (clientToken, if body.value.id != "" then body.value.id else uuid);
      (parents' == parents || parents' == parents + {edge}) && (ok ==> edge in parents')
  }

  /** When a token may have a child with the given data. */
  ghost predicate Grantable(parent: TokenEntry, data: CreateData, sanitize: seq<string> -> seq<string>,
                            creation: nat, now: nat)
  {
    var policies := if data.policies == [] then sanitize(parent.policies) else data.policies;
    var ttl := CreatedTtl(data, policies, creation, now);
    && parent.numUses == 0
    && ("root" in parent.policies || (data.id == "" && !data.noParent && IsSubset(policies, parent.policies)))
    && (forall p | p in policies :: p !in NON_ASSIGNABLE_POLICIES)
    && ttl.Success? && (ttl.value == 0 ==> parent.ttl == 0)
  }

  /** The checks of `handle_create` on the request, and the entry it then asks to create. */
  method Propose(parent: TokenEntry, clientToken: Id, data: CreateData, sanitize: seq<string> -> seq<string>,
                 creation: nat, now: nat)
    returns (r: Result<TokenEntry, RvError>)
    ensures r.Success? ==>
              && ProperChild(parent, clientToken, data, r.value) && r.value.id == data.id
              && CreatedTtl(data, r.value.policies, creation, now) == Success(r.value.ttl)
              && r.value.policies == (if data.policies == [] then sanitize(parent.policies) else data.policies)
              && r.value.period == data.period && r.value.explicitMaxTtl == data.explicitMaxTtl
              && r.value.path == "auth/token/create"
              && "response-wrapping" !in r.value.policies && "control-group" !in r.value.policies
    ensures r.Success? <==> Grantable(parent, data, sanitize, creation, now)
    ensures parent.numUses > 0 || (data.id != "" && "root" !in parent.policies) ==> r == Failure(ErrRequestInvalid)
  {
    hide CreatedTtl;
    if parent.numUses > 0 {
      return Failure(ErrRequestInvalid);
    }
    var isRoot := "root" in parent.policies;
    if data.id != "" && !isRoot {
      return Failure(ErrRequestInvalid);
    }
    var policies := if data.policies == [] then sanitize(parent.policies) else data.policies;
    if !isRoot && !IsSubset(policies, parent.policies) {
      return Failure(ErrRequestInvalid);
    }
    if exists p :: p in policies && p in NON_ASSIGNABLE_POLICIES {
      return Failure(ErrResponse);
    }
    if "root" in policies && "root" !in parent.policies {
      return Failure(ErrResponse);
    }
    if data.noParent && !isRoot {
      return Failure(ErrRequestInvalid);
    }
    var ttl := CreatedTtl(data, policies, creation, now);
    if ttl.Failure? {
      return Failure(ttl.error);
    }
    if ttl.value == 0 && parent.ttl != 0 {
      return Failure(ErrResponse);
    }
    return Success(
        TokenEntry(data.id, if data.noParent then "" else clientToken, policies, "auth/token/create", data.numUses,
                   ttl.value, data.period, data.explicitMaxTtl));
  }

  /** What one use does to a stored token and to everything else. */
  ghost predicate UseMade(a: Snap, b: Snap, t: Id, ok: bool)
    requires t in a.tokens
  {
    match a.tokens[t].numUses
    case 0 => b == a
    case 1 => OneRevoked(a, b, t) && (ok ==> b.tokens == a.tokens - {t} && NoSecrets(b.leases, t))
    case n => b == if ok then a.(tokens := a.tokens[t := a.tokens[t].(numUses := n - 1)]) else a
  }

  lemma NoUseMade(a: Snap, t: Id)
    ensures t in a.tokens ==> UseMade(a, a, t, false)
  {
    OneNothing(a, t);
  }

  lemma NoEmptyId(tokens: map<Id, TokenEntry>, parents: Edges)
    requires Listed(tokens, parents)
    ensures "" !in tokens
  {}

  /** The queue holds the entries of some of the stored leases and nothing else. */
  ghost predicate Restored(leases: map<LeaseId, LeaseEntry>, queue: map<QueueKey, nat>, done: set<LeaseId>) {
    && (forall l | l in done && l in leases ::
          KeyOf(leases[l]) in queue && queue[KeyOf(leases[l])] == Priority(leases[l].expireTime))
    && (forall k | k in queue :: k.leaseId in done && k.leaseId in leases && k == KeyOf(leases[k.leaseId]))
  }

  lemma RestoreStart(leases: map<LeaseId, LeaseEntry>)
    ensures Restored(leases, map[], {})
  {}

  lemma RestoredAll(leases: map<LeaseId, LeaseEntry>, queue: map<QueueKey, nat>, done: set<LeaseId>)
    requires Restored(leases, queue, done) && leases.Keys <= done
    ensures Restored(leases, queue, leases.Keys)
  {}

  lemma RestoreStep(leases: map<LeaseId, LeaseEntry>, index: set<(Id, LeaseId)>, owner: map<LeaseId, QueueKey>,
                    queue: map<QueueKey, nat>, done: set<LeaseId>, l: LeaseId)
    requires LeasesOk(leases, index, owner) && l in leases && Restored(leases, queue, done)
    ensures Restored(leases, queue[KeyOf(leases[l]) := Priority(leases[l].expireTime)], done + {l})
  {
    LeaseFacts(leases, index, owner, l);
    hide LeasesOk;
  }

  lemma RestoreDone(leases: map<LeaseId, LeaseEntry>, index: set<(Id, LeaseId)>, owner: map<LeaseId, QueueKey>,
                    queue: map<QueueKey, nat>)
    requires LeasesOk(leases, index, owner) && Restored(leases, queue, leases.Keys)
    ensures QueueOk(leases, queue, owner)
  {}

  /** After a complete revocation the head is not the entry of a stored expiring lease. */
  lemma AfterRevoking(m0: Snap, m: Snap, b: Snap, l: LeaseId)
    requires LeaseTaken(m, b, l) && l !in b.leases && HeadOk(m0.queue, m0.head) && m0.head.Some?
    requires m0.head.value.leaseId == l
    requires m == m0 || (l.TokenLease? && TreeRevoked(m0, m, l.token))
    ensures b.head.Some? && b.head.value in b.queue
    ensures b.head.value.leaseId !in b.leases || b.queue[b.head.value] == 0
    ensures b.leases.Keys <= m0.leases.Keys && (l in m0.leases ==> b.leases.Keys < m0.leases.Keys)
    ensures l !in m0.leases && b == m0 ==> b.leases.Keys == m0.leases.Keys && b.queue == m0.queue
  {
    hide Pruned, Reach;
  }

  lemma SweptUses(a: Snap, b: Snap, now: nat, created: map<Id, TokenEntry>, passes: map<Id, nat>)
    requires Swept(a, b, now)
    ensures UsesOk(a.tokens, created, passes) ==> UsesOk(b.tokens, created, passes)
    ensures EdgesOk(a.parents, created) ==> EdgesOk(b.parents, created)
  {
    PrunedEdges(a, b);
    hide Pruned, DueAbove, Due;
  }

  lemma PopKeepsSwept(a: Snap, b: Snap, now: nat)
    requires Swept(a, b, now)
    ensures forall q, h :: Swept(a, b.(queue := q, head := h), now)
    ensures forall q, h :: TreesGone(a, b) ==> TreesGone(a, b.(queue := q, head := h))
    ensures forall q, h :: Thorough(a, b) ==> Thorough(a, b.(queue := q, head := h))
    ensures forall q, h :: AlmostThorough(a, b) ==> AlmostThorough(a, b.(queue := q, head := h))
  {
    hide Pruned, Due, DueAbove, Cleared, NoSecrets;
    if AlmostThorough(a, b) {
      var x :| ThoroughExcept(a, b, x);
      assert forall q, h :: ThoroughExcept(a, b.(queue := q, head := h), x);
    }
  }

  /** When a secret registered with a given time to live ends. */
  function SecretEnds(ttl: nat, now: nat): nat {
    now + if L.AsSecs(ttl) == 0 then L.DEFAULT_LEASE_TTL else L.Min(ttl, L.MAX_LEASE_TTL)
  }

  /** A secret lives for a day if its time to live is under a second, and for thirty days at most. */
  lemma SecretEndsMeans(ttl: nat, now: nat)
    ensures ttl < 1_000_000_000 ==> SecretEnds(ttl, now) == now + 24 * L.HOUR
    ensures 1_000_000_000 <= ttl <= 720 * L.HOUR ==> SecretEnds(ttl, now) == now + ttl
    ensures ttl > 720 * L.HOUR ==> SecretEnds(ttl, now) == now + 720 * L.HOUR
  {}

  /** What the backend answers to a renewal. */
  datatype Reply =
    | ReplyError
    | NoReply
    | Reply(ttl: nat, maxTtl: nat, period: nat, explicitMaxTtl: nat, renewable: bool)

  /** A secret's renewal knows neither period nor explicit maximum. */
  function TermsOf(l: LeaseId, increment: nat, reply: Reply): L.Terms
    requires reply.Reply?
  {
    if l.SecretLease? then L.Terms(increment, 0, reply.ttl, reply.maxTtl, 0)
    else L.Terms(increment, reply.period, reply.ttl, reply.maxTtl, reply.explicitMaxTtl)
  }

  /** A lease after a renewal: the expiry that the terms give, counted from its issue time. */
  function RenewedLease(le: LeaseEntry, increment: nat, reply: Reply, calculated: nat, renewed: nat): LeaseEntry
    requires reply.Reply?
  {
    var r := L.Renewal(TermsOf(le.leaseId, increment, reply), calculated, renewed);
    le.(expireTime := L.Renewed(le.issueTime, le.expireTime, r), renewable := reply.renewable)
  }

  /**
    A renewed lease, in terms of the request and the reply: r is the time to live that they
    give, from the lease's issue time, where a secret has neither period nor explicit maximum.
    */
  lemma RenewedLeaseMeans(le: LeaseEntry, increment: nat, reply: Reply, calculated: nat, renewed: nat,
                          r: Result<nat, RvError>)
    requires reply.Reply?
    requires var secret := le.leaseId.SecretLease?;
             L.TtlRight(720 * L.HOUR, 24 * L.HOUR,
                        L.Terms(increment, if secret then 0 else reply.period, reply.ttl, reply.maxTtl,
                                if secret then 0 else reply.explicitMaxTtl),
                        L.Floor(le.issueTime), L.Floor(calculated), r)
    ensures var le' := RenewedLease(le, increment, reply, calculated, renewed);
            && le' == le.(expireTime := le'.expireTime, renewable := reply.renewable)
            && (r.Failure? ==> le'.expireTime == le.expireTime)
            && (r.Success? && r.value < 1_000_000_000 ==> le'.expireTime == 0)
            && (r.Success? && r.value >= 1_000_000_000 ==> le'.expireTime == renewed + r.value)
  {
    L.Units();
    var terms := TermsOf(le.leaseId, increment, reply);
    L.TtlIsUnique(L.MAX_LEASE_TTL, L.DEFAULT_LEASE_TTL, terms, le.issueTime, calculated, r);
    if r.Success? {
      L.ExpirationIs(r.value, renewed);
    }
    hide L.Ttl, L.TtlRight, L.Floor, L.ExpirationTime;
  }

  /**
    The lifetime of a created token in seconds. A root token for which nothing is asked lives
    as long as its explicit maximum says, for ever if there is none. For any other, r is the
    time to live that the request gives; if that is under a second, the explicit maximum counts.
    */
  lemma CreatedTtlMeans(data: CreateData, policies: seq<string>, creation: nat, now: nat, asked: nat,
                        r: Result<nat, RvError>)
    requires asked == match data.ttl
                      case Some(t) => t / 1_000_000_000
                      case None => (match data.lease case Some(t) => t / 1_000_000_000 case None => 0)
    requires L.TtlRight(720 * L.HOUR, 24 * L.HOUR, L.Terms(0, data.period, asked * 1_000_000_000, 0, data.explicitMaxTtl),
                        L.Floor(creation), L.Floor(now), r)
    ensures var explicit := data.explicitMaxTtl / 1_000_000_000;
            var created := CreatedTtl(data, policies, creation, now);
            if data.period < 1_000_000_000 && asked == 0 && "root" in policies then
              created == Success(explicit)
            else
              && (r.Failure? ==> created == Failure(r.error))
              && (r.Success? ==>
                    created == Success(if r.value < 1_000_000_000 then explicit else r.value / 1_000_000_000))
  {
    L.Units();
    var terms := L.Terms(0, data.period, asked * L.SECOND, 0, data.explicitMaxTtl);
    L.TtlIsUnique(L.MAX_LEASE_TTL, L.DEFAULT_LEASE_TTL, terms, creation, now, r);
    hide L.Ttl, L.TtlRight, L.Floor;
  }

  lemma FreshTokenLease(leases: map<LeaseId, LeaseEntry>, index: set<(Id, LeaseId)>, owner: map<LeaseId, QueueKey>,
                        l: LeaseId)
    requires LeasesOk(leases, index, owner) && l.TokenLease?
    ensures l in owner ==> owner[l] == QueueKey(l, l.token, l.path)
  {}

  lemma LastUse(a: Snap, b: Snap, t: Id)
    requires OneRevoked(a, b, t) && t !in b.tokens
    ensures b.tokens == a.tokens - {t}
  {}

  lemma CreatedIdIsNew(tokens: map<Id, TokenEntry>, created: map<Id, TokenEntry>, passes: map<Id, nat>,
                       rank: map<Id, nat>, clock: nat, id: Id)
    requires LineageOk(created, rank, clock) && UsesOk(tokens, created, passes) && id !in rank
    ensures id !in tokens
  {}

  lemma EmptyStore()
    ensures ForestOk({}, map[], 0) && Listed(map[], {}) && LeasesOk(map[], {}, map[]) && QueueOk(map[], map[], map[])
    ensures HeadOk(map[], None) && LineageOk(map[], map[], 0) && UsesOk(map[], map[], map[]) && EdgesOk({}, map[])
  {}

  class TokenStore {
    var tokens: map<Id, TokenEntry>
    var parents: Edges
    var leases: map<LeaseId, LeaseEntry>
    var index: set<(Id, LeaseId)>
    var queue: map<QueueKey, nat>
    var head: Option<QueueKey>
    var budget: nat

    /** When ids were first written, and the next such time. */
    ghost var rank: map<Id, nat>
    ghost var clock: nat
    /** The queue key that each lease id was ever issued with. */
    ghost var owner: map<LeaseId, QueueKey>
    /** Every token ever created, as created, and how often it passed `check_token`. */
    ghost var created: map<Id, TokenEntry>
    ghost var passes: map<Id, nat>

    constructor (budget: nat)
      ensures Valid() && History() && tokens == map[] && leases == map[] && queue == map[] && parents == {}
      ensures head == None && this.budget == budget
      ensures rank == map[] && clock == 0 && owner == map[] && created == map[] && passes == map[]
    {
      hide ForestOk, Listed, LeasesOk, QueueOk, HeadOk, LineageOk, UsesOk, EdgesOk;
      EmptyStore();
      tokens, parents, leases, index, queue, head := map[], {}, map[], {}, map[], None;
      rank, clock, owner, created, passes := map[], 0, map[], map[], map[];
      this.budget := budget;
    }

    ghost predicate History()
      reads this
    {
      LineageOk(created, rank, clock) && UsesOk(tokens, created, passes) && EdgesOk(parents, created)
    }

    ghost predicate Valid()
      reads this
    {
      && ForestOk(parents, rank, clock)
      && Listed(tokens, parents)
      && LeasesOk(leases, index, owner)
      && QueueOk(leases, queue, owner)
      && HeadOk(queue, head)
    }

    ghost function Height(s: Id): nat
      reads this
    {
      if s in rank && rank[s] < clock then clock - rank[s] else 0
    }

    // ---- Storage calls and the queue.

    method Spend() returns (ok: bool)
      modifies this`budget
      ensures ok <==> old(budget) > 0
      ensures budget == if ok then old(budget) - 1 else 0
    {
      if budget == 0 {
        return false;
      }
      budget := budget - 1;
      return true;
    }

    /** Sets how many storage calls the next operations may make. */
    method Allow(n: nat)
      modifies this`budget
      ensures budget == n
      ensures old(Valid()) ==> Valid()
      ensures old(History()) ==> History()
    {
      budget := n;
    }

    static method Lowest(queue: map<QueueKey, nat>) returns (head: Option<QueueKey>)
      ensures HeadOk(queue, head)
    {
      head := None;
      var rest := queue.Keys;
      ghost var seen: set<QueueKey> := {};
      while rest != {}
        invariant seen + rest == queue.Keys && seen !! rest
        invariant head.None? <==> seen == {}
        invariant head.Some? ==> head.value in seen && forall k | k in seen :: queue[head.value] <= queue[k]
        decreases rest
      {
        var k :| k in rest;
        if head.None? || queue[k] < queue[head.value] {
          head := Some(k);
        }
        rest := rest - {k};
        seen := seen + {k};
      }
    }

    /** Pushing an item equal to one in the queue changes its priority. */
    method Push(k: QueueKey, priority: nat)
      modifies this`queue, this`head
      ensures queue == old(queue)[k := priority] && HeadOk(queue, head)
    {
      queue := queue[k := priority];
      head := Lowest(queue);
    }

    method Pop()
      requires head.Some?
      modifies this`queue, this`head
      ensures queue == old(queue) - {old(head).value} && HeadOk(queue, head)
    {
      queue := queue - {head.value};
      head := Lowest(queue);
    }

    // ---- Revocation.

    ghost function Now(): Snap
      reads this
    {
      Snap(tokens, parents, leases, queue, head)
    }

    /** The storage writes of `revoke_lease_id` after the revocation itself. */
    method DropLease(l: LeaseId, register: bool) returns (ok: bool)
      requires Valid() && l in leases
      modifies this`leases, this`index, this`queue, this`head, this`budget
      ensures Valid()
      ensures LeaseTaken(old(Now()), Now(), l)
      ensures if ok then l !in leases else budget == 0
      ensures index <= old(index) && Affordable(old(budget), budget, 2, ok)
      ensures ok ==> LeaseDropped(old(leases)[l], index, old(queue), queue, register)
    {
      hide ForestOk, Listed, LeasesOk, QueueOk;
      var le := leases[l];
      LeaseFacts(leases, index, owner, l);
      ok := Spend();
      if !ok {
        return;
      }
      LeasesShrink(leases, index, owner, queue, l);
      leases := leases - {l};
      if l.SecretLease? {
        ok := Spend();
        if !ok {
          return;
        }
        index := index - {(le.clientToken, l)};
      }
      if register {
        Push(KeyOf(le), 0);
        assert KeyOf(le) in queue && queue[KeyOf(le)] == 0;
      }
    }

    /**
      `revoke_lease_id`. A secret's lease goes by itself; a token's lease takes the
      token's tree along first, which leads to the state returned as m.
      */
    method RevokeLeaseId(l: LeaseId, register: bool) returns (ok: bool, ghost m: Snap)
      requires Valid()
      modifies this`tokens, this`parents, this`leases, this`index, this`queue, this`head, this`budget
      decreases if l.TokenLease? then 2 else 0, 0, 0
      ensures Valid()
      ensures LeaseTaken(m, Now(), l)
      ensures l !in old(leases) || l.SecretLease? ==> m == old(Now())
      ensures l !in old(leases) ==> Now() == old(Now())
      ensures l in old(leases) && l.TokenLease? ==>
                && TreeRevoked(old(Now()), m, l.token) && AlmostThorough(old(Now()), m)
                && (l !in leases ==> Thorough(old(Now()), m) && Cleared(m.tokens.Keys, old(parents), l.token))
      ensures if ok then l !in leases else budget == 0 || !SanePath(l.path)
      ensures ok && l in old(leases) ==> LeaseDropped(old(leases)[l], index, m.queue, queue, register)
      ensures index <= old(index) && parents <= old(parents)
      ensures SanePath(l.path) ==>
                Affordable(old(budget), budget,
                           3 + if l.SecretLease? then 0 else Enough(Height(l.token), |old(parents)|, |old(index)|), ok)
    {
      hide ForestOk, Listed, TreeRevoked, Thorough, AlmostThorough, Cleared, LeasesOk, QueueOk, SanePath, Enough;
      hide LeaseDropped;
      m := Now();
      TreeNothing(m, if l.TokenLease? then l.token else "");
      if !SanePath(l.path) {
        return false, m;
      }
      ok := Spend();
      if !ok {
        return;
      }
      if l !in leases {
        return true, m;
      }
      LeaseFacts(leases, index, owner, l);
      if l.TokenLease? {
        ok := RevokeTree(leases[l].clientToken);
        m := Now();
        LeaseStays(old(Now()), m, l);
        if !ok {
          return;
        }
      }
      ok := DropLease(l, register);
    }

    /** The reads of `lookup_by_token`, one for each listed index entry. */
    method ReadEach(entries: set<LeaseId>) returns (ok: bool)
      modifies this`budget
      ensures ok <==> old(budget) >= |entries|
      ensures budget == if ok then old(budget) - |entries| else 0
    {
      var unread := entries;
      while unread != {}
        invariant budget + |entries| == old(budget) + |unread| && unread <= entries
        decreases unread
      {
        var l :| l in unread;
        ok := Spend();
        if !ok {
          return;
        }
        unread := unread - {l};
      }
      return true;
    }

    /** The loop of `revoke_by_token`. */
    method RevokeEach(t: Id, entries: set<LeaseId>) returns (ok: bool)
      requires Valid() && OwnedBy(owner, t, entries) && SecretsAmong(leases, t, entries)
      modifies this`tokens, this`parents, this`leases, this`index, this`queue, this`head, this`budget
      decreases 0, 1, 0
      ensures Valid() && LeaseStep(old(Now()), Now(), {t})
      ensures if ok then NoSecrets(leases, t) else budget == 0
      ensures ok ==> SecretsDropped(old(leases), index, queue, t, {})
      ensures index <= old(index) && Affordable(old(budget), budget, 3 * |entries|, ok)
    {
      hide ForestOk, Listed, LeasesOk, QueueOk, HeadOk, LeaseStep, LeaseTaken, TreeRevoked, Thorough, NoSecrets;
      hide SanePath, Enough, SecretsDropped, Untouched, LeaseDropped, OwnedBy, SecretsAmong;
      ghost var a, all := Now(), |entries|;
      NoLeaseStep(a, t);
      NothingDropped(leases, index, queue, t, entries);
      LeaseIds(leases, index, owner);
      ok := true;
      var todo := entries;
      while todo != {}
        invariant Valid() && LeaseStep(a, Now(), {t}) && ok
        invariant OwnedBy(owner, t, todo) && SecretsAmong(leases, t, todo)
        invariant SecretsDropped(a.leases, index, queue, t, todo) && Untouched(a.leases, leases, todo)
        invariant index <= old(index) && |todo| <= all && budget + 3 * (all - |todo|) >= old(budget)
        decreases todo
      {
        var l :| l in todo;
        OwnedLease(leases, index, owner, t, todo, l);
        StillThere(a.leases, leases, todo, l);
        ghost var m, index0 := Now(), index;
        ok, m := RevokeLeaseId(l, true);
        LeaseStepTransitive(a, m, Now(), t, l);
        FewerSecrets(m, Now(), t, todo, l);
        if !ok {
          return;
        }
        OneMoreDropped(a.leases, m, Now(), index0, index, t, todo, l);
        todo := todo - {l};
      }
      SecretsGone(leases, t, todo);
    }

    /** `revoke_by_token`: all secrets under a token. */
    method RevokeByToken(t: Id) returns (ok: bool)
      requires Valid()
      modifies this`tokens, this`parents, this`leases, this`index, this`queue, this`head, this`budget
      decreases 0, 2, 0
      ensures Valid()
      ensures LeaseStep(old(Now()), Now(), {t})
      ensures if ok then NoSecrets(leases, t) else budget == 0
      ensures ok ==> SecretsDropped(old(leases), index, queue, t, {})
      ensures old(budget) == 0 ==> !ok && Now() == old(Now())
      ensures index <= old(index) && Affordable(old(budget), budget, 1 + 4 * |old(index)|, ok)
    {
      hide ForestOk, Listed, LeasesOk, QueueOk, HeadOk, LeaseStep, NoSecrets, SecretsDropped, OwnedBy, SecretsAmong;
      NoLeaseStep(Now(), t);
      ok := Spend();
      if !ok {
        return;
      }
      var entries := set i | i in index && i.0 == t :: i.1;
      assert forall l | l in entries :: (t, l) in index;
      IndexFacts(leases, index, owner, t, entries);
      FewerThanPairs(index, t, entries);
      ok := ReadEach(entries);
      if !ok {
        return;
      }
      ok := RevokeEach(t, entries);
    }

    /** `revoke_salted`: the token, its index entry, its secrets, in this order. */
    method RevokeSalted(s: Id) returns (ok: bool)
      requires Valid()
      modifies this`tokens, this`parents, this`leases, this`index, this`queue, this`head, this`budget
      decreases 0, 3, 0
      ensures Valid()
      ensures OneRevoked(old(Now()), Now(), s)
      ensures if ok then s !in tokens && (s in old(tokens) ==> NoSecrets(leases, s)) else budget == 0
      ensures StopsShort(old(Now()), s, old(budget) + 1) ==> !ok && s !in tokens && leases == old(leases)
      ensures NothingThere(old(Now()), s, old(budget) + 1) ==> ok && leases == old(leases)
      ensures index <= old(index) && parents <= old(parents)
      ensures Affordable(old(budget), budget, 4 + 4 * |old(index)|, ok)
      ensures ok ==> TokenUnlisted(old(Now()), Now(), s)
      ensures ok && s in old(tokens) ==> SecretsDropped(old(leases), index, queue, s, {})
    {
      hide LeasesOk, QueueOk, HeadOk, Listed, ForestOk, LeaseStep, OneRevoked, NoSecrets, SecretsDropped;
      ghost var a := Now();
      OneNothing(a, s);
      ok := Spend();
      if !ok {
        return;
      }
      var entry := if s in tokens then Some(tokens[s]) else None;
      ok := Spend();
      if !ok {
        return;
      }
      TokenDropped(tokens, parents, rank, clock, s);
      tokens := tokens - {s};
      OneDropped(a, Now(), s);
      if entry.Some? {
        if entry.value.parent != "" {
          ok := Spend();
          if !ok {
            return;
          }
          parents := parents - {(entry.value.parent, s)};
          OneDropped(a, Now(), s);
        }
        ghost var m := Now();
        ok := RevokeByToken(entry.value.id);
        OneWithLeases(a, m, Now(), s);
      }
    }

    /** The loop of `revoke_tree_salted` over the listed children. */
    method RevokeChildren(s: Id, children: set<Id>) returns (ok: bool)
      requires Valid() && forall c :: c in children <==> (s, c) in parents
      modifies this`tokens, this`parents, this`leases, this`index, this`queue, this`head, this`budget
      decreases 1, Height(s), 0
      ensures Valid()
      ensures TreeRevoked(old(Now()), Now(), s) && AlmostThorough(old(Now()), Now())
      ensures if ok then Thorough(old(Now()), Now()) else budget == 0
      ensures ok ==> forall c | c in children :: Cleared(tokens.Keys, old(parents), c)
      ensures children == {} ==> ok && Now() == old(Now()) && budget == old(budget)
      ensures index <= old(index) && parents <= old(parents)
      ensures Affordable(old(budget), budget, EnoughBelow(|children|, Height(s), |old(parents)|, |old(index)|), ok)
    {
      hide LeasesOk, QueueOk, HeadOk, Listed, TreeRevoked, Thorough, AlmostThorough, Cleared, Enough;
      hide ForestOk, Affordable, Paid;
      ghost var each := if Height(s) == 0 then 0 else Enough(Height(s) - 1, |parents|, |index|);
      ghost var start := Now();
      ChildRanks(parents, rank, clock, s);
      StartPaid(budget, |children|, each);
      TreeNothing(start, s);
      ok := true;
      var todo := children;
      while todo != {}
        invariant Valid() && ok && todo <= children
        invariant TreeRevoked(start, Now(), s) && Thorough(start, Now()) && AlmostThorough(start, Now())
        invariant forall c | c in children && c !in todo :: Cleared(tokens.Keys, start.parents, c)
        invariant children == {} ==> Now() == start && budget == old(budget)
        invariant index <= old(index) && parents <= old(parents)
        invariant Paid(old(budget), budget, |children|, |todo|, each)
        decreases todo
      {
        var c :| c in todo;
        ghost var m := Now();
        ghost var before, left := budget, |todo|;
        assert (s, c) in old(parents);
        FewerSet(parents, old(parents));
        FewerSet(index, old(index));
        ghost var cost := Enough(Height(c), |parents|, |index|);
        EnoughMonotone(Height(c), |parents|, |index|, Height(s) - 1, |old(parents)|, |old(index)|);
        ok := RevokeTree(c);
        ChildPaid(old(budget), before, budget, |children|, left, cost, each, ok);
        TreeWithChild(start, m, Now(), s, c);
        if !ok {
          return;
        }
        todo := todo - {c};
      }
      AllPaid(old(budget), budget, |children|, each);
    }

    /** `revoke_tree_salted`: the children's trees first, then the token. */
    method RevokeTree(s: Id) returns (ok: bool)
      requires Valid()
      modifies this`tokens, this`parents, this`leases, this`index, this`queue, this`head, this`budget
      decreases 1, Height(s), 1
      ensures Valid()
      ensures TreeRevoked(old(Now()), Now(), s)
      ensures if ok then Cleared(tokens.Keys, old(parents), s) && Thorough(old(Now()), Now()) else budget == 0
      ensures AlmostThorough(old(Now()), Now())
      ensures StopsShort(old(Now()), s, old(budget)) ==> !ok && s !in tokens && leases == old(leases)
      ensures NothingThere(old(Now()), s, old(budget)) ==> ok && leases == old(leases)
      ensures index <= old(index) && parents <= old(parents)
      ensures Affordable(old(budget), budget, Enough(Height(s), |old(parents)|, |old(index)|), ok)
    {
      hide Enough, EnoughBelow, TokenUnlisted, SecretsDropped, StopsShort, NothingThere;
      hide LeasesOk, QueueOk, HeadOk, ForestOk, Listed, TreeRevoked, OneRevoked, Thorough, AlmostThorough, Cleared;
      hide NoSecrets;
      ghost var start := Now();
      EnoughForOne(Height(s), |parents|, |index|);
      TreeNothing(start, s);
      StopsWithoutChildren(start, s, budget);
      ok := Spend();
      if !ok {
        return;
      }
      var children := set e | e in parents && e.0 == s :: e.1;
      assert forall c :: c in children <==> (s, c) in parents;
      FewerThanPairs(parents, s, children);
      ok := RevokeChildren(s, children);
      EnoughForTree(Height(s), |old(parents)|, |old(index)|, |children|);
      if !ok {
        return;
      }
      FewerSet(index, old(index));
      ghost var m := Now();
      ok := RevokeSalted(s);
      TreeWithRoot(start, m, Now(), s);
    }

    /**
      One round of `start_check_expired_lease_entries`. The clock, in milliseconds, is read
      once before the round and once for every entry looked at, n + 1 times in all; last is
      the reading that ended the round, and latest the greatest one.
      */
    method Sweep(clock: nat -> nat) returns (ok: bool, ghost n: nat, ghost last: nat, ghost latest: nat)
      requires Valid()
      modifies this`tokens, this`parents, this`leases, this`index, this`queue, this`head, this`budget
      ensures Valid()
      ensures old(History()) ==> History()
      ensures Readings(clock, n, last, latest)
      ensures Swept(old(Now()), Now(), latest) && TreesGone(old(Now()), Now()) && AlmostThorough(old(Now()), Now())
      ensures !Overdue(old(queue), old(head), clock(0)) ==> ok && Now() == old(Now())
      ensures ok && Overdue(old(queue), old(head), clock(0)) ==>
                && Thorough(old(Now()), Now())
                && (forall k | k in queue :: queue[k] > last) && (forall l | l in leases :: !Due(leases[l], last))
      ensures ok && Overdue(old(queue), old(head), clock(0)) ==>
                forall l | l in old(leases) && l.TokenLease? && Due(old(leases)[l], last) ::
                  Cleared(tokens.Keys, old(parents), l.token)
      ensures NeverBack(clock) ==> last == latest >= clock(0)
      ensures ok && Overdue(old(queue), old(head), clock(0)) && NeverBack(clock) ==>
                SweptExactly(old(Now()), Now(), last)
      ensures !ok ==> budget == 0
      ensures old(budget) >= EnoughToSweep(|old(leases)| + |old(queue)|, this.clock, |old(parents)|, |old(index)|) ==> ok
    {
      hide ForestOk, Listed, LeasesOk, QueueOk, Swept, Due, Thorough, AlmostThorough, Cleared, TreesGone, SweptExactly;
      hide LineageOk, UsesOk, EdgesOk, SanePath, NeverBack, Readings, EnoughToSweep;
      ghost var start := Now();
      var now := clock(0);
      ok, n, last, latest := true, 0, now, now;
      FirstReading(clock);
      SweptNothing(start, latest);
      TreeNothing(start, "");
      if Overdue(queue, head, now) {
        ok, n, last, latest := Rounds(clock);
        if ok {
          NothingDue(leases, queue, owner, last);
          Completed(start, Now(), last, latest);
        }
      }
      SweptUses(start, Now(), latest, created, passes);
      InOrder(clock, n, last, latest);
    }

    /** The inner loop of a sweep. */
    method Rounds(clock: nat -> nat) returns (ok: bool, ghost n: nat, ghost last: nat, ghost latest: nat)
      requires Valid()
      modifies this`tokens, this`parents, this`leases, this`index, this`queue, this`head, this`budget
      ensures Valid() && Readings(clock, n, last, latest)
      ensures Swept(old(Now()), Now(), latest) && TreesGone(old(Now()), Now()) && AlmostThorough(old(Now()), Now())
      ensures if ok then Thorough(old(Now()), Now()) && forall k | k in queue :: queue[k] > last else budget == 0
      ensures old(budget) >= EnoughToSweep(|old(leases)| + |old(queue)|, this.clock, |old(parents)|, |old(index)|) ==> ok
    {
      hide ForestOk, Listed, LeasesOk, QueueOk, Swept, Due, Thorough, AlmostThorough, Cleared, TreesGone;
      hide Readings, Enough, EnoughToSweep, Weight, Paid, TooFew, HeadOk;
      HeadFacts(queue, head);
      ghost var start, all := Now(), Weight(leases, queue);
      ghost var each := 3 + Enough(this.clock, |parents|, |index|);
      NothingPaid(leases, queue, budget, this.clock, |parents|, |index|);
      FirstReading(clock);
      SweptNothing(start, clock(0));
      TreeNothing(start, "");
      ok := true;
      var i, now;
      i, now, last, latest := LookAgain(clock, 0, start, clock(0), clock(0));
      n := i;
      while head.Some? && queue[head.value] <= now
        invariant Valid() && ok && Swept(start, Now(), latest) && now == last <= latest
        invariant head.Some? ==> head.value in queue
        invariant n == i && Readings(clock, n, last, latest)
        invariant TreesGone(start, Now()) && Thorough(start, Now()) && AlmostThorough(start, Now())
        invariant 3 + Enough(this.clock, |parents|, |index|) <= each
        invariant Paid(old(budget), budget, all, Weight(leases, queue), each)
        decreases leases.Keys, queue.Keys
      {
        ok := Round(start, now, latest, old(budget), all, each);
        if !ok {
          return;
        }
        HeadFacts(queue, head);
        i, now, last, latest := LookAgain(clock, i, start, last, latest);
        n := i;
      }
      HeadFacts(queue, head);
    }

    /** One entry of a sweep, with an account of the storage calls. */
    method Round(ghost start: Snap, now: nat, ghost latest: nat, ghost total: nat, ghost all: nat, ghost each: nat)
      returns (ok: bool)
      requires Valid() && head.Some? && queue[head.value] <= now <= latest && Swept(start, Now(), latest)
      requires TreesGone(start, Now()) && Thorough(start, Now())
      requires 3 + Enough(clock, |parents|, |index|) <= each && Paid(total, budget, all, Weight(leases, queue), each)
      modifies this`tokens, this`parents, this`leases, this`index, this`queue, this`head, this`budget
      ensures Valid() && Swept(start, Now(), latest) && TreesGone(start, Now()) && AlmostThorough(start, Now())
      ensures if ok then Thorough(start, Now()) else budget == 0
      ensures ok ==> leases.Keys < old(leases).Keys || (leases.Keys == old(leases).Keys && queue.Keys < old(queue).Keys)
      ensures 3 + Enough(clock, |parents|, |index|) <= each
      ensures if ok then Paid(total, budget, all, Weight(leases, queue), each) else TooFew(total, all, each)
    {
      hide ForestOk, Listed, LeasesOk, QueueOk, Swept, Due, Thorough, AlmostThorough, Cleared, TreesGone, Enough, Weight;
      ghost var left, before := Weight(leases, queue), budget;
      ok := Expire(start, now, latest);
      FewerSet(parents, old(parents));
      FewerSet(index, old(index));
      EnoughMonotone(clock, |parents|, |index|, clock, |old(parents)|, |old(index)|);
      ghost var left' := Weight(leases, queue);
      if !ok {
        RoundPaid(all, left, left - 1, each, total, before, budget);
      } else if left' < left {
        RoundPaid(all, left, left', each, total, before, budget);
      } else {
        RoundFree(all, left, left', each, total, before);
      }
    }

    /** The next reading of the clock. */
    method LookAgain(clock: nat -> nat, i: nat, ghost start: Snap, ghost last: nat, ghost latest: nat)
      returns (i': nat, now: nat, ghost last': nat, ghost latest': nat)
      requires Swept(start, Now(), latest) && Readings(clock, i, last, latest)
      ensures i' == i + 1 && now == clock(i')
      ensures last' == now <= latest' && Swept(start, Now(), latest') && Readings(clock, i', last', latest')
    {
      hide Swept, Readings;
      NextReading(clock, i, last, latest);
      i' := i + 1;
      now := clock(i');
      last', latest' := now, if now > latest then now else latest;
      SweptLater(start, Now(), latest, latest');
    }

    /** The head of the queue is revoked, if it stands for an expiry, and popped. */
    method Expire(ghost start: Snap, now: nat, ghost latest: nat) returns (ok: bool)
      requires Valid() && head.Some? && queue[head.value] <= now <= latest && Swept(start, Now(), latest)
      requires TreesGone(start, Now()) && Thorough(start, Now())
      modifies this`tokens, this`parents, this`leases, this`index, this`queue, this`head, this`budget
      ensures Valid() && Swept(start, Now(), latest) && TreesGone(start, Now()) && AlmostThorough(start, Now())
      ensures if ok then Thorough(start, Now()) else budget == 0
      ensures ok && old(queue)[old(head).value] != 0 ==> old(head).value.leaseId !in leases
      ensures ok ==> leases.Keys < old(leases).Keys || (leases.Keys == old(leases).Keys && queue.Keys < old(queue).Keys)
      ensures index <= old(index) && parents <= old(parents)
      ensures if old(queue)[old(head).value] == 0 then
                ok && budget == old(budget) && Weight(leases, queue) <= old(Weight(leases, queue))
              else
                && Affordable(old(budget), budget, 3 + Enough(clock, |old(parents)|, |old(index)|), ok)
                && old(Weight(leases, queue)) > 0 && (ok ==> Weight(leases, queue) < old(Weight(leases, queue)))
    {
      hide ForestOk, Listed, LeasesOk, QueueOk, TreeRevoked, Swept, DueAbove, LeaseTaken, Due, Thorough, Cleared;
      hide SanePath, TreesGone, AlmostThorough, Weight, Enough;
      var k := head.value;
      ok := true;
      ThoroughIsAlmost(start, Now());
      WeightPops(leases, queue, k);
      if queue[k] != 0 {
        ghost var m0, m := Now(), Now();
        QueueSane(leases, queue, owner, index, k);
        if k.leaseId.TokenLease? {
          EnoughMonotone(Height(k.leaseId.token), |parents|, |index|, clock, |parents|, |index|);
        }
        ok, m := RevokeLeaseId(k.leaseId, false);
        WeightRevokes(m0, m, Now(), k.leaseId);
        if k.leaseId in m0.leases {
          QueueTells(m0.leases, m0.queue, owner, k, latest);
          SweptOne(start, m0, m, Now(), k.leaseId, latest);
          TreesGoneStep(start, m0, m, Now(), k.leaseId, latest);
        }
        if !ok {
          return;
        }
        AfterRevoking(m0, m, Now(), k.leaseId);
      }
      QueuePops(leases, queue, owner, index, head.value);
      PopKeepsSwept(start, Now(), latest);
      WeightPops(leases, queue, head.value);
      Pop();
    }

    // ---- Registering, renewing and restoring leases: each call is one atomic step.

    /** Storing and queueing a lease. */
    method Store(le: LeaseEntry)
      requires Valid() && Storable(owner, le)
      modifies this`leases, this`index, this`queue, this`head, this`owner
      ensures Valid()
      ensures leases == old(leases)[le.leaseId := le]
      ensures queue == old(queue)[KeyOf(le) := Priority(le.expireTime)]
      ensures index == if le.leaseId.SecretLease? then old(index) + {(le.clientToken, le.leaseId)} else old(index)
      ensures owner == old(owner)[le.leaseId := KeyOf(le)]
    {
      hide ForestOk, Listed, LeasesOk, QueueOk;
      LeaseStored(leases, index, owner, le);
      LeaseQueued(leases, owner, queue, index, le);
      assert index + {} == index;
      leases := leases[le.leaseId := le];
      if le.leaseId.SecretLease? {
        index := index + {(le.clientToken, le.leaseId)};
      }
      owner := owner[le.leaseId := KeyOf(le)];
      Push(KeyOf(le), Priority(le.expireTime));
    }

    /** `register_secret`, with a fresh uuid and two clock readings. */
    method RegisterSecret(path: string, clientToken: Id, uuid: string, ttl: nat, renewable: bool, now: nat, later: nat)
      returns (ok: bool)
      requires Valid() && now <= later
      requires SecretLease(path, uuid) !in owner
      modifies this`leases, this`index, this`queue, this`head, this`owner, this`budget
      ensures Valid()
      ensures ok <==> SanePath(path) && old(budget) >= 2
      ensures !ok ==> Now() == old(Now()) && index == old(index) && owner == old(owner)
      ensures ok ==>
                var le := LeaseEntry(SecretLease(path, uuid), clientToken, path, renewable, now, SecretEnds(ttl, later));
                && leases == old(leases)[le.leaseId := le]
                && queue == old(queue)[KeyOf(le) := Priority(le.expireTime)]
                && (clientToken, le.leaseId) in index
                && owner == old(owner)[le.leaseId := KeyOf(le)]
    {
      hide ForestOk, Listed, LeasesOk, QueueOk, HeadOk, SanePath;
      if !SanePath(path) || budget < 2 {
        return false;
      }
      budget := budget - 2;
      var secretTtl := ttl;
      if L.AsSecs(secretTtl) == 0 {
        secretTtl := L.DEFAULT_LEASE_TTL;
      }
      if secretTtl > L.MAX_LEASE_TTL {
        secretTtl := L.MAX_LEASE_TTL;
      }
      var le := LeaseEntry(SecretLease(path, uuid), clientToken, path, renewable, now,
                           L.ExpirationTime(secretTtl, later));
      Store(le);
      return true;
    }

    /** `register_auth`: the lease of a token. */
    method RegisterAuth(te: TokenEntry, clientToken: Id, ttl: nat, renewable: bool, now: nat, later: nat)
      returns (r: Result<LeaseId, RvError>)
      requires Valid()
      modifies this`leases, this`index, this`queue, this`head, this`owner, this`budget
      ensures Valid()
      ensures r.Failure? ==> Now() == old(Now()) && index == old(index) && owner == old(owner)
      ensures r.Success? ==>
                var le := LeaseEntry(TokenLease(te.path, clientToken), clientToken, te.path, renewable, now,
                                     L.ExpirationTime(ttl, later));
                && r.value == le.leaseId
                && leases == old(leases)[le.leaseId := le]
                && queue == old(queue)[KeyOf(le) := Priority(le.expireTime)]
                && owner == old(owner)[le.leaseId := KeyOf(le)]
      ensures r.Success? <==>
                && (te.ttl != 0 || L.AsSecs(ttl) > 0 || te.policies == ["root"])
                && clientToken != "" && SanePath(te.path) && old(budget) >= 1
      ensures te.ttl == 0 && L.AsSecs(ttl) == 0 && te.policies != ["root"] ==> r == Failure(ErrString)
      ensures clientToken == "" || Views.ContainsDotDot(te.path) ==> r == Failure(ErrString)
    {
      hide ForestOk, Listed, LeasesOk, QueueOk, HeadOk;
      if te.ttl == 0 && L.ExpirationTime(ttl, now) == 0 && (|te.policies| != 1 || te.policies[0] != "root") {
        return Failure(ErrString);
      }
      if clientToken == "" {
        return Failure(ErrString);
      }
      if Views.ContainsDotDot(te.path) {
        return Failure(ErrString);
      }
      if !SanePath(te.path) {
        return Failure(ErrBarrierKeySanityCheckFailed);
      }
      if budget < 1 {
        return Failure(ErrIo);
      }
      budget := budget - 1;
      var le := LeaseEntry(TokenLease(te.path, clientToken), clientToken, te.path, renewable, now,
                           L.ExpirationTime(ttl, later));
      FreshTokenLease(leases, index, owner, le.leaseId);
      Store(le);
      return Success(le.leaseId);
    }

    /**
      `renew` and `renew_token`: the backend's reply sets the terms, and the deadline
      counts from the lease's own issue time. Success says whether the lease was renewed.
      */
    method Renew(l: LeaseId, increment: nat, reply: Reply, now: nat, calculated: nat, renewed: nat)
      returns (r: Result<bool, RvError>)
      requires Valid()
      modifies this`leases, this`index, this`queue, this`head, this`owner, this`budget
      ensures Valid()
      ensures index == old(index) && owner == old(owner)
      ensures !(r == Success(true)) ==> Now() == old(Now())
      ensures SanePath(l.path) && l !in old(leases) ==> r == Failure(ErrLeaseNotFound)
      ensures !SanePath(l.path) ==> r == Failure(ErrBarrierKeySanityCheckFailed)
      ensures l in old(leases) && !(old(leases)[l].renewable && now <= old(leases)[l].expireTime) ==>
                r == Failure(ErrLeaseNotRenewable)
      ensures r == Success(true) ==>
                && reply.Reply? && l in old(leases)
                && var le := RenewedLease(old(leases)[l], increment, reply, calculated, renewed);
                   && leases == old(leases)[l := le]
                   && queue == old(queue)[KeyOf(le) := Priority(le.expireTime)]
      ensures r == Success(true) <==>
                && old(budget) >= 1 && l in old(leases) && old(leases)[l].renewable && now <= old(leases)[l].expireTime
                && reply.Reply? && (l.SecretLease? ==> L.AsSecs(reply.ttl) > 0)
                && L.Ttl(L.MAX_LEASE_TTL, L.DEFAULT_LEASE_TTL, TermsOf(l, increment, reply),
                         old(leases)[l].issueTime, calculated).Success?
    {
      hide ForestOk, Listed, LeasesOk, QueueOk, HeadOk, L.Ttl, SanePath;
      if l in leases {
        LeaseFacts(leases, index, owner, l);
      }
      if !SanePath(l.path) {
        return Failure(ErrBarrierKeySanityCheckFailed);
      }
      if l !in leases {
        return Failure(ErrLeaseNotFound);
      }
      var le := leases[l];
      if !(le.expireTime >= now && le.renewable) {
        return Failure(ErrLeaseNotRenewable);
      }
      if reply.ReplyError? {
        return Failure(ErrResponse);
      }
      if reply.NoReply? || (l.SecretLease? && L.AsSecs(reply.ttl) == 0) {
        return Success(false);
      }
      var terms := TermsOf(l, increment, reply);
      var ttl := L.CalculateTtl(L.MAX_LEASE_TTL, L.DEFAULT_LEASE_TTL, terms, le.issueTime, calculated);
      if ttl.Failure? {
        return Failure(ttl.error);
      }
      if budget < 1 {
        return Failure(ErrIo);
      }
      budget := budget - 1;
      var le' := le.(expireTime := L.ExpirationTime(ttl.value, renewed), renewable := reply.renewable);
      ghost var index0 := index;
      Store(le');
      assert index == index0;
      return Success(true);
    }

    /** The invariants without the agreement of queue and leases. */
    ghost predicate Settled()
      reads this
    {
      ForestOk(parents, rank, clock) && Listed(tokens, parents) && LeasesOk(leases, index, owner) && HeadOk(queue, head)
    }

    /**
      `restore`: one storage call for the list of leases and one for each lease. Stopped
      half-way, the queue holds the leases restored before, now or so far.
      */
    method Restore(ghost before: set<LeaseId>) returns (ok: bool, ghost done: set<LeaseId>)
      requires Settled() && Restored(leases, queue, before)
      modifies this`queue, this`head, this`budget
      ensures Settled() && Restored(leases, queue, done) && before <= done
      ensures ok <==> old(budget) > |leases|
      ensures if ok then Valid() && Restored(leases, queue, leases.Keys) else budget == 0
    {
      hide ForestOk, Listed, LeasesOk, QueueOk, Restored, HeadOk;
      done := before;
      ok := Spend();
      if !ok {
        return;
      }
      var todo := leases.Keys;
      while todo != {}
        invariant todo <= leases.Keys && HeadOk(queue, head) && ok && old(budget) > 0
        invariant budget + 1 + |leases.Keys| == old(budget) + |todo|
        invariant before <= done && Restored(leases, queue, done)
        invariant forall l | l in leases && l !in todo :: l in done
        decreases todo
      {
        var l :| l in todo;
        ok := Spend();
        if !ok {
          return;
        }
        RestoreStep(leases, index, owner, queue, done, l);
        Push(KeyOf(leases[l]), Priority(leases[l].expireTime));
        todo := todo - {l};
        done := done + {l};
      }
      RestoredAll(leases, queue, done);
      RestoreDone(leases, index, owner, queue);
    }

    /** `stop_check_expired_lease_entries`, and `restore` at the next start. */
    method StopThenRestore() returns (ok: bool, ghost done: set<LeaseId>)
      requires Valid()
      modifies this`queue, this`head, this`budget
      ensures Settled() && Restored(leases, queue, done)
      ensures ok <==> old(budget) > |leases|
      ensures if ok then Valid() && Restored(leases, queue, leases.Keys) else budget == 0
    {
      hide ForestOk, Listed, LeasesOk, QueueOk, Restored;
      queue := map[];
      head := None;
      RestoreStart(leases);
      ok, done := Restore({});
    }

    // ---- Tokens.

    /** `revoke`, the orphaning revocation. */
    method Revoke(id: Id) returns (r: Result<(), RvError>)
      requires Valid() && History()
      modifies this`tokens, this`parents, this`leases, this`index, this`queue, this`head, this`budget
      ensures Valid() && History()
      ensures OneRevoked(old(Now()), Now(), id)
      ensures id == "" ==> r == Failure(ErrAuthTokenIdInvalid) && Now() == old(Now())
      ensures r.Success? ==> id !in tokens && (id in old(tokens) ==> NoSecrets(leases, id))
      ensures r.Failure? ==> id == "" || budget == 0
      ensures id != "" && old(budget) >= 4 + 4 * |old(index)| ==> r.Success?
      ensures r.Success? ==> TokenUnlisted(old(Now()), Now(), id)
      ensures r.Success? && id in old(tokens) ==> SecretsDropped(old(leases), index, queue, id, {})
    {
      hide SecretsDropped, TokenUnlisted;
      hide LeasesOk, QueueOk, HeadOk, Listed, ForestOk, OneRevoked, NoSecrets, LineageOk, UsesOk, EdgesOk;
      OneNothing(Now(), id);
      if id == "" {
        return Failure(ErrAuthTokenIdInvalid);
      }
      var ok := RevokeSalted(id);
      EdgesShrink(old(parents), parents, created);
      SubMapOfTree(old(Now()), Now(), id);
      UsesShrink(old(tokens), tokens, created, passes);
      return if ok then Success(()) else Failure(ErrIo);
    }

    /**
      `revoke_tree`. A call that succeeds removes exactly the tokens reachable in the
      parent index, with all their secrets, and no other lease. Stopped anywhere, it has
      removed tokens below the given one only, each after everything indexed below it.
      */
    method RevokeTreeOf(id: Id) returns (r: Result<(), RvError>)
      requires Valid() && History()
      modifies this`tokens, this`parents, this`leases, this`index, this`queue, this`head, this`budget
      ensures Valid() && History()
      ensures SubMap(tokens, old(tokens))
      ensures Pruned(old(tokens).Keys, old(parents), tokens.Keys, parents)
      ensures forall x | x in old(tokens) && x !in tokens :: Reach(old(parents), id, x)
      ensures LeasesCut(old(leases), leases, old(tokens).Keys - tokens.Keys)
      ensures id == "" ==> r == Failure(ErrAuthTokenIdInvalid) && Now() == old(Now())
      ensures r.Success? ==> forall x :: x in tokens <==> x in old(tokens) && !Reach(old(parents), id, x)
      ensures r.Success? ==> forall x | x in old(tokens) && Reach(old(parents), id, x) :: NoSecrets(leases, x)
      ensures r.Failure? ==> id == "" || budget == 0
      ensures id != "" && old(budget) >= Enough(Height(id), |old(parents)|, |old(index)|) ==> r.Success?
      ensures AlmostThorough(old(Now()), Now())
      ensures StopsShort(old(Now()), id, old(budget)) ==> r.Failure? && id !in tokens && leases == old(leases)
      ensures id != "" && NothingThere(old(Now()), id, old(budget)) ==> r.Success? && leases == old(leases)
      ensures forall x | x in old(tokens) && x !in tokens :: Descends(created, x, id)
      ensures r.Success? ==> forall x | x in old(tokens) && Descends(old(tokens), x, id) :: x !in tokens
    {
      hide LeasesOk, QueueOk, HeadOk, Listed, ForestOk, Reach, LineageOk, UsesOk, QueueGrew, AlmostThorough, StopsShort;
      hide NothingThere, Enough, EdgesOk, Descends;
      NoEmptyId(tokens, parents);
      NotEmptyStop(Now(), id, budget);
      TreeNothing(Now(), id);
      if id == "" {
        return Failure(ErrAuthTokenIdInvalid);
      }
      forall x | x in tokens
        ensures (Reach(parents, id, x) ==> Descends(created, x, id)) && (Descends(tokens, x, id) ==> Reach(parents, id, x))
      {
        TreeByLinks(tokens, parents, created, passes, id, x);
      }
      var ok := RevokeTree(id);
      EdgesShrink(old(parents), parents, created);
      UsesShrink(old(tokens), tokens, created, passes);
      return if ok then Success(()) else Failure(ErrIo);
    }

    /** The first half of `create`: the entry under the parent, if there is one. */
    method ListUnderParent(te: TokenEntry) returns (r: Result<(), RvError>)
      requires Valid() && History() && te.id != "" && te.id !in rank
      modifies this`parents, this`budget, this`rank, this`clock
      ensures Valid() && History()
      ensures rank.Keys <= old(rank).Keys + {te.id} && clock <= old(clock) + 1
      ensures parents == old(parents) || parents == old(parents) + {(te.parent, te.id)}
      ensures te.parent == "" ==> parents == old(parents)
      ensures te.parent != "" && te.parent !in tokens ==> r.Failure? && parents == old(parents)
      ensures te.parent != "" && te.parent !in tokens && old(budget) > 0 ==> r == Failure(ErrAuthTokenNotFound)
      ensures r.Failure? ==> parents == old(parents)
      ensures old(budget) >= 2 && (te.parent == "" || te.parent in tokens) ==> r.Success? && budget >= old(budget) - 2
      ensures r.Success? && te.parent != "" ==> (te.parent, te.id) in parents
      ensures r.Success? ==> Listed(tokens[te.id := te], parents)
      ensures r.Success? ==> LineageOk(created[te.id := te], rank, clock)
    {
      hide LeasesOk, QueueOk, HeadOk, Listed, ForestOk, LineageOk, UsesOk, EdgesOk;
      if te.parent != "" {
        var ok := Spend();
        if !ok {
          return Failure(ErrIo);
        }
        if te.parent !in tokens {
          return Failure(ErrAuthTokenNotFound);
        }
        ok := Spend();
        if !ok {
          return Failure(ErrIo);
        }
      }
      LineageGrows(tokens, created, passes, rank, clock, te);
      RankGrows(parents, created, rank, clock, te.id, te.parent);
      ChildListed(tokens, parents, te);
      EdgesListed(tokens, parents, created, passes, rank, clock, te);
      rank, clock := rank[te.id := clock], clock + 1;
      if te.parent != "" {
        parents := parents + {(te.parent, te.id)};
      }
      return Success(());
    }

    /** `create`: the index entry is written before the token. The uuid is fresh. */
    method Create(entry: TokenEntry, uuid: Id) returns (r: Result<TokenEntry, RvError>)
      requires Valid() && History()
      requires uuid != "" && uuid !in rank && entry.id !in rank
      modifies this`tokens, this`parents, this`budget, this`rank, this`clock, this`created, this`passes
      ensures Valid() && History()
      ensures var te := WithId(entry, uuid);
              && (parents == old(parents) || parents == old(parents) + {(te.parent, te.id)})
              && rank.Keys <= old(rank).Keys + {te.id} && clock <= old(clock) + 1 && te.id !in old(created)
              && (r.Success? && te.parent != "" ==> (te.parent, te.id) in parents)
              && (r.Success? ==>
                    && r.value == te && tokens == old(tokens)[te.id := te]
                    && created == old(created)[te.id := te] && passes == old(passes)[te.id := 0])
              && (r.Failure? ==> tokens == old(tokens) && created == old(created) && passes == old(passes))
              && (te.parent == "" ==> parents == old(parents))
              && (te.parent != "" && te.parent !in old(tokens) ==> r.Failure?)
              && (te.parent != "" && te.parent !in old(tokens) && old(budget) > 0 ==> r == Failure(ErrAuthTokenNotFound))
              && (old(budget) >= 3 && (te.parent == "" || te.parent in old(tokens)) ==> r.Success?)
              && (old(NarrowOk(created)) && NarrowedBy(old(tokens), te) ==> NarrowOk(created))
    {
      hide LeasesOk, QueueOk, HeadOk, Listed, ForestOk, LineageOk, UsesOk, NarrowedBy, NarrowOk, EdgesOk;
      var te := WithId(entry, uuid);
      UsesGrow(tokens, created, passes, rank, clock, te);
      NarrowGrows(tokens, created, passes, rank, clock, te);
      var listed := ListUnderParent(te);
      if listed.Failure? {
        return Failure(listed.error);
      }
      var ok := Spend();
      if !ok {
        return Failure(ErrIo);
      }
      EdgesCreated(old(parents), parents, created, old(rank), old(clock), te);
      tokens := tokens[te.id := te];
      created, passes := created[te.id := te], passes[te.id := 0];
      return Success(te);
    }

    /** `handle_create`, with fresh ids. */
    method HandleCreate(clientToken: Id, body: Option<CreateData>, sanitize: seq<string> -> seq<string>,
                        uuid: Id, creation: nat, now: nat)
      returns (r: Result<TokenEntry, RvError>)
      requires Valid() && History()
      requires uuid != "" && uuid !in rank && (body.Some? ==> body.value.id !in rank)
      modifies this`tokens, this`parents, this`budget, this`rank, this`clock, this`created, this`passes
      ensures Valid() && History()
      ensures old(NarrowOk(created)) ==> NarrowOk(created)
      ensures clock <= old(clock) + 1
      ensures body.None? ==> r == Failure(ErrRequestInvalid)
      ensures body.Some? && clientToken == "" ==> r == Failure(ErrAuthTokenIdInvalid)
      ensures body.Some? && clientToken != "" && clientToken !in old(tokens) && old(budget) > 0 ==>
                r == Failure(ErrRequestInvalid)
      ensures rank.Keys <= old(rank).Keys + {if body.Some? && body.value.id != "" then body.value.id else uuid}
      ensures r.Failure? ==> tokens == old(tokens) && created == old(created) && passes == old(passes)
      ensures EntryWritten(old(parents), parents, clientToken, body, uuid, r.Success?)
      ensures r.Success? ==>
                && body.Some? && r.value.id == (if body.value.id != "" then body.value.id else uuid)
                && r.value.id !in old(created)
                && created == old(created)[r.value.id := r.value] && passes == old(passes)[r.value.id := 0]
      ensures old(budget) >= 4 ==>
                (r.Success? <==>
                   && clientToken != "" && clientToken in old(tokens) && body.Some?
                   && Grantable(old(tokens)[clientToken], body.value, sanitize, creation, now))
      ensures r.Success? ==> tokens == old(tokens)[r.value.id := r.value] && r.value.id !in old(tokens)
      ensures r.Success? ==>
                && body.Some? && clientToken in old(tokens)
                && ProperChild(old(tokens)[clientToken], clientToken, body.value, r.value)
                && CreatedTtl(body.value, r.value.policies, creation, now) == Success(r.value.ttl)
                && r.value.policies ==
                   (if body.value.policies == [] then sanitize(old(tokens)[clientToken].policies) else body.value.policies)
                && r.value.period == body.value.period && r.value.explicitMaxTtl == body.value.explicitMaxTtl
                && r.value.path == "auth/token/create"
    {
      hide LeasesOk, QueueOk, HeadOk, Listed, ForestOk, LineageOk, CreatedTtl, NarrowOk, UsesOk, IsSubset, EdgesOk;
      if body.None? {
        return Failure(ErrRequestInvalid);
      }
      if clientToken == "" {
        return Failure(ErrAuthTokenIdInvalid);
      }
      var ok := Spend();
      if !ok {
        return Failure(ErrIo);
      }
      if clientToken !in tokens {
        return Failure(ErrRequestInvalid);
      }
      var proposed := Propose(tokens[clientToken], clientToken, body.value, sanitize, creation, now);
      if proposed.Failure? {
        return Failure(proposed.error);
      }
      var te := proposed.value;
      CreatedIdIsNew(tokens, created, passes, rank, clock, WithId(te, uuid).id);
      NoEmptyId(tokens, parents);
      r := Create(te, uuid);
    }

    /**
      `use_token`, on an entry as it is stored: a limited token has one use less, and the
      last use takes it away.
      */
    method UseToken(t: Id) returns (ok: bool, entry: TokenEntry)
      requires Valid() && History() && t in tokens
      modifies this`tokens, this`parents, this`leases, this`index, this`queue, this`head, this`budget, this`passes
      ensures Valid() && History()
      ensures t in old(passes) && passes == if ok then old(passes)[t := old(passes)[t] + 1] else old(passes)
      ensures UseMade(old(Now()), Now(), t, ok)
      ensures var n := old(tokens)[t].numUses;
              entry == old(tokens)[t].(numUses := if n == 0 then 0 else n - 1)
      ensures !ok ==> budget == 0
      ensures old(budget) >= 1 && old(tokens)[t].numUses != 1 ==> ok
      ensures old(budget) >= 4 + 4 * |old(index)| ==> ok
    {
      hide LeasesOk, QueueOk, HeadOk, ForestOk, LineageOk, NoSecrets, Listed, UsesOk, OneRevoked, EdgesOk;
      UsesPass(tokens, created, passes, t);
      NoEmptyId(tokens, parents);
      entry := tokens[t];
      if entry.numUses == 0 {
        passes := passes[t := passes[t] + 1];
        return true, entry;
      }
      entry := entry.(numUses := entry.numUses - 1);
      ListedUse(tokens, parents, t, entry.numUses);
      if entry.numUses == 0 {
        var revoked := Revoke(entry.id);
        if revoked.Failure? {
          return false, entry;
        }
        LastUse(old(Now()), Now(), t);
      } else {
        ok := Spend();
        if !ok {
          return;
        }
        tokens := tokens[t := entry];
      }
      passes := passes[t := passes[t] + 1];
      return true, entry;
    }

    /** `check_token`: a stored token passes with its own policies, and the use is counted. */
    method CheckToken(t: Id, sanitize: seq<string> -> seq<string>) returns (r: Result<Auth, RvError>)
      requires Valid() && History()
      modifies this`tokens, this`parents, this`leases, this`index, this`queue, this`head, this`budget, this`passes
      ensures Valid() && History()
      ensures r.Success? ==> t in old(tokens) && t in old(passes) && passes == old(passes)[t := old(passes)[t] + 1]
      ensures r.Success? ==>
                && r.value.clientToken == t && r.value.tokenPolicies == old(tokens)[t].policies
                && r.value.policies == sanitize(old(tokens)[t].policies)
      ensures r.Failure? ==> passes == old(passes)
      ensures t !in old(tokens) ==> r.Failure? && Now() == old(Now())
      ensures t == "" ==> r == Failure(ErrRequestClientTokenMissing)
      ensures t != "" && t !in old(tokens) && old(budget) > 0 ==> r == Failure(ErrPermissionDenied)
      ensures t in old(tokens) && r.Failure? ==> r.error == ErrIo && budget == 0
      ensures t in old(tokens) && old(tokens)[t].numUses != 1 && old(budget) >= 2 ==> r.Success?
      ensures t in old(tokens) && old(budget) >= 5 + 4 * |old(index)| ==> r.Success?
      ensures t in old(tokens) ==> UseMade(old(Now()), Now(), t, r.Success?)
    {
      hide LeasesOk, QueueOk, HeadOk, ForestOk, LineageOk, Listed, UsesOk, UseMade, EdgesOk;
      NoUseMade(Now(), t);
      NoEmptyId(tokens, parents);
      if t == "" {
        return Failure(ErrRequestClientTokenMissing);
      }
      var ok := Spend();
      if !ok {
        return Failure(ErrIo);
      }
      if t !in tokens {
        return Failure(ErrPermissionDenied);
      }
      var entry;
      ok, entry := UseToken(t);
      return if ok then Success(Auth(t, entry.policies, sanitize(entry.policies))) else Failure(ErrIo);
    }
  }
}
