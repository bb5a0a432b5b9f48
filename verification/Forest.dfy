/**
  Reachability in the parent index of `src/modules/auth/token_store.rs`, and what a
  revocation that stops half-way may have done to it.
  */
module Forest {

  type Id = string

  /** Pairs of a parent and one of its children. */
  type Edges = set<(Id, Id)>

  ghost predicate IsPath(e: Edges, p: seq<Id>) {
    |p| > 0 && forall i | 0 <= i < |p| - 1 :: (p[i], p[i + 1]) in e
  }

  ghost predicate Reach(e: Edges, x: Id, y: Id) {
    exists p :: IsPath(e, p) && p[0] == x && p[|p| - 1] == y
  }

  lemma ReachSelf(e: Edges, x: Id)
    ensures Reach(e, x, x)
  {
    assert IsPath(e, [x]);
  }

  /** A descendant is the node itself or a descendant of one of its children. */
  lemma ReachFirst(e: Edges, x: Id, y: Id)
    ensures Reach(e, x, y) <==> x == y || exists c :: (x, c) in e && Reach(e, c, y)
  {
    if Reach(e, x, y) && x != y {
      var p :| IsPath(e, p) && p[0] == x && p[|p| - 1] == y;
      var q := p[1..];
      assert (p[0], p[0 + 1]) in e;
      assert forall i | 0 <= i < |q| - 1 :: (q[i], q[i + 1]) == (p[i + 1], p[i + 1 + 1]);
      assert IsPath(e, q) && q[0] == p[1] && q[|q| - 1] == y;
      assert Reach(e, p[1], y);
    }
    if x == y {
      ReachSelf(e, x);
    }
    forall c | (x, c) in e && Reach(e, c, y) ensures Reach(e, x, y) {
      var q :| IsPath(e, q) && q[0] == c && q[|q| - 1] == y;
      var p := [x] + q;
      assert IsPath(e, p);
    }
  }

  lemma ReachMonotone(e: Edges, f: Edges, x: Id, y: Id)
    requires e <= f && Reach(e, x, y)
    ensures Reach(f, x, y)
  {
    var p :| IsPath(e, p) && p[0] == x && p[|p| - 1] == y;
    assert IsPath(f, p);
  }

  /** No live token is reachable from x. */
  ghost predicate Cleared(live: set<Id>, e: Edges, x: Id) {
    forall y | y in live :: !Reach(e, x, y)
  }

  /**
    One state of tokens and index comes from another by deleting tokens only after all
    their indexed descendants, and index entries only after everything below them.
    */
  ghost predicate Pruned(live: set<Id>, e: Edges, live': set<Id>, e': Edges) {
    && live' <= live
    && e' <= e
    && (forall x | x in live && x !in live' :: Cleared(live', e, x))
    && (forall x | x in e && x !in e' :: Cleared(live', e, x.1))
  }

  /** Tokens that are still there are still reached by the same path. */
  lemma {:induction false} LivePathSurvives(live: set<Id>, e: Edges, live': set<Id>, e': Edges, p: seq<Id>)
    requires Pruned(live, e, live', e') && IsPath(e, p) && p[|p| - 1] in live'
    ensures IsPath(e', p)
  {
    if |p| > 1 {
      var q := p[1..];
      assert forall i | 0 <= i < |q| - 1 :: (q[i], q[i + 1]) == (p[i + 1], p[i + 1 + 1]);
      LivePathSurvives(live, e, live', e', q);
      assert IsPath(e, q) && q[0] == p[1] && q[|q| - 1] == p[|p| - 1];
      assert Reach(e, p[1], p[|p| - 1]);
      assert (p[0], p[0 + 1]) in e';
      forall i | 0 <= i < |p| - 1 ensures (p[i], p[i + 1]) in e' {
        if i > 0 {
          assert (q[i - 1], q[i - 1 + 1]) in e';
        }
      }
    }
  }

  lemma LiveReach(live: set<Id>, e: Edges, live': set<Id>, e': Edges, x: Id, y: Id)
    requires Pruned(live, e, live', e') && y in live'
    ensures Reach(e, x, y) <==> Reach(e', x, y)
  {
    if Reach(e, x, y) {
      var p :| IsPath(e, p) && p[0] == x && p[|p| - 1] == y;
      LivePathSurvives(live, e, live', e', p);
    }
    if Reach(e', x, y) {
      ReachMonotone(e', e, x, y);
    }
  }

  lemma ClearedBackwards(live: set<Id>, e: Edges, live': set<Id>, e': Edges, live'': set<Id>, x: Id)
    requires Pruned(live, e, live', e') && live'' <= live' && Cleared(live'', e', x)
    ensures Cleared(live'', e, x)
  {
    forall y | y in live'' ensures !Reach(e, x, y) {
      LiveReach(live, e, live', e', x, y);
    }
  }

  lemma PrunedTransitive(live: set<Id>, e: Edges, live': set<Id>, e': Edges, live'': set<Id>, e'': Edges)
    requires Pruned(live, e, live', e') && Pruned(live', e', live'', e'')
    ensures Pruned(live, e, live'', e'')
  {
    forall x | x in live && x !in live'' ensures Cleared(live'', e, x) {
      if x in live' {
        ClearedBackwards(live, e, live', e', live'', x);
      }
    }
    forall x | x in e && x !in e'' ensures Cleared(live'', e, x.1) {
      if x in e' {
        ClearedBackwards(live, e, live', e', live'', x.1);
      }
    }
  }

  /** Deleting a token whose descendants are gone, and then perhaps its index entry. */
  lemma PrunedOne(live: set<Id>, e: Edges, live': set<Id>, e': Edges, x: Id)
    requires forall c | (x, c) in e :: Cleared(live, e, c)
    requires live' == live || live' == live - {x}
    requires e' <= e && forall d | d in e && d !in e' :: d.1 == x && live' == live - {x}
    ensures Pruned(live, e, live', e')
    ensures live' == live - {x} ==> Cleared(live', e, x)
  {
    forall y | y in live - {x} ensures !Reach(e, x, y) {
      ReachFirst(e, x, y);
    }
  }

  /**
    Rerunning finishes: an interrupted revocation of s followed by a complete one leaves
    exactly the tokens that a single complete revocation of s would have left.
    */
  lemma RerunFinishes(live: set<Id>, e: Edges, live': set<Id>, e': Edges, live'': set<Id>, s: Id)
    requires Pruned(live, e, live', e') && forall x | x in live && x !in live' :: Reach(e, s, x)
    requires live'' <= live' && forall x | x in live' && x !in live'' :: Reach(e', s, x)
    requires Cleared(live'', e', s)
    ensures forall x :: x in live'' <==> x in live && !Reach(e, s, x)
  {
    ClearedBackwards(live, e, live', e', live'', s);
    forall x | x in live' && x !in live'' ensures Reach(e, s, x) {
      ReachMonotone(e', e, s, x);
    }
  }
}
