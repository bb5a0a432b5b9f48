/**
  Whole runs of the token store and the expiration manager: any calls in any order, each
  with its own number of storage calls before the storage fails, with fresh ids.
  */
module TokenRuns {
  import opened Wrappers
  import opened Forest
  import opened TokenStore
  import L = Lease

  datatype Call =
    | CreateRoot(uuid: Id)
    | CreateChild(clientToken: Id, body: Option<CreateData>, uuid: Id, creation: nat, now: nat)
    | Check(token: Id)
    | RevokeOne(token: Id)
    | RevokeBelow(token: Id)
    | IssueSecret(path: string, clientToken: Id, uuid: string, ttl: nat, renewable: bool, now: nat, later: nat)
    | IssueAuth(te: TokenEntry, clientToken: Id, ttl: nat, renewable: bool, now: nat, later: nat)
    | RenewLease(l: LeaseId, increment: nat, reply: Reply, now: nat, calculated: nat, renewed: nat)
    | RevokeLease(l: LeaseId)
    | SweepAt(clock: nat -> nat)
    | Restart

  /** The ids that a call brings in. */
  function NewIds(c: Call): set<string> {
    match c
    case CreateRoot(uuid) => {uuid}
    case CreateChild(_, body, uuid, _, _) =>
      if body.Some? && body.value.id != "" then {uuid, body.value.id} else {uuid}
    case IssueSecret(_, _, uuid, _, _, _, _) => {uuid}
    case _ => {}
  }

  /** Clock readings of one call do not run backwards. */
  predicate ClockOk(c: Call) {
    match c
    case IssueSecret(_, _, _, _, _, now, later) => now <= later
    case IssueAuth(_, _, _, _, now, later) => now <= later
    case RenewLease(_, _, _, now, calculated, renewed) => now <= calculated <= renewed
    case _ => true
  }

  function Seen(calls: seq<Call>): set<string> {
    if calls == [] then {} else Seen(calls[..|calls| - 1]) + NewIds(calls[|calls| - 1])
  }

  /** Every id that a call brings in is a new one. */
  ghost predicate Proper(calls: seq<Call>) {
    forall i | 0 <= i < |calls| ::
      ClockOk(calls[i]) && "" !in NewIds(calls[i]) && NewIds(calls[i]) !! Seen(calls[..i])
  }

  /** How often a token passed `check_token` in a run. */
  ghost function Passed(calls: seq<Call>, outcomes: seq<bool>, t: Id): nat
    requires |calls| == |outcomes|
  {
    if calls == [] then 0
    else
      var n := |calls| - 1;
      Passed(calls[..n], outcomes[..n], t) + if calls[n] == Check(t) && outcomes[n] then 1 else 0
  }

  function Uses(passes: map<Id, nat>, t: Id): nat {
    if t in passes then passes[t] else 0
  }

  /** The ids that the store has met are among those seen. */
  ghost predicate MetOnly(rank: map<Id, nat>, owner: map<LeaseId, QueueKey>, seen: set<string>) {
    && rank.Keys <= seen && "" !in seen
    && forall l | l in owner && l.SecretLease? :: l.uuid in seen
  }

  lemma MetMore(rank: map<Id, nat>, rank': map<Id, nat>, owner: map<LeaseId, QueueKey>, seen: set<string>,
                ids: set<string>)
    requires MetOnly(rank, owner, seen) && "" !in ids && rank'.Keys <= rank.Keys + ids
    ensures MetOnly(rank', owner, seen + ids)
  {}

  lemma MetStay(rank: map<Id, nat>, owner: map<LeaseId, QueueKey>, seen: set<string>, ids: set<string>)
    requires MetOnly(rank, owner, seen) && "" !in ids
    ensures MetOnly(rank, owner, seen + ids)
  {}

  lemma SecretIds(c: Call)
    requires c.IssueSecret?
    ensures c.uuid in NewIds(c)
  {}

  lemma MetLease(rank: map<Id, nat>, owner: map<LeaseId, QueueKey>, seen: set<string>, ids: set<string>,
                 l: LeaseId, k: QueueKey)
    requires MetOnly(rank, owner, seen) && "" !in ids && (l.SecretLease? ==> l.uuid in ids)
    ensures MetOnly(rank, owner[l := k], seen + ids)
    ensures l.SecretLease? && l.uuid !in seen ==> l !in owner
  {}

  ghost predicate Sound(s: TokenStore)
    reads s
  {
    s.Valid() && s.History() && NarrowOk(s.created)
  }

  // ---- How long leases last.

  /**
    A lease ends at most a span and a lag after its issue time, truncated to seconds. If
    whole is set it does end; otherwise it may be one that never expires.
    */
  ghost predicate Ends(le: LeaseEntry, span: nat, lag: nat, whole: bool) {
    le.expireTime <= L.Floor(le.issueTime) + span + lag && (whole ==> le.expireTime != 0)
  }

  /**
    A call keeps a lease within a span and a lag, if it concerns that lease: it takes no
    longer than the lag, counted from its first reading of the clock truncated to seconds,
    and it asks for no more than the span. A secret's span is 30 days whatever is asked. If
    whole is set, the call asks for whole seconds and not for none.
    */
  ghost predicate CallWithin(c: Call, l: LeaseId, span: nat, lag: nat, whole: bool) {
    match c
    case IssueSecret(path, _, uuid, _, _, now, later) =>
      l == SecretLease(path, uuid) ==> later <= L.Floor(now) + lag && L.MAX_LEASE_TTL <= span
    case IssueAuth(te, clientToken, ttl, _, now, later) =>
      l == TokenLease(te.path, clientToken) ==>
        later <= L.Floor(now) + lag && ttl <= span && (whole ==> L.AsSecs(ttl) > 0)
    case RenewLease(renewing, increment, reply, _, calculated, renewed) =>
      l == renewing && reply.Reply? ==>
        var terms := TermsOf(l, increment, reply);
        && renewed <= L.Floor(calculated) + lag
        && L.Span(terms).Some? && L.Span(terms).value <= span
        && (whole ==> L.WholeSeconds(terms))
    case _ => true
  }

  ghost predicate Within(calls: seq<Call>, l: LeaseId, span: nat, lag: nat, whole: bool) {
    forall i | 0 <= i < |calls| :: CallWithin(calls[i], l, span, lag, whole)
  }

  /** Whatever span and lag the calls kept to for a stored lease, it ends within them. */
  ghost predicate Bounded(leases: map<LeaseId, LeaseEntry>, calls: seq<Call>) {
    forall l, span, lag, whole | l in leases && Within(calls, l, span, lag, whole) :: Ends(leases[l], span, lag, whole)
  }

  /** For a secret the lag, and whole seconds, are all that matters. */
  lemma SecretWithin(calls: seq<Call>, l: LeaseId, lag: nat, whole: bool)
    requires l.SecretLease?
    requires forall i | 0 <= i < |calls| ::
               match calls[i]
               case IssueSecret(_, _, _, _, _, now, later) => later <= L.Floor(now) + lag
               case RenewLease(_, increment, reply, _, calculated, renewed) =>
                 && renewed <= L.Floor(calculated) + lag
                 && (whole && reply.Reply? ==> L.WholeSeconds(TermsOf(l, increment, reply)))
               case _ => true
    ensures Within(calls, l, L.MAX_LEASE_TTL, lag, whole)
  {
    hide L.Floor, L.WholeSeconds;
  }

  /** A step keeps every lease within every span and lag that the call keeps to. */
  ghost predicate StepEnds(leases: map<LeaseId, LeaseEntry>, leases': map<LeaseId, LeaseEntry>, c: Call) {
    forall l, span, lag, whole |
      l in leases' && CallWithin(c, l, span, lag, whole) && (l in leases ==> Ends(leases[l], span, lag, whole)) ::
      Ends(leases'[l], span, lag, whole)
  }

  lemma BoundedStep(leases: map<LeaseId, LeaseEntry>, leases': map<LeaseId, LeaseEntry>, calls: seq<Call>, i: nat)
    requires i < |calls| && Bounded(leases, calls[..i]) && StepEnds(leases, leases', calls[i])
    ensures Bounded(leases', calls[..i + 1])
  {
    hide CallWithin, Ends;
    var longer := calls[..i + 1];
    forall l, span, lag, whole | l in leases' && Within(longer, l, span, lag, whole)
      ensures Ends(leases'[l], span, lag, whole)
    {
      assert forall j | 0 <= j < i :: calls[..i][j] == longer[j];
      assert Within(calls[..i], l, span, lag, whole);
      assert CallWithin(longer[i], l, span, lag, whole);
    }
  }

  lemma ShrinkEnds(leases: map<LeaseId, LeaseEntry>, leases': map<LeaseId, LeaseEntry>, c: Call)
    requires SubMap(leases', leases)
    ensures StepEnds(leases, leases', c)
  {
    hide CallWithin, Ends;
  }

  /** A new lease is within its bound, and a secret's does end. */
  lemma IssueEnds(leases: map<LeaseId, LeaseEntry>, c: Call, le: LeaseEntry)
    requires match c
             case IssueSecret(path, _, uuid, ttl, _, now, later) =>
               le.leaseId == SecretLease(path, uuid) && le.issueTime == now && le.expireTime == SecretEnds(ttl, later)
             case IssueAuth(te, clientToken, ttl, _, now, later) =>
               && le.leaseId == TokenLease(te.path, clientToken) && le.issueTime == now
               && le.expireTime == L.ExpirationTime(ttl, later)
             case _ => false
    ensures StepEnds(leases, leases[le.leaseId := le], c) && StepEnds(leases, leases, c)
  {
    if c.IssueSecret? {
      NewSecretEnds(c.ttl, c.later);
    } else {
      TtlPositive(c.ttl);
    }
    hide L.Floor, L.AsSecs, SecretEnds;
  }

  lemma NewSecretEnds(ttl: nat, later: nat)
    ensures later < SecretEnds(ttl, later) <= later + L.MAX_LEASE_TTL
  {
    TtlPositive(ttl);
  }

  lemma TtlPositive(ttl: nat)
    ensures L.AsSecs(ttl) > 0 ==> ttl > 0
  {}

  /** Renewing a lease keeps it within its bound. */
  lemma RenewalEnds(leases: map<LeaseId, LeaseEntry>, c: Call)
    requires c.RenewLease? && ClockOk(c) && c.reply.Reply? && c.l in leases && leases[c.l].leaseId == c.l
    ensures StepEnds(leases, leases[c.l := RenewedLease(leases[c.l], c.increment, c.reply, c.calculated, c.renewed)], c)
  {
    hide L.Floor, L.Ttl, L.WholeSeconds;
    var le, terms := leases[c.l], TermsOf(c.l, c.increment, c.reply);
    forall span, lag, whole | CallWithin(c, c.l, span, lag, whole) && Ends(le, span, lag, whole)
      ensures Ends(RenewedLease(le, c.increment, c.reply, c.calculated, c.renewed), span, lag, whole)
    {
      RenewedWithin(le.issueTime, le.expireTime, L.Renewal(terms, c.calculated, c.renewed), span, lag);
    }
  }

  lemma RenewedWithin(issue: nat, expire: nat, r: L.Renewal, span: nat, lag: nat)
    requires r.calculated <= r.renewed <= L.Floor(r.calculated) + lag
    requires L.Span(r.terms).Some? && L.Span(r.terms).value <= span && expire <= L.Floor(issue) + span + lag
    ensures L.Renewed(issue, expire, r) <= L.Floor(issue) + span + lag
    ensures expire != 0 && L.WholeSeconds(r.terms) ==> L.Renewed(issue, expire, r) != 0
  {
    hide L.Renewed, L.KeepsEnd;
    assert L.RenewedAll(issue, expire, [r]) == L.Renewed(issue, expire, r) by {
      assert [r][..0] == [];
    }
    L.RenewalsAreBounded(issue, expire, [r], span, lag);
    if L.WholeSeconds(r.terms) {
      L.WholeTtl(issue, r);
    }
  }

  // ---- What each call does.

  /** What a call hands out: a successful check the policies that the token is stored with, others nothing. */
  ghost predicate HandsOut(a: Snap, c: Call, sanitize: seq<string> -> seq<string>, ok: bool, auth: Option<Auth>) {
    if c.Check? && ok then
      c.token in a.tokens && auth == Some(Auth(c.token, a.tokens[c.token].policies, sanitize(a.tokens[c.token].policies)))
    else
      auth == None
  }

  ghost predicate AllHandOut(trace: seq<Snap>, calls: seq<Call>, sanitize: seq<string> -> seq<string>,
                             outcomes: seq<bool>, auths: seq<Option<Auth>>)
  {
    && |auths| == |outcomes| <= |calls| && |trace| == |outcomes| + 1
    && forall i | 0 <= i < |outcomes| :: HandsOut(trace[i], calls[i], sanitize, outcomes[i], auths[i])
  }

  lemma HandOutLonger(trace: seq<Snap>, b: Snap, calls: seq<Call>, sanitize: seq<string> -> seq<string>,
                      outcomes: seq<bool>, ok: bool, auths: seq<Option<Auth>>, auth: Option<Auth>)
    requires AllHandOut(trace, calls, sanitize, outcomes, auths) && |outcomes| < |calls|
    requires HandsOut(trace[|outcomes|], calls[|outcomes|], sanitize, ok, auth)
    ensures AllHandOut(trace + [b], calls, sanitize, outcomes + [ok], auths + [auth])
  {
    hide HandsOut;
    var n, trace', outcomes', auths' := |outcomes|, trace + [b], outcomes + [ok], auths + [auth];
    forall i | 0 <= i < n + 1 ensures HandsOut(trace'[i], calls[i], sanitize, outcomes'[i], auths'[i]) {
      if i < n {
        assert trace'[i] == trace[i] && outcomes'[i] == outcomes[i] && auths'[i] == auths[i];
      }
    }
  }

  /** Handed out are the policies that tokens were created with. */
  ghost predicate AsCreated(created: map<Id, TokenEntry>, auths: seq<Option<Auth>>, sanitize: seq<string> -> seq<string>) {
    forall i | 0 <= i < |auths| && auths[i].Some? ::
      var auth := auths[i].value;
      && auth.clientToken in created && auth.tokenPolicies == created[auth.clientToken].policies
      && auth.policies == sanitize(auth.tokenPolicies)
  }

  lemma AsCreatedStep(a: Snap, created: map<Id, TokenEntry>, created': map<Id, TokenEntry>, passes: map<Id, nat>,
                      c: Call, sanitize: seq<string> -> seq<string>, ok: bool, auths: seq<Option<Auth>>,
                      auth: Option<Auth>)
    requires AsCreated(created, auths, sanitize) && SubMap(created, created') && UsesOk(a.tokens, created, passes)
    requires HandsOut(a, c, sanitize, ok, auth)
    ensures AsCreated(created', auths + [auth], sanitize)
  {
    var longer := auths + [auth];
    forall i | 0 <= i < |longer| && longer[i].Some?
      ensures longer[i].value.clientToken in created' &&
              longer[i].value.tokenPolicies == created'[longer[i].value.clientToken].policies &&
              longer[i].value.policies == sanitize(longer[i].value.tokenPolicies)
    {
      if i < |auths| {
        assert longer[i] == auths[i];
      }
    }
  }

  /**
    Authority only narrows where it is handed out: the policies of a successful check are
    among those of every ancestor without root, and so are the sanitised ones if
    sanitising adds nothing.
    */
  ghost predicate HandedNarrow(created: map<Id, TokenEntry>, auths: seq<Option<Auth>>) {
    forall i, line |
      0 <= i < |auths| && auths[i].Some? && IsLine(created, line) && line[0] == auths[i].value.clientToken
      && line[|line| - 1] in created && "root" !in created[line[|line| - 1]].policies ::
      var auth, ancestor := auths[i].value, created[line[|line| - 1]].policies;
      && IsSubset(auth.tokenPolicies, ancestor)
      && (IsSubset(auth.policies, auth.tokenPolicies) ==> IsSubset(auth.policies, ancestor))
  }

  lemma SoundAuths(created: map<Id, TokenEntry>, auths: seq<Option<Auth>>, sanitize: seq<string> -> seq<string>)
    requires Narrowed(created) && AsCreated(created, auths, sanitize)
    ensures HandedNarrow(created, auths)
  {
    forall i, line |
      0 <= i < |auths| && auths[i].Some? && IsLine(created, line) && line[0] == auths[i].value.clientToken
      && line[|line| - 1] in created && "root" !in created[line[|line| - 1]].policies
      ensures var auth, ancestor := auths[i].value, created[line[|line| - 1]].policies;
              && IsSubset(auth.tokenPolicies, ancestor)
              && (IsSubset(auth.policies, auth.tokenPolicies) ==> IsSubset(auth.policies, ancestor))
    {
      var auth, ancestor := auths[i].value, created[line[|line| - 1]].policies;
      hide IsLine, IsSubset;
      assert IsSubset(auth.tokenPolicies, ancestor);
      if IsSubset(auth.policies, auth.tokenPolicies) {
        SubsetsCompose(auth.policies, auth.tokenPolicies, ancestor);
      }
    }
  }

  lemma SubsetsCompose(a: seq<string>, b: seq<string>, c: seq<string>)
    requires IsSubset(a, b) && IsSubset(b, c)
    ensures IsSubset(a, c)
  {
    assert forall s | s in b :: s in c;
  }

  /** The calls that can take a token away, apart from its own last use. */
  predicate Removes(c: Call, ok: bool, t: Id) {
    match c
    case Check(x) => x == t && !ok
    case RevokeOne(x) => x == t
    case RevokeBelow(_) => true
    case RevokeLease(l) => l.TokenLease?
    case SweepAt(_) => true
    case _ => false
  }

  ghost predicate ChildCreated(a: Snap, c: Call, budget: nat, sanitize: seq<string> -> seq<string>, ok: bool, b: Snap)
    requires c.CreateChild?
  {
    && b.leases == a.leases && EntryWritten(a.parents, b.parents, c.clientToken, c.body, c.uuid, ok)
    && (if ok then
          && c.body.Some? && c.clientToken in a.tokens
          && var id := if c.body.value.id != "" then c.body.value.id else c.uuid;
             && id !in a.tokens && id in b.tokens && b.tokens == a.tokens[id := b.tokens[id]]
             && ProperChild(a.tokens[c.clientToken], c.clientToken, c.body.value, b.tokens[id])
        else
          b.tokens == a.tokens)
    && (budget >= 4 ==>
          (ok <==>
             && c.clientToken != "" && c.clientToken in a.tokens && c.body.Some?
             && Grantable(a.tokens[c.clientToken], c.body.value, sanitize, c.creation, c.now)))
  }

  /** How many storage calls suffice for any call, after n others. */
  function Need(n: nat): nat {
    EnoughToSweep(2 * n, n, n, n) + Enough(n, n, n) + 4 * n + 5
  }

  /** No more leases, ids and index entries than calls so far. */
  ghost predicate Sizes(owner: map<LeaseId, QueueKey>, clock: nat, parents: Edges, n: nat) {
    |owner| <= n && clock <= n && |parents| <= n
  }

  lemma SizesNext(owner: map<LeaseId, QueueKey>, owner': map<LeaseId, QueueKey>, clock: nat, clock': nat,
                  parents: Edges, parents': Edges, n: nat)
    requires Sizes(owner, clock, parents, n)
    requires |owner'| <= |owner| + 1 && clock' <= clock + 1 && |parents'| <= |parents| + 1
    ensures Sizes(owner', clock', parents', n + 1)
  {}

  lemma OneMoreOwner(owner: map<LeaseId, QueueKey>, l: LeaseId, k: QueueKey)
    ensures |owner[l := k]| <= |owner| + 1
  {
    assert owner[l := k].Keys == owner.Keys + {l};
  }

  lemma {:induction false} QueueInOwner(keys: set<QueueKey>, owner: map<LeaseId, QueueKey>)
    requires forall k | k in keys :: k.leaseId in owner && owner[k.leaseId] == k
    ensures |keys| <= |owner|
  {
    if keys != {} {
      var k :| k in keys;
      QueueInOwner(keys - {k}, owner - {k.leaseId});
      assert (owner - {k.leaseId}).Keys == owner.Keys - {k.leaseId};
    }
  }

  lemma {:induction false} IndexInOwner(index: set<(Id, LeaseId)>, owner: map<LeaseId, QueueKey>)
    requires forall i | i in index :: i.1 in owner && owner[i.1].clientToken == i.0
    ensures |index| <= |owner|
  {
    if index != {} {
      var i :| i in index;
      IndexInOwner(index - {i}, owner - {i.1});
      assert (owner - {i.1}).Keys == owner.Keys - {i.1};
    }
  }

  /** After n calls, what suffices in general suffices. */
  lemma NeedSuffices(leases: map<LeaseId, LeaseEntry>, index: set<(Id, LeaseId)>, owner: map<LeaseId, QueueKey>,
                     queue: map<QueueKey, nat>, clock: nat, parents: Edges, n: nat)
    requires LeasesOk(leases, index, owner) && QueueOk(leases, queue, owner) && Sizes(owner, clock, parents, n)
    ensures Need(n) >= 5 + 4 * |index|
    ensures forall h: nat | h <= clock :: Need(n) >= 3 + Enough(h, |parents|, |index|)
    ensures Need(n) >= EnoughToSweep(|leases| + |queue|, clock, |parents|, |index|)
  {
    hide LeasesOk, QueueOk, Need, Enough, EnoughToSweep;
    OwnerBounds(leases, index, owner, queue);
    NeedCovers(|leases| + |queue|, clock, |parents|, |index|, n);
  }

  lemma OwnerBounds(leases: map<LeaseId, LeaseEntry>, index: set<(Id, LeaseId)>, owner: map<LeaseId, QueueKey>,
                    queue: map<QueueKey, nat>)
    requires LeasesOk(leases, index, owner) && QueueOk(leases, queue, owner)
    ensures |leases| <= |owner| && |index| <= |owner| && |queue| <= |owner|
  {
    QueueInOwner(queue.Keys, owner);
    IndexInOwner(index, owner);
    assert leases.Keys <= owner.Keys;
    FewerSet(leases.Keys, owner.Keys);
  }

  lemma NeedCovers(entries: nat, clock: nat, p: nat, i: nat, n: nat)
    requires entries <= 2 * n && clock <= n && p <= n && i <= n
    ensures Need(n) >= 5 + 4 * i
    ensures forall h: nat | h <= clock :: Need(n) >= 3 + Enough(h, p, i)
    ensures Need(n) >= EnoughToSweep(entries, clock, p, i)
  {
    hide Enough;
    forall h: nat | h <= clock ensures Enough(h, p, i) <= Enough(n, n, n) {
      EnoughMonotone(h, p, i, n, n, n);
    }
    hide EnoughToSweep;
    SweepMonotone(entries, clock, p, i, n);
  }

  lemma SweepMonotone(entries: nat, clock: nat, p: nat, i: nat, n: nat)
    requires entries <= 2 * n && clock <= n && p <= n && i <= n
    ensures EnoughToSweep(entries, clock, p, i) <= EnoughToSweep(2 * n, n, n, n)
  {
    hide Enough;
    EnoughMonotone(clock, p, i, n, n, n);
    Product(entries, 2 * n, 3 + Enough(clock, p, i), 3 + Enough(n, n, n));
  }

  /** What revoking one lease does: the lease, and before it the tree of its token. */
  ghost predicate LeaseRevoked(a: Snap, l: LeaseId, ok: bool, b: Snap) {
    && SubMap(b.tokens, a.tokens) && SubMap(b.leases, a.leases)
    && Pruned(a.tokens.Keys, a.parents, b.tokens.Keys, b.parents)
    && (l.SecretLease? ==> b.tokens == a.tokens && b.parents == a.parents)
    && (forall x | x in a.tokens && x !in b.tokens :: l.TokenLease? && l in a.leases && Reach(a.parents, l.token, x))
    && (forall k | k in a.leases && k !in b.leases ::
          k == l || (k.SecretLease? && a.leases[k].clientToken in a.tokens.Keys - b.tokens.Keys))
    && (ok ==> l !in b.leases)
    && (l.TokenLease? && l in a.leases && l !in b.leases ==>
          Cleared(b.tokens.Keys, a.parents, l.token) && Thorough(a, b))
    && AlmostThorough(a, b)
  }

  lemma LeaseIsRevoked(a: Snap, m: Snap, b: Snap, l: LeaseId, ok: bool)
    requires LeaseTaken(m, b, l) && (ok ==> l !in b.leases)
    requires if l in a.leases && l.TokenLease? then TreeRevoked(a, m, l.token) && AlmostThorough(a, m) else m == a
    requires l in a.leases && l.TokenLease? && l !in b.leases ==> Thorough(a, m) && Cleared(m.tokens.Keys, a.parents, l.token)
    ensures LeaseRevoked(a, l, ok, b)
  {
    if l in a.leases && l.TokenLease? {
      TreeFacts(a, m, b, l);
    } else {
      TreeNothing(a, "");
      assert ThoroughExcept(a, b, "");
      assert forall x | x in a.tokens :: x in b.tokens;
    }
    hide Cleared, Reach, Thorough, AlmostThorough, QueueGrew;
  }

  ghost predicate BelowRevoked(a: Snap, t: Id, ok: bool, b: Snap) {
    && Pruned(a.tokens.Keys, a.parents, b.tokens.Keys, b.parents)
    && SubMap(b.tokens, a.tokens) && LeasesCut(a.leases, b.leases, a.tokens.Keys - b.tokens.Keys)
    && (forall x | x in a.tokens && x !in b.tokens :: Reach(a.parents, t, x))
    && (ok ==> forall x :: x in b.tokens <==> x in a.tokens && !Reach(a.parents, t, x))
    && (ok ==> forall x | x in a.tokens && x !in b.tokens :: NoSecrets(b.leases, x))
  }

  ghost predicate LeaseRenewed(a: Snap, c: Call, budget: nat, ok: bool, b: Snap)
    requires c.RenewLease?
  {
    && b.tokens == a.tokens && b.parents == a.parents
    && (ok <==>
          && budget >= 1 && c.l in a.leases && a.leases[c.l].renewable && c.now <= a.leases[c.l].expireTime
          && c.reply.Reply? && (c.l.SecretLease? ==> L.AsSecs(c.reply.ttl) > 0)
          && L.Ttl(L.MAX_LEASE_TTL, L.DEFAULT_LEASE_TTL, TermsOf(c.l, c.increment, c.reply),
                   a.leases[c.l].issueTime, c.calculated).Success?)
    && b.leases ==
       if ok then a.leases[c.l := RenewedLease(a.leases[c.l], c.increment, c.reply, c.calculated, c.renewed)]
       else a.leases
  }

  /** A sweep that read the clock n + 1 times. */
  ghost predicate SweepDone(a: Snap, clock: nat -> nat, n: nat, last: nat, latest: nat, ok: bool, b: Snap) {
    && Readings(clock, n, last, latest)
    && Swept(a, b, latest) && TreesGone(a, b) && AlmostThorough(a, b)
    && (!Overdue(a.queue, a.head, clock(0)) ==> b == a)
    && (ok && Overdue(a.queue, a.head, clock(0)) ==>
          && Thorough(a, b) && (forall l | l in b.leases :: !Due(b.leases[l], last))
          && (NeverBack(clock) ==> SweptExactly(a, b, last)))
  }

  /**
    What a call does to the stored state, and when it succeeds: budget is the number of its
    storage calls that do, and n the number of calls before it.
    */
  ghost predicate StepOf(a: Snap, c: Call, budget: nat, n: nat, sanitize: seq<string> -> seq<string>, ok: bool, b: Snap) {
    match c
    case CreateRoot(uuid) =>
      (budget >= 3 ==> ok) && b == if ok then a.(tokens := a.tokens[uuid := ROOT.(id := uuid)]) else a
    case CreateChild(_, _, _, _, _) => ChildCreated(a, c, budget, sanitize, ok, b)
    case Check(t) =>
      if t in a.tokens then
        && UseMade(a, b, t, ok) && (budget >= 2 && a.tokens[t].numUses != 1 ==> ok)
        && (budget >= Need(n) ==> ok)
      else
        !ok && b == a
    case RevokeOne(t) =>
      && OneRevoked(a, b, t) && (ok ==> t !in b.tokens && (t in a.tokens ==> NoSecrets(b.leases, t)))
      && (ok ==> TokenUnlisted(a, b, t))
      && (t != "" && budget >= Need(n) ==> ok)
    case RevokeBelow(t) => BelowRevoked(a, t, ok, b) && (t != "" && budget >= Need(n) ==> ok)
    case IssueSecret(path, clientToken, uuid, ttl, renewable, now, later) =>
      && (ok <==> SanePath(path) && budget >= 2) && b.tokens == a.tokens && b.parents == a.parents
      && var le := LeaseEntry(SecretLease(path, uuid), clientToken, path, renewable, now, SecretEnds(ttl, later));
         b.leases == if ok then a.leases[le.leaseId := le] else a.leases
    case IssueAuth(te, clientToken, ttl, renewable, now, later) =>
      && (ok <==>
            && (te.ttl != 0 || L.AsSecs(ttl) > 0 || te.policies == ["root"])
            && clientToken != "" && SanePath(te.path) && budget >= 1)
      && b.tokens == a.tokens && b.parents == a.parents
      && var le := LeaseEntry(TokenLease(te.path, clientToken), clientToken, te.path, renewable, now,
                              L.ExpirationTime(ttl, later));
         b.leases == if ok then a.leases[le.leaseId := le] else a.leases
    case RenewLease(_, _, _, _, _, _) => LeaseRenewed(a, c, budget, ok, b)
    case RevokeLease(l) => LeaseRevoked(a, l, ok, b) && (SanePath(l.path) && budget >= Need(n) ==> ok)
    case SweepAt(clock) =>
      && (exists rounds, last, latest :: SweepDone(a, clock, rounds, last, latest, ok, b))
      && (budget >= Need(n) ==> ok)
    case Restart =>
      b.tokens == a.tokens && b.parents == a.parents && b.leases == a.leases && Restored(b.leases, b.queue, b.leases.Keys)
  }

  /** A token goes by its last use, or by a call that can take it away. */
  lemma StepGone(a: Snap, c: Call, budget: nat, n: nat, sanitize: seq<string> -> seq<string>, ok: bool, b: Snap,
                t: Id)
    requires StepOf(a, c, budget, n, sanitize, ok, b) && t in a.tokens && t !in b.tokens
    ensures Removes(c, ok, t) || (c == Check(t) && ok && a.tokens[t].numUses == 1)
  {
    hide SweepDone, LeasesCut, QueueGrew, Reach, NoSecrets, ProperChild, Grantable, L.Ttl, SanePath, Restored;
    hide Pruned, Cleared, Thorough, AlmostThorough, EntryWritten, Need;
  }

  // ---- The calls.

  lemma CheckIsStep(a: Snap, b: Snap, t: Id, budget: nat, n: nat, sanitize: seq<string> -> seq<string>, ok: bool)
    requires if t in a.tokens then
               && UseMade(a, b, t, ok) && (budget >= 2 && a.tokens[t].numUses != 1 ==> ok)
               && (budget >= Need(n) ==> ok)
             else
               !ok && b == a
    ensures StepOf(a, Check(t), budget, n, sanitize, ok, b)
  {}

  lemma RevokeOneIsStep(a: Snap, b: Snap, t: Id, budget: nat, n: nat, sanitize: seq<string> -> seq<string>, ok: bool)
    requires OneRevoked(a, b, t) && (ok ==> t !in b.tokens && (t in a.tokens ==> NoSecrets(b.leases, t)))
    requires ok ==> TokenUnlisted(a, b, t)
    requires t != "" && budget >= Need(n) ==> ok
    ensures StepOf(a, RevokeOne(t), budget, n, sanitize, ok, b)
  {}

  lemma RevokeBelowIsStep(a: Snap, b: Snap, t: Id, budget: nat, n: nat, sanitize: seq<string> -> seq<string>, ok: bool)
    requires BelowRevoked(a, t, ok, b) && (t != "" && budget >= Need(n) ==> ok)
    ensures StepOf(a, RevokeBelow(t), budget, n, sanitize, ok, b)
  {}

  lemma IssueIsStep(a: Snap, b: Snap, c: Call, le: LeaseEntry, budget: nat, n: nat, sanitize: seq<string> -> seq<string>,
                    ok: bool)
    requires match c
             case IssueSecret(path, clientToken, uuid, ttl, renewable, now, later) =>
               && (ok <==> SanePath(path) && budget >= 2)
               && le == LeaseEntry(SecretLease(path, uuid), clientToken, path, renewable, now, SecretEnds(ttl, later))
             case IssueAuth(te, clientToken, ttl, renewable, now, later) =>
               && (ok <==>
                     && (te.ttl != 0 || L.AsSecs(ttl) > 0 || te.policies == ["root"])
                     && clientToken != "" && SanePath(te.path) && budget >= 1)
               && le == LeaseEntry(TokenLease(te.path, clientToken), clientToken, te.path, renewable, now,
                                   L.ExpirationTime(ttl, later))
             case _ => false
    requires b.tokens == a.tokens && b.parents == a.parents
    requires b.leases == if ok then a.leases[le.leaseId := le] else a.leases
    ensures StepOf(a, c, budget, n, sanitize, ok, b)
  {}

  lemma RenewalIsStep(a: Snap, b: Snap, c: Call, budget: nat, n: nat, sanitize: seq<string> -> seq<string>, ok: bool)
    requires c.RenewLease? && LeaseRenewed(a, c, budget, ok, b)
    ensures StepOf(a, c, budget, n, sanitize, ok, b)
  {}

  lemma RevocationIsStep(a: Snap, b: Snap, l: LeaseId, budget: nat, n: nat, sanitize: seq<string> -> seq<string>, ok: bool)
    requires LeaseRevoked(a, l, ok, b) && (SanePath(l.path) && budget >= Need(n) ==> ok)
    ensures StepOf(a, RevokeLease(l), budget, n, sanitize, ok, b)
  {}

  lemma SweepIsStep(a: Snap, b: Snap, clock: nat -> nat, rounds: nat, last: nat, latest: nat, budget: nat, n: nat,
                    sanitize: seq<string> -> seq<string>, ok: bool)
    requires SweepDone(a, clock, rounds, last, latest, ok, b) && (budget >= Need(n) ==> ok)
    ensures StepOf(a, SweepAt(clock), budget, n, sanitize, ok, b)
  {}

  lemma RestartIsStep(a: Snap, b: Snap, budget: nat, n: nat, sanitize: seq<string> -> seq<string>, ok: bool)
    requires b.tokens == a.tokens && b.parents == a.parents && b.leases == a.leases
    requires Restored(b.leases, b.queue, b.leases.Keys)
    ensures StepOf(a, Restart, budget, n, sanitize, ok, b)
  {}

  lemma RootIsStep(a: Snap, b: Snap, uuid: Id, budget: nat, n: nat, sanitize: seq<string> -> seq<string>, ok: bool)
    requires (budget >= 3 ==> ok) && b == if ok then a.(tokens := a.tokens[uuid := ROOT.(id := uuid)]) else a
    ensures StepOf(a, CreateRoot(uuid), budget, n, sanitize, ok, b)
  {}

  lemma ChildIsStep(a: Snap, b: Snap, c: Call, budget: nat, n: nat, sanitize: seq<string> -> seq<string>, ok: bool)
    requires c.CreateChild? && ChildCreated(a, c, budget, sanitize, ok, b)
    ensures StepOf(a, c, budget, n, sanitize, ok, b)
  {}

  lemma UseKeepsLeases(a: Snap, b: Snap, t: Id, ok: bool)
    requires if t in a.tokens then UseMade(a, b, t, ok) else b == a
    ensures SubMap(b.leases, a.leases) && b.parents <= a.parents
  {}

  lemma CutLeases(leases: map<LeaseId, LeaseEntry>, leases': map<LeaseId, LeaseEntry>, gone: set<Id>)
    requires LeasesCut(leases, leases', gone)
    ensures SubMap(leases', leases)
  {}

  lemma SweptLeases(a: Snap, b: Snap, now: nat)
    requires Swept(a, b, now)
    ensures SubMap(b.leases, a.leases) && b.parents <= a.parents
  {
    PrunedEdges(a, b);
  }

  lemma EntryBound(parents: Edges, parents': Edges, clientToken: Id, body: Option<CreateData>, uuid: Id, ok: bool, id: Id)
    requires EntryWritten(parents, parents', clientToken, body, uuid, ok)
    requires id == if body.Some? && body.value.id != "" then body.value.id else uuid
    ensures parents' <= parents + {(clientToken, id)}
  {}

  lemma RevokedLeases(a: Snap, b: Snap, s: Id)
    requires OneRevoked(a, b, s)
    ensures SubMap(b.leases, a.leases) && b.parents <= a.parents
  {}

  lemma TakenUses(a: Snap, m: Snap, b: Snap, l: LeaseId, created: map<Id, TokenEntry>, passes: map<Id, nat>)
    requires m == a || (l.TokenLease? && TreeRevoked(a, m, l.token))
    requires LeaseTaken(m, b, l) && UsesOk(a.tokens, created, passes)
    ensures UsesOk(b.tokens, created, passes) && SubMap(b.leases, a.leases)
  {
    hide UsesOk, Pruned;
    UsesShrink(a.tokens, b.tokens, created, passes);
  }

  lemma PassesOfCreated(tokens: map<Id, TokenEntry>, created: map<Id, TokenEntry>, passes: map<Id, nat>)
    requires UsesOk(tokens, created, passes)
    ensures passes.Keys == created.Keys
  {}

  /** The root token is named by its policy, has no parent and does not expire. */
  lemma RootMeans()
    ensures ROOT.policies == ["root"] && ROOT.parent == "" && ROOT.path == "auth/token/root"
    ensures ROOT.numUses == 0 && ROOT.ttl == 0 && ROOT.period == 0 && ROOT.explicitMaxTtl == 0
  {}

  /** What `root_token` asks to create. */
  const ROOT: TokenEntry := TokenEntry("", "", ["root"], "auth/token/root", 0, 0, 0, 0)

  method PerformRoot(s: TokenStore, c: Call, ghost sanitize: seq<string> -> seq<string>, ghost seen: set<string>,
                 ghost n: nat)
    returns (ok: bool)
    requires c.CreateRoot?
    requires Sound(s) && MetOnly(s.rank, s.owner, seen) && Sizes(s.owner, s.clock, s.parents, n)
    requires ClockOk(c) && "" !in NewIds(c) && NewIds(c) !! seen
    modifies s
    ensures Sound(s) && MetOnly(s.rank, s.owner, seen + NewIds(c))
    ensures StepOf(old(s.Now()), c, old(s.budget), n, sanitize, ok, s.Now())
    ensures s.owner == old(s.owner) && s.clock <= old(s.clock) + 1 && |s.parents| <= |old(s.parents)| + 1
    ensures forall t :: Uses(s.passes, t) == Uses(old(s.passes), t)
    ensures s.leases == old(s.leases) && SubMap(old(s.created), s.created)
    ensures forall t | t in s.created && t !in old(s.created) :: t in s.tokens
  {
    hide ForestOk, Listed, LeasesOk, QueueOk, HeadOk, LineageOk, UsesOk, NarrowOk, EdgesOk, MetOnly, Sizes, StepOf;
    PassesOfCreated(s.tokens, s.created, s.passes);
    NoEmptyId(s.tokens, s.parents);
    NewIdsAreNew(s.rank, s.owner, seen, c);
    var r := s.Create(ROOT, c.uuid);
    ok := r.Success?;
    MetMore(old(s.rank), s.rank, s.owner, seen, NewIds(c));
    RootIsStep(old(s.Now()), s.Now(), c.uuid, old(s.budget), n, sanitize, ok);
  }

  method PerformChild(s: TokenStore, c: Call, sanitize: seq<string> -> seq<string>, ghost seen: set<string>,
                 ghost n: nat)
    returns (ok: bool)
    requires c.CreateChild?
    requires Sound(s) && MetOnly(s.rank, s.owner, seen) && Sizes(s.owner, s.clock, s.parents, n)
    requires ClockOk(c) && "" !in NewIds(c) && NewIds(c) !! seen
    modifies s
    ensures Sound(s) && MetOnly(s.rank, s.owner, seen + NewIds(c))
    ensures StepOf(old(s.Now()), c, old(s.budget), n, sanitize, ok, s.Now())
    ensures s.owner == old(s.owner) && s.clock <= old(s.clock) + 1 && |s.parents| <= |old(s.parents)| + 1
    ensures forall t :: Uses(s.passes, t) == Uses(old(s.passes), t)
    ensures s.leases == old(s.leases) && SubMap(old(s.created), s.created)
    ensures forall t | t in s.created && t !in old(s.created) :: t in s.tokens
  {
    hide ForestOk, Listed, LeasesOk, QueueOk, HeadOk, LineageOk, UsesOk, NarrowOk, EdgesOk, MetOnly, Sizes, StepOf;
    hide ProperChild, Grantable, CreatedTtl, EntryWritten;
    PassesOfCreated(s.tokens, s.created, s.passes);
    NoEmptyId(s.tokens, s.parents);
    NewIdsAreNew(s.rank, s.owner, seen, c);
    ghost var id := if c.body.Some? && c.body.value.id != "" then c.body.value.id else c.uuid;
    var r := s.HandleCreate(c.clientToken, c.body, sanitize, c.uuid, c.creation, c.now);
    ok := r.Success?;
    MetMore(old(s.rank), s.rank, s.owner, seen, NewIds(c));
    EntryBound(old(s.parents), s.parents, c.clientToken, c.body, c.uuid, ok, id);
    FewerSet(s.parents, old(s.parents) + {(c.clientToken, id)});
    ChildIsStep(old(s.Now()), s.Now(), c, old(s.budget), n, sanitize, ok);
  }

  lemma NewIdsAreNew(rank: map<Id, nat>, owner: map<LeaseId, QueueKey>, seen: set<string>, c: Call)
    requires MetOnly(rank, owner, seen) && NewIds(c) !! seen
    ensures "" !in rank && forall x | x in NewIds(c) :: x !in rank
  {}

  method PerformCheck(s: TokenStore, c: Call, sanitize: seq<string> -> seq<string>, ghost seen: set<string>,
                 ghost n: nat)
    returns (ok: bool, auth: Option<Auth>)
    requires c.Check?
    requires Sound(s) && MetOnly(s.rank, s.owner, seen) && Sizes(s.owner, s.clock, s.parents, n)
    requires ClockOk(c) && "" !in NewIds(c) && NewIds(c) !! seen
    modifies s
    ensures Sound(s) && MetOnly(s.rank, s.owner, seen + NewIds(c))
    ensures HandsOut(old(s.Now()), c, sanitize, ok, auth)
    ensures StepOf(old(s.Now()), c, old(s.budget), n, sanitize, ok, s.Now())
    ensures s.owner == old(s.owner) && s.clock == old(s.clock) && s.parents <= old(s.parents)
    ensures forall t :: Uses(s.passes, t) == Uses(old(s.passes), t) + if c == Check(t) && ok then 1 else 0
    ensures SubMap(s.leases, old(s.leases)) && s.created == old(s.created)
  {
    hide ForestOk, Listed, LeasesOk, QueueOk, HeadOk, LineageOk, UsesOk, NarrowOk, EdgesOk, MetOnly, Sizes, StepOf;
    hide NewIds;
    hide UseMade, SubMap, Need, Enough, EnoughToSweep;
    NeedSuffices(s.leases, s.index, s.owner, s.queue, s.clock, s.parents, n);
    MetStay(s.rank, s.owner, seen, NewIds(c));
    ghost var a := s.Now();
    var r := s.CheckToken(c.token, sanitize);
    ok := r.Success?;
    auth := if ok then Some(r.value) else None;
    UseKeepsLeases(a, s.Now(), c.token, ok);
    CheckIsStep(a, s.Now(), c.token, old(s.budget), n, sanitize, ok);
  }

  method PerformRevokeOne(s: TokenStore, c: Call, ghost sanitize: seq<string> -> seq<string>, ghost seen: set<string>,
                 ghost n: nat)
    returns (ok: bool)
    requires c.RevokeOne?
    requires Sound(s) && MetOnly(s.rank, s.owner, seen) && Sizes(s.owner, s.clock, s.parents, n)
    requires ClockOk(c) && "" !in NewIds(c) && NewIds(c) !! seen
    modifies s
    ensures Sound(s) && MetOnly(s.rank, s.owner, seen + NewIds(c))
    ensures StepOf(old(s.Now()), c, old(s.budget), n, sanitize, ok, s.Now())
    ensures s.owner == old(s.owner) && s.clock == old(s.clock) && s.parents <= old(s.parents)
    ensures forall t :: Uses(s.passes, t) == Uses(old(s.passes), t) + if c == Check(t) && ok then 1 else 0
    ensures SubMap(s.leases, old(s.leases)) && s.created == old(s.created)
  {
    hide ForestOk, Listed, LeasesOk, QueueOk, HeadOk, LineageOk, UsesOk, NarrowOk, EdgesOk, MetOnly, Sizes, StepOf;
    hide NewIds;
    hide OneRevoked, SubMap, NoSecrets, Need, Enough, EnoughToSweep, TokenUnlisted, SecretsDropped;
    NeedSuffices(s.leases, s.index, s.owner, s.queue, s.clock, s.parents, n);
    MetStay(s.rank, s.owner, seen, NewIds(c));
    ghost var a := s.Now();
    var r := s.Revoke(c.token);
    ok := r.Success?;
    RevokedLeases(a, s.Now(), c.token);
    RevokeOneIsStep(a, s.Now(), c.token, old(s.budget), n, sanitize, ok);
  }

  method PerformRevokeBelow(s: TokenStore, c: Call, ghost sanitize: seq<string> -> seq<string>, ghost seen: set<string>,
                 ghost n: nat)
    returns (ok: bool)
    requires c.RevokeBelow?
    requires Sound(s) && MetOnly(s.rank, s.owner, seen) && Sizes(s.owner, s.clock, s.parents, n)
    requires ClockOk(c) && "" !in NewIds(c) && NewIds(c) !! seen
    modifies s
    ensures Sound(s) && MetOnly(s.rank, s.owner, seen + NewIds(c))
    ensures StepOf(old(s.Now()), c, old(s.budget), n, sanitize, ok, s.Now())
    ensures s.owner == old(s.owner) && s.clock == old(s.clock) && s.parents <= old(s.parents)
    ensures forall t :: Uses(s.passes, t) == Uses(old(s.passes), t) + if c == Check(t) && ok then 1 else 0
    ensures SubMap(s.leases, old(s.leases)) && s.created == old(s.created)
  {
    hide ForestOk, Listed, LeasesOk, QueueOk, HeadOk, LineageOk, UsesOk, NarrowOk, EdgesOk, MetOnly, Sizes, StepOf;
    hide NewIds;
    hide LeasesCut, Pruned, AlmostThorough, StopsShort, NothingThere, Reach, SubMap, NoSecrets, Descends;
    hide Need, Enough, EnoughToSweep;
    NeedSuffices(s.leases, s.index, s.owner, s.queue, s.clock, s.parents, n);
    MetStay(s.rank, s.owner, seen, NewIds(c));
    ghost var a := s.Now();
    var r := s.RevokeTreeOf(c.token);
    ok := r.Success?;
    CutLeases(a.leases, s.leases, a.tokens.Keys - s.tokens.Keys);
    PrunedEdges(a, s.Now());
    RevokeBelowIsStep(a, s.Now(), c.token, old(s.budget), n, sanitize, ok);
  }

  method PerformSecret(s: TokenStore, c: Call, ghost sanitize: seq<string> -> seq<string>, ghost seen: set<string>,
                 ghost n: nat)
    returns (ok: bool)
    requires c.IssueSecret?
    requires Sound(s) && MetOnly(s.rank, s.owner, seen) && Sizes(s.owner, s.clock, s.parents, n)
    requires ClockOk(c) && "" !in NewIds(c) && NewIds(c) !! seen
    modifies s
    ensures Sound(s) && MetOnly(s.rank, s.owner, seen + NewIds(c))
    ensures StepOf(old(s.Now()), c, old(s.budget), n, sanitize, ok, s.Now())
    ensures |s.owner| <= |old(s.owner)| + 1 && s.clock == old(s.clock) && s.parents == old(s.parents)
    ensures s.passes == old(s.passes) && s.created == old(s.created) && StepEnds(old(s.leases), s.leases, c)
  {
    hide ForestOk, Listed, LeasesOk, QueueOk, HeadOk, LineageOk, UsesOk, NarrowOk, EdgesOk, MetOnly, Sizes, StepOf;
    hide NewIds;
    hide SanePath, StepEnds, L.Floor, SecretEnds;
    SecretIds(c);
    var l := SecretLease(c.path, c.uuid);
    ghost var k := QueueKey(l, c.clientToken, c.path);
    ghost var le := LeaseEntry(l, c.clientToken, c.path, c.renewable, c.now, SecretEnds(c.ttl, c.later));
    MetLease(s.rank, s.owner, seen, NewIds(c), l, k);
    MetStay(s.rank, s.owner, seen, NewIds(c));
    OneMoreOwner(s.owner, l, k);
    IssueEnds(s.leases, c, le);
    ok := s.RegisterSecret(c.path, c.clientToken, c.uuid, c.ttl, c.renewable, c.now, c.later);
    IssueIsStep(old(s.Now()), s.Now(), c, le, old(s.budget), n, sanitize, ok);
  }

  method PerformAuth(s: TokenStore, c: Call, ghost sanitize: seq<string> -> seq<string>, ghost seen: set<string>,
                 ghost n: nat)
    returns (ok: bool)
    requires c.IssueAuth?
    requires Sound(s) && MetOnly(s.rank, s.owner, seen) && Sizes(s.owner, s.clock, s.parents, n)
    requires ClockOk(c) && "" !in NewIds(c) && NewIds(c) !! seen
    modifies s
    ensures Sound(s) && MetOnly(s.rank, s.owner, seen + NewIds(c))
    ensures StepOf(old(s.Now()), c, old(s.budget), n, sanitize, ok, s.Now())
    ensures |s.owner| <= |old(s.owner)| + 1 && s.clock == old(s.clock) && s.parents == old(s.parents)
    ensures s.passes == old(s.passes) && s.created == old(s.created) && StepEnds(old(s.leases), s.leases, c)
  {
    hide ForestOk, Listed, LeasesOk, QueueOk, HeadOk, LineageOk, UsesOk, NarrowOk, EdgesOk, MetOnly, Sizes, StepOf;
    hide NewIds;
    hide SanePath, StepEnds, L.Floor, L.ExpirationTime;
    var l := TokenLease(c.te.path, c.clientToken);
    ghost var k := QueueKey(l, c.clientToken, c.te.path);
    ghost var le := LeaseEntry(l, c.clientToken, c.te.path, c.renewable, c.now, L.ExpirationTime(c.ttl, c.later));
    MetLease(s.rank, s.owner, seen, NewIds(c), l, k);
    MetStay(s.rank, s.owner, seen, NewIds(c));
    OneMoreOwner(s.owner, l, k);
    IssueEnds(s.leases, c, le);
    var r := s.RegisterAuth(c.te, c.clientToken, c.ttl, c.renewable, c.now, c.later);
    ok := r.Success?;
    IssueIsStep(old(s.Now()), s.Now(), c, le, old(s.budget), n, sanitize, ok);
  }

  method PerformRenewal(s: TokenStore, c: Call, ghost sanitize: seq<string> -> seq<string>, ghost seen: set<string>,
                 ghost n: nat)
    returns (ok: bool)
    requires c.RenewLease?
    requires Sound(s) && MetOnly(s.rank, s.owner, seen) && Sizes(s.owner, s.clock, s.parents, n)
    requires ClockOk(c) && "" !in NewIds(c) && NewIds(c) !! seen
    modifies s
    ensures Sound(s) && MetOnly(s.rank, s.owner, seen + NewIds(c))
    ensures StepOf(old(s.Now()), c, old(s.budget), n, sanitize, ok, s.Now())
    ensures s.owner == old(s.owner) && s.clock == old(s.clock) && s.parents == old(s.parents)
    ensures s.passes == old(s.passes) && s.created == old(s.created) && StepEnds(old(s.leases), s.leases, c)
  {
    hide ForestOk, Listed, LeasesOk, QueueOk, HeadOk, LineageOk, UsesOk, NarrowOk, EdgesOk, MetOnly, Sizes, StepOf;
    hide NewIds;
    hide SanePath, StepEnds, RenewedLease, L.Ttl;
    MetStay(s.rank, s.owner, seen, NewIds(c));
    NoChangeEnds(s.leases, c);
    if c.l in s.leases && c.reply.Reply? {
      LeaseFacts(s.leases, s.index, s.owner, c.l);
      RenewalEnds(s.leases, c);
    }
    var r := s.Renew(c.l, c.increment, c.reply, c.now, c.calculated, c.renewed);
    ok := r == Success(true);
    RenewalIsStep(old(s.Now()), s.Now(), c, old(s.budget), n, sanitize, ok);
  }

  lemma NoChangeEnds(leases: map<LeaseId, LeaseEntry>, c: Call)
    ensures StepEnds(leases, leases, c)
  {
    hide CallWithin, Ends;
  }

  method PerformRevocation(s: TokenStore, c: Call, ghost sanitize: seq<string> -> seq<string>, ghost seen: set<string>,
                 ghost n: nat)
    returns (ok: bool)
    requires c.RevokeLease?
    requires Sound(s) && MetOnly(s.rank, s.owner, seen) && Sizes(s.owner, s.clock, s.parents, n)
    requires ClockOk(c) && "" !in NewIds(c) && NewIds(c) !! seen
    modifies s
    ensures Sound(s) && MetOnly(s.rank, s.owner, seen + NewIds(c))
    ensures StepOf(old(s.Now()), c, old(s.budget), n, sanitize, ok, s.Now())
    ensures s.owner == old(s.owner) && s.clock == old(s.clock) && s.parents <= old(s.parents)
    ensures s.passes == old(s.passes) && s.created == old(s.created) && StepEnds(old(s.leases), s.leases, c)
  {
    hide ForestOk, Listed, LeasesOk, QueueOk, HeadOk, LineageOk, UsesOk, NarrowOk, EdgesOk, MetOnly, Sizes, StepOf;
    hide NewIds;
    hide SanePath, StepEnds, TreeRevoked, LeaseTaken, Thorough, AlmostThorough, Cleared, SubMap, LeaseRevoked;
    hide Need, Enough, EnoughToSweep;
    NeedSuffices(s.leases, s.index, s.owner, s.queue, s.clock, s.parents, n);
    MetStay(s.rank, s.owner, seen, NewIds(c));
    ghost var a, m := s.Now(), s.Now();
    ok, m := s.RevokeLeaseId(c.l, true);
    TakenUses(a, m, s.Now(), c.l, s.created, s.passes);
    EdgesShrink(a.parents, s.parents, s.created);
    ShrinkEnds(a.leases, s.leases, c);
    LeaseIsRevoked(a, m, s.Now(), c.l, ok);
    RevocationIsStep(a, s.Now(), c.l, old(s.budget), n, sanitize, ok);
  }

  method PerformSweep(s: TokenStore, c: Call, ghost sanitize: seq<string> -> seq<string>, ghost seen: set<string>,
                 ghost n: nat)
    returns (ok: bool)
    requires c.SweepAt?
    requires Sound(s) && MetOnly(s.rank, s.owner, seen) && Sizes(s.owner, s.clock, s.parents, n)
    requires ClockOk(c) && "" !in NewIds(c) && NewIds(c) !! seen
    modifies s
    ensures Sound(s) && MetOnly(s.rank, s.owner, seen + NewIds(c))
    ensures StepOf(old(s.Now()), c, old(s.budget), n, sanitize, ok, s.Now())
    ensures s.owner == old(s.owner) && s.clock == old(s.clock) && s.parents <= old(s.parents)
    ensures s.passes == old(s.passes) && s.created == old(s.created) && StepEnds(old(s.leases), s.leases, c)
  {
    hide ForestOk, Listed, LeasesOk, QueueOk, HeadOk, LineageOk, UsesOk, NarrowOk, EdgesOk, MetOnly, Sizes, StepOf;
    hide NewIds;
    hide StepEnds, Swept, Overdue, Due, SubMap, NeverBack, SweptExactly, TreesGone, AlmostThorough, Thorough, Cleared;
    hide Readings, Need, Enough, EnoughToSweep;
    NeedSuffices(s.leases, s.index, s.owner, s.queue, s.clock, s.parents, n);
    MetStay(s.rank, s.owner, seen, NewIds(c));
    ghost var a := s.Now();
    ghost var rounds, last, latest;
    ok, rounds, last, latest := s.Sweep(c.clock);
    SweptLeases(a, s.Now(), latest);
    ShrinkEnds(a.leases, s.leases, c);
    SweepIsStep(a, s.Now(), c.clock, rounds, last, latest, old(s.budget), n, sanitize, ok);
  }

  method PerformRestart(s: TokenStore, c: Call, ghost sanitize: seq<string> -> seq<string>, ghost seen: set<string>,
                 ghost n: nat)
    returns (ok: bool)
    requires c.Restart?
    requires Sound(s) && MetOnly(s.rank, s.owner, seen) && Sizes(s.owner, s.clock, s.parents, n)
    requires ClockOk(c) && "" !in NewIds(c) && NewIds(c) !! seen
    modifies s
    ensures Sound(s) && MetOnly(s.rank, s.owner, seen + NewIds(c))
    ensures StepOf(old(s.Now()), c, old(s.budget), n, sanitize, ok, s.Now())
    ensures s.owner == old(s.owner) && s.clock == old(s.clock) && s.parents == old(s.parents)
    ensures s.passes == old(s.passes) && s.created == old(s.created) && StepEnds(old(s.leases), s.leases, c)
  {
    hide ForestOk, Listed, LeasesOk, QueueOk, HeadOk, LineageOk, UsesOk, NarrowOk, EdgesOk, MetOnly, Sizes, StepOf;
    hide NewIds;
    hide StepEnds, Restored;
    MetStay(s.rank, s.owner, seen, NewIds(c));
    NoChangeEnds(s.leases, c);
    s.Allow(|s.leases| + 1);
    ghost var done;
    ok, done := s.StopThenRestore();
    RestartIsStep(old(s.Now()), s.Now(), old(s.budget), n, sanitize, ok);
  }

  /** However far down, a token has no more than its ancestors have. */
  ghost predicate Narrowed(created: map<Id, TokenEntry>) {
    forall line | IsLine(created, line) && line[|line| - 1] in created ::
      var descendant, ancestor := created[line[0]], created[line[|line| - 1]];
      && ("root" !in ancestor.policies ==> IsSubset(descendant.policies, ancestor.policies))
      && (descendant.ttl == 0 ==> ancestor.ttl == 0)
      && (|line| > 1 ==> ancestor.numUses == 0)
  }

  /** Every stored lease that expires has exactly one queue entry, at the millisecond of its expiry. */
  ghost predicate Queued(leases: map<LeaseId, LeaseEntry>, queue: map<QueueKey, nat>) {
    forall l | l in leases && leases[l].expireTime != 0 ::
      && KeyOf(leases[l]) in queue && InMillisecond(leases[l].expireTime, queue[KeyOf(leases[l])])
      && forall k | k in queue && k.leaseId == l :: k == KeyOf(leases[l])
  }

  ghost predicate InMillisecond(instant: nat, n: nat) {
    n * 1_000_000 <= instant < (n + 1) * 1_000_000
  }

  lemma SoundQueue(leases: map<LeaseId, LeaseEntry>, index: set<(Id, LeaseId)>, owner: map<LeaseId, QueueKey>,
                   queue: map<QueueKey, nat>)
    requires LeasesOk(leases, index, owner) && QueueOk(leases, queue, owner)
    ensures Queued(leases, queue)
  {
    forall l | l in leases ensures InMillisecond(leases[l].expireTime, Priority(leases[l].expireTime)) {
      PriorityMeans(leases[l].expireTime, 0);
    }
    hide InMillisecond, Priority;
  }

  lemma SoundLineage(created: map<Id, TokenEntry>, rank: map<Id, nat>, clock: nat)
    requires LineageOk(created, rank, clock) && NarrowOk(created)
    ensures Narrowed(created)
  {
    hide LineageOk, NarrowOk, IsSubset;
    forall line | IsLine(created, line) && line[|line| - 1] in created
      ensures var descendant, ancestor := created[line[0]], created[line[|line| - 1]];
              && ("root" !in ancestor.policies ==> IsSubset(descendant.policies, ancestor.policies))
              && (descendant.ttl == 0 ==> ancestor.ttl == 0)
              && (|line| > 1 ==> ancestor.numUses == 0)
    {
      AuthorityNarrows(created, rank, clock, line);
    }
  }

  /** A call of the run took the token away. */
  ghost predicate Removed(trace: seq<Snap>, calls: seq<Call>, outcomes: seq<bool>, t: Id)
    requires |calls| == |outcomes| && |trace| == |calls| + 1
  {
    exists i :: 0 <= i < |calls| && TookAway(trace[i], calls[i], outcomes[i], trace[i + 1], t)
  }

  ghost predicate TookAway(a: Snap, c: Call, ok: bool, b: Snap, t: Id) {
    t in a.tokens && t !in b.tokens && Removes(c, ok, t)
  }

  /**
    The uses that a token is granted are the uses it gets: a stored limited token has
    passed as often as uses are missing, no token passes more often than it may, and a
    token that is gone has used them all up, or a call of the run took it away.
    */
  ghost predicate UsesAddUp(tokens: map<Id, TokenEntry>, created: map<Id, TokenEntry>, trace: seq<Snap>,
                            calls: seq<Call>, outcomes: seq<bool>)
    requires |calls| == |outcomes| && |trace| == |calls| + 1
  {
    && (forall t | t in tokens :: t in created && (created[t].numUses == 0 ==> tokens[t].numUses == 0))
    && (forall t | t in created && created[t].numUses > 0 ::
          && Passed(calls, outcomes, t) <= created[t].numUses
          && (t in tokens ==> tokens[t].numUses == created[t].numUses - Passed(calls, outcomes, t) > 0))
    && Gone(tokens, created, trace, calls, outcomes)
  }

  ghost predicate Gone(tokens: map<Id, TokenEntry>, created: map<Id, TokenEntry>, trace: seq<Snap>, calls: seq<Call>,
                       outcomes: seq<bool>)
    requires |calls| == |outcomes| && |trace| == |calls| + 1
  {
    forall t | t in created && t !in tokens ::
      Removed(trace, calls, outcomes, t) || (created[t].numUses > 0 && Passed(calls, outcomes, t) == created[t].numUses)
  }

  lemma SoundUses(tokens: map<Id, TokenEntry>, created: map<Id, TokenEntry>, passes: map<Id, nat>, trace: seq<Snap>,
                  calls: seq<Call>, outcomes: seq<bool>)
    requires |calls| == |outcomes| && |trace| == |calls| + 1
    requires UsesOk(tokens, created, passes) && Gone(tokens, created, trace, calls, outcomes)
    requires forall t :: Uses(passes, t) == Passed(calls, outcomes, t)
    ensures UsesAddUp(tokens, created, trace, calls, outcomes)
  {
    hide Gone, Passed;
    forall t | t in created ensures passes[t] == Passed(calls, outcomes, t) {
      assert Uses(passes, t) == passes[t];
    }
  }

  /** One more call, and the tokens that are gone after it. */
  lemma GoneStep(trace: seq<Snap>, b: Snap, created: map<Id, TokenEntry>, created': map<Id, TokenEntry>,
                 passes: map<Id, nat>, calls: seq<Call>, outcomes: seq<bool>, i: nat, ok: bool, budget: nat,
                 sanitize: seq<string> -> seq<string>)
    requires i < |calls| && |outcomes| == i && |trace| == i + 1
    requires Gone(trace[i].tokens, created, trace, calls[..i], outcomes)
    requires StepOf(trace[i], calls[i], budget, i, sanitize, ok, b) && UsesOk(trace[i].tokens, created, passes)
    requires SubMap(created, created') && forall t | t in created' && t !in created :: t in b.tokens
    requires forall t :: Uses(passes, t) == Passed(calls[..i], outcomes, t)
    ensures Gone(b.tokens, created', trace + [b], calls[..i + 1], outcomes + [ok])
  {
    hide StepOf, Passed, Seen, UsesOk, Removed, SubMap;
    var a := trace[i];
    var trace', calls', outcomes' := trace + [b], calls[..i + 1], outcomes + [ok];
    forall t | t in created' && t !in b.tokens
      ensures Removed(trace', calls', outcomes', t) ||
              (created'[t].numUses > 0 && Passed(calls', outcomes', t) == created'[t].numUses)
    {
      InSubMap(created, created', t);
      if t in a.tokens {
        GoneNow(trace, b, created, passes, calls, outcomes, i, ok, budget, sanitize, t);
      } else {
        OnlyStoredPass(a, calls[i], budget, i, sanitize, ok, b, t);
        RemovedBefore(trace, b, calls, outcomes, i, ok, t);
        PassedLonger(calls, outcomes, i, ok, t);
      }
    }
  }

  lemma InSubMap<K, V>(m: map<K, V>, n: map<K, V>, k: K)
    requires SubMap(m, n)
    ensures k in m ==> k in n && n[k] == m[k]
  {}

  /** A token that goes with this call. */
  lemma GoneNow(trace: seq<Snap>, b: Snap, created: map<Id, TokenEntry>, passes: map<Id, nat>, calls: seq<Call>,
                outcomes: seq<bool>, i: nat, ok: bool, budget: nat, sanitize: seq<string> -> seq<string>, t: Id)
    requires i < |calls| && |outcomes| == i && |trace| == i + 1 && t in trace[i].tokens && t !in b.tokens
    requires StepOf(trace[i], calls[i], budget, i, sanitize, ok, b) && UsesOk(trace[i].tokens, created, passes)
    requires Uses(passes, t) == Passed(calls[..i], outcomes, t)
    ensures t in created
    ensures Removed(trace + [b], calls[..i + 1], outcomes + [ok], t) ||
            (created[t].numUses > 0 && Passed(calls[..i + 1], outcomes + [ok], t) == created[t].numUses)
  {
    StepGone(trace[i], calls[i], budget, i, sanitize, ok, b, t);
    PassedLonger(calls, outcomes, i, ok, t);
    hide StepOf, Passed, Removes;
    var trace', calls', outcomes' := trace + [b], calls[..i + 1], outcomes + [ok];
    assert calls'[i] == calls[i] && outcomes'[i] == ok && trace'[i] == trace[i] && trace'[i + 1] == b;
    if Removes(calls[i], ok, t) {
      assert TookAway(trace'[i], calls'[i], outcomes'[i], trace'[i + 1], t);
    }
  }

  lemma OnlyStoredPass(a: Snap, c: Call, budget: nat, n: nat, sanitize: seq<string> -> seq<string>, ok: bool, b: Snap,
                       t: Id)
    requires StepOf(a, c, budget, n, sanitize, ok, b) && t !in a.tokens
    ensures !(c == Check(t) && ok)
  {}

  lemma RemovedBefore(trace: seq<Snap>, b: Snap, calls: seq<Call>, outcomes: seq<bool>, i: nat, ok: bool, t: Id)
    requires i < |calls| && |outcomes| == i && |trace| == i + 1
    ensures Removed(trace, calls[..i], outcomes, t) ==> Removed(trace + [b], calls[..i + 1], outcomes + [ok], t)
  {
    hide TookAway;
    var trace', calls', outcomes' := trace + [b], calls[..i + 1], outcomes + [ok];
    if Removed(trace, calls[..i], outcomes, t) {
      var j :| 0 <= j < i && TookAway(trace[j], calls[..i][j], outcomes[j], trace[j + 1], t);
      assert TookAway(trace'[j], calls'[j], outcomes'[j], trace'[j + 1], t);
    }
  }

  /** A sequence of states, each of which comes from the one before by a call. */
  ghost predicate Follows(trace: seq<Snap>, calls: seq<Call>, budgets: seq<nat>, sanitize: seq<string> -> seq<string>,
                          outcomes: seq<bool>)
    requires |outcomes| <= |calls| == |budgets|
  {
    && |trace| == |outcomes| + 1
    && trace[0] == Snap(map[], {}, map[], map[], None)
    && forall i | 0 <= i < |outcomes| :: StepOf(trace[i], calls[i], budgets[i], i, sanitize, outcomes[i], trace[i + 1])
  }

  lemma FollowsLonger(trace: seq<Snap>, calls: seq<Call>, budgets: seq<nat>, sanitize: seq<string> -> seq<string>,
                      outcomes: seq<bool>, ok: bool, b: Snap)
    requires |outcomes| < |calls| == |budgets| && Follows(trace, calls, budgets, sanitize, outcomes)
    requires StepOf(trace[|outcomes|], calls[|outcomes|], budgets[|outcomes|], |outcomes|, sanitize, ok, b)
    ensures Follows(trace + [b], calls, budgets, sanitize, outcomes + [ok])
  {
    hide StepOf;
    var n, trace', outcomes' := |outcomes|, trace + [b], outcomes + [ok];
    forall i | 0 <= i < n + 1 ensures StepOf(trace'[i], calls[i], budgets[i], i, sanitize, outcomes'[i], trace'[i + 1]) {
      if i < n {
        assert trace'[i] == trace[i] && trace'[i + 1] == trace[i + 1] && outcomes'[i] == outcomes[i];
      }
    }
  }

  /**
    Every run, wherever its calls are interrupted: each outcome and each change of the
    stored state is what the call says, and authority, use counts, the parent index, the
    queue and the lifetimes of leases are as they should be.
    */
  method Run(calls: seq<Call>, budgets: seq<nat>, sanitize: seq<string> -> seq<string>)
    returns (s: TokenStore, outcomes: seq<bool>, auths: seq<Option<Auth>>, ghost trace: seq<Snap>)
    requires |budgets| == |calls| && Proper(calls)
    ensures fresh(s) && Sound(s) && |outcomes| == |calls|
    ensures Follows(trace, calls, budgets, sanitize, outcomes) && trace[|calls|] == s.Now()
    ensures AllHandOut(trace, calls, sanitize, outcomes, auths)
    ensures Narrowed(s.created) && HandedNarrow(s.created, auths)
    ensures UsesAddUp(s.tokens, s.created, trace, calls, outcomes)
    ensures Listed(s.tokens, s.parents)
    ensures Queued(s.leases, s.queue)
    ensures Bounded(s.leases, calls)
  {
    hide SoFar, Sound, Narrowed, HandedNarrow, UsesAddUp, Listed, Queued, Bounded, Follows, AllHandOut;
    s := new TokenStore(0);
    outcomes, auths, trace := [], [], [s.Now()];
    BeforeRun(s, calls, budgets, sanitize);
    for i := 0 to |calls|
      invariant fresh(s) && SoFar(s, calls, budgets, sanitize, i, outcomes, auths, trace)
    {
      outcomes, auths, trace := Advance(s, calls, budgets, sanitize, i, outcomes, auths, trace);
    }
    AfterRun(s, calls, budgets, sanitize, outcomes, auths, trace);
  }

  /** What holds after i calls of a run. */
  ghost predicate SoFar(s: TokenStore, calls: seq<Call>, budgets: seq<nat>, sanitize: seq<string> -> seq<string>, i: nat,
                        outcomes: seq<bool>, auths: seq<Option<Auth>>, trace: seq<Snap>)
    reads s
  {
    && i <= |calls| == |budgets| && Sound(s) && |outcomes| == i && |trace| == i + 1
    && MetOnly(s.rank, s.owner, Seen(calls[..i]))
    && (forall t :: Uses(s.passes, t) == Passed(calls[..i], outcomes, t))
    && Gone(s.tokens, s.created, trace, calls[..i], outcomes)
    && Sizes(s.owner, s.clock, s.parents, i)
    && AsCreated(s.created, auths, sanitize) && AllHandOut(trace, calls, sanitize, outcomes, auths)
    && Bounded(s.leases, calls[..i])
    && Follows(trace, calls, budgets, sanitize, outcomes) && trace[i] == s.Now()
  }

  lemma BeforeRun(s: TokenStore, calls: seq<Call>, budgets: seq<nat>, sanitize: seq<string> -> seq<string>)
    requires |calls| == |budgets| && s.Valid() && s.History()
    requires s.Now() == Snap(map[], {}, map[], map[], None)
    requires s.rank == map[] && s.clock == 0 && s.owner == map[] && s.created == map[] && s.passes == map[]
    ensures SoFar(s, calls, budgets, sanitize, 0, [], [], [s.Now()])
  {
    hide Bounded, Gone, MetOnly, Seen, Passed, Uses, Follows, Sizes, AllHandOut, AsCreated, NarrowOk;
    hide ForestOk, Listed, LeasesOk, QueueOk, HeadOk, LineageOk, UsesOk, EdgesOk;
    EmptyRun(s.created, s.rank, s.owner, s.leases, s.clock, s.parents, s.Now());
    NoCalls(s.passes, calls, budgets, sanitize, s.Now());
    NothingHanded(calls, sanitize);
    assert calls[..0] == [];
  }

  /** One call of a run. */
  method Advance(s: TokenStore, calls: seq<Call>, budgets: seq<nat>, sanitize: seq<string> -> seq<string>, i: nat,
                 outcomes: seq<bool>, auths: seq<Option<Auth>>, ghost trace: seq<Snap>)
    returns (outcomes': seq<bool>, auths': seq<Option<Auth>>, ghost trace': seq<Snap>)
    requires Proper(calls) && i < |calls| && SoFar(s, calls, budgets, sanitize, i, outcomes, auths, trace)
    modifies s
    ensures SoFar(s, calls, budgets, sanitize, i + 1, outcomes', auths', trace')
  {
    hide StepEnds, Bounded, SubMap, ClockOk, StepOf, Gone, EdgesOk, MetOnly, NewIds, Seen, Passed, Uses, Follows, Sizes;
    hide HandsOut, AllHandOut, AsCreated, NarrowOk, Proper;
    hide ForestOk, Listed, LeasesOk, QueueOk, HeadOk, LineageOk, UsesOk;
    ProperCall(calls, i);
    ghost var a, created, passes := s.Now(), s.created, s.passes;
    ghost var owner, clock, parents := s.owner, s.clock, s.parents;
    s.Allow(budgets[i]);
    var ok, auth := Perform(s, calls[i], sanitize, Seen(calls[..i]), i);
    outcomes', auths', trace' := outcomes + [ok], auths + [auth], trace + [s.Now()];
    AsCreatedStep(a, created, s.created, passes, calls[i], sanitize, ok, auths, auth);
    HandOutLonger(trace, s.Now(), calls, sanitize, outcomes, ok, auths, auth);
    BoundedStep(a.leases, s.leases, calls, i);
    GoneStep(trace, s.Now(), created, s.created, passes, calls, outcomes, i, ok, budgets[i], sanitize);
    Longer(calls, outcomes, i, ok);
    SizesNext(owner, s.owner, clock, s.clock, parents, s.parents, i);
    FollowsLonger(trace, calls, budgets, sanitize, outcomes, ok, s.Now());
  }

  lemma AfterRun(s: TokenStore, calls: seq<Call>, budgets: seq<nat>, sanitize: seq<string> -> seq<string>,
                 outcomes: seq<bool>, auths: seq<Option<Auth>>, trace: seq<Snap>)
    requires SoFar(s, calls, budgets, sanitize, |calls|, outcomes, auths, trace)
    ensures Sound(s) && |outcomes| == |calls| == |budgets| && |trace| == |calls| + 1
    ensures Follows(trace, calls, budgets, sanitize, outcomes) && trace[|calls|] == s.Now()
    ensures AllHandOut(trace, calls, sanitize, outcomes, auths)
    ensures Narrowed(s.created) && HandedNarrow(s.created, auths)
    ensures UsesAddUp(s.tokens, s.created, trace, calls, outcomes)
    ensures Listed(s.tokens, s.parents) && Queued(s.leases, s.queue) && Bounded(s.leases, calls)
  {
    hide Bounded, Gone, EdgesOk, MetOnly, Seen, Passed, Uses, Follows, Sizes, AllHandOut, AsCreated, NarrowOk;
    hide ForestOk, Listed, LeasesOk, QueueOk, HeadOk, LineageOk, UsesOk, Narrowed, HandedNarrow, UsesAddUp, Queued;
    assert calls[..|calls|] == calls;
    SoundQueue(s.leases, s.index, s.owner, s.queue);
    SoundLineage(s.created, s.rank, s.clock);
    SoundAuths(s.created, auths, sanitize);
    SoundUses(s.tokens, s.created, s.passes, trace, calls, outcomes);
  }

  method Perform(s: TokenStore, c: Call, sanitize: seq<string> -> seq<string>, ghost seen: set<string>, ghost n: nat)
    returns (ok: bool, auth: Option<Auth>)
    requires Sound(s) && MetOnly(s.rank, s.owner, seen) && Sizes(s.owner, s.clock, s.parents, n)
    requires ClockOk(c) && "" !in NewIds(c) && NewIds(c) !! seen
    modifies s
    ensures Sound(s) && MetOnly(s.rank, s.owner, seen + NewIds(c))
    ensures forall t :: Uses(s.passes, t) == Uses(old(s.passes), t) + if c == Check(t) && ok then 1 else 0
    ensures SubMap(old(s.created), s.created) && forall t | t in s.created && t !in old(s.created) :: t in s.tokens
    ensures StepEnds(old(s.leases), s.leases, c)
    ensures HandsOut(old(s.Now()), c, sanitize, ok, auth)
    ensures StepOf(old(s.Now()), c, old(s.budget), n, sanitize, ok, s.Now())
    ensures |s.owner| <= |old(s.owner)| + 1 && s.clock <= old(s.clock) + 1 && |s.parents| <= |old(s.parents)| + 1
  {
    hide Sound, MetOnly, StepEnds, SubMap, ClockOk, NewIds, StepOf, Sizes;
    auth := None;
    SameMap(s.created);
    NoChangeEnds(s.leases, c);
    if c.CreateRoot? {
      ok := PerformRoot(s, c, sanitize, seen, n);
    } else if c.CreateChild? {
      ok := PerformChild(s, c, sanitize, seen, n);
    } else if c.Check? {
      ok, auth := PerformCheck(s, c, sanitize, seen, n);
      ShrinkEnds(old(s.leases), s.leases, c);
      FewerSet(s.parents, old(s.parents));
    } else if c.RevokeOne? {
      ok := PerformRevokeOne(s, c, sanitize, seen, n);
      ShrinkEnds(old(s.leases), s.leases, c);
      FewerSet(s.parents, old(s.parents));
    } else if c.RevokeBelow? {
      ok := PerformRevokeBelow(s, c, sanitize, seen, n);
      ShrinkEnds(old(s.leases), s.leases, c);
      FewerSet(s.parents, old(s.parents));
    } else if c.IssueSecret? {
      ok := PerformSecret(s, c, sanitize, seen, n);
    } else if c.IssueAuth? {
      ok := PerformAuth(s, c, sanitize, seen, n);
    } else if c.RenewLease? {
      ok := PerformRenewal(s, c, sanitize, seen, n);
    } else if c.RevokeLease? {
      ok := PerformRevocation(s, c, sanitize, seen, n);
      FewerSet(s.parents, old(s.parents));
    } else if c.SweepAt? {
      ok := PerformSweep(s, c, sanitize, seen, n);
      FewerSet(s.parents, old(s.parents));
    } else {
      ok := PerformRestart(s, c, sanitize, seen, n);
    }
  }

  lemma SameMap<K, V>(m: map<K, V>)
    ensures SubMap(m, m)
  {}

  /**
    Interrupting and rerunning: whatever a first `revoke_tree` got done before the storage
    failed, a second one that succeeds leaves the tokens that one complete call would have
    left. Not so the secrets: those survive whose token the first call deleted without
    getting to them. They belong to one token at most. The state in between is m.
    */
  method RevokeAgain(s: TokenStore, id: Id, first: nat, second: nat)
    returns (r: Result<(), RvError>, ghost m: Snap)
    requires s.Valid() && s.History()
    modifies s
    ensures s.Valid() && s.History()
    ensures r.Success? ==> forall x :: x in s.tokens <==> x in old(s.tokens) && !Reach(old(s.parents), id, x)
    ensures r.Success? ==> SecretsLeft(old(s.Now()), m, s.Now(), id)
    ensures r.Success? ==> AlmostThorough(old(s.Now()), s.Now())
    ensures StopsShort(old(s.Now()), id, first) ==> m.leases == old(s.leases) && id !in m.tokens
  {
    hide ForestOk, Listed, LeasesOk, QueueOk, HeadOk, LineageOk, UsesOk, Reach, Pruned, LeasesCut, NoSecrets;
    hide AlmostThorough, StopsShort, NothingThere, SecretsLeft, SubMap, EdgesOk, Enough, Descends;
    ghost var a := s.Now();
    s.Allow(first);
    var _ := s.RevokeTreeOf(id);
    m := s.Now();
    s.Allow(second);
    r := s.RevokeTreeOf(id);
    CutLeases(a.leases, m.leases, a.tokens.Keys - m.tokens.Keys);
    if r.Success? {
      RerunFinishes(a.tokens.Keys, a.parents, m.tokens.Keys, m.parents, s.tokens.Keys, id);
      SecretsAfterRerun(a, m, s.Now(), id);
    }
  }

  /** A secret of a token in the tree is left exactly if the token went in a first call that left it. */
  ghost predicate SecretsLeft(a: Snap, m: Snap, b: Snap, id: Id) {
    forall l | l in a.leases && l.SecretLease? && a.leases[l].clientToken in a.tokens
               && Reach(a.parents, id, a.leases[l].clientToken) ::
      l in b.leases <==> l in m.leases && a.leases[l].clientToken !in m.tokens
  }

  lemma SecretsAfterRerun(a: Snap, m: Snap, b: Snap, id: Id)
    requires SubMap(m.tokens, a.tokens) && SubMap(m.leases, a.leases) && AlmostThorough(a, m)
    requires Pruned(a.tokens.Keys, a.parents, m.tokens.Keys, m.parents)
    requires LeasesCut(m.leases, b.leases, m.tokens.Keys - b.tokens.Keys)
    requires forall x | x in m.tokens && Reach(m.parents, id, x) :: NoSecrets(b.leases, x)
    requires forall x | x in m.tokens && x !in b.tokens :: Reach(m.parents, id, x)
    ensures SecretsLeft(a, m, b, id) && AlmostThorough(a, b)
  {
    hide Reach, Pruned, AlmostThorough;
    forall x | x in m.tokens ensures Reach(a.parents, id, x) <==> Reach(m.parents, id, x) {
      LiveReach(a.tokens.Keys, a.parents, m.tokens.Keys, m.parents, id, x);
    }
    SecretsExcept(a, m, b);
  }

  lemma SecretsExcept(a: Snap, m: Snap, b: Snap)
    requires AlmostThorough(a, m) && SubMap(b.leases, m.leases) && SubMap(m.tokens, a.tokens)
    requires forall x | x in m.tokens && x !in b.tokens :: NoSecrets(b.leases, x)
    ensures AlmostThorough(a, b)
  {
    var x :| ThoroughExcept(a, m, x);
    forall y | y in a.tokens && y !in b.tokens && y != x ensures NoSecrets(b.leases, y) {
      if y !in m.tokens {
        NoSecretsShrink(m.leases, b.leases, y);
      }
    }
    assert ThoroughExcept(a, b, x);
  }

  /**
    Secrets can outlive their token: if the storage fails right after the deletion of a
    token without children, the rerun succeeds and every lease is still there.
    */
  method SecretsOutliveToken(s: TokenStore, id: Id) returns (r: Result<(), RvError>)
    requires s.Valid() && s.History() && id in s.tokens && forall e | e in s.parents :: e.0 != id
    modifies s
    ensures s.Valid() && s.History()
    ensures r.Success? && id !in s.tokens && s.leases == old(s.leases)
  {
    hide ForestOk, Listed, LeasesOk, QueueOk, HeadOk, LineageOk, UsesOk, Reach, LeasesCut, NoSecrets, AlmostThorough;
    hide EdgesOk, Enough, Descends;
    NoEmptyId(s.tokens, s.parents);
    s.Allow(if s.tokens[id].parent != "" then 4 else 3);
    assert StopsShort(s.Now(), id, s.budget);
    r := s.RevokeTreeOf(id);
    s.Allow(3);
    assert NothingThere(s.Now(), id, s.budget);
    r := s.RevokeTreeOf(id);
  }

  /** A store with a root token and one secret of it. */
  method RootWithSecret() returns (s: TokenStore, l: LeaseId)
    ensures fresh(s) && s.Valid() && s.History() && "root-id" in s.tokens && forall e | e in s.parents :: e.0 != "root-id"
    ensures l in s.leases && l.SecretLease? && s.leases[l].clientToken == "root-id"
  {
    hide ForestOk, Listed, LeasesOk, QueueOk, HeadOk, LineageOk, UsesOk, NarrowOk, NarrowedBy, SanePath, SecretEnds;
    hide EdgesOk;
    s := new TokenStore(3);
    var _ := s.Create(ROOT, "root-id");
    s.Allow(2);
    SanePathExample();
    var _ := s.RegisterSecret("kv/a", "root-id", "uuid", 0, false, 0, 0);
    l := SecretLease("kv/a", "uuid");
  }

  /** A run in which that happens: a root token and one secret, of which the secret is left. */
  method OrphanedSecret() returns (s: TokenStore, r: Result<(), RvError>, l: LeaseId)
    ensures r.Success? && "root-id" !in s.tokens
    ensures l in s.leases && l.SecretLease? && s.leases[l].clientToken == "root-id"
  {
    hide ForestOk, Listed, LeasesOk, QueueOk, HeadOk, LineageOk, UsesOk;
    s, l := RootWithSecret();
    r := SecretsOutliveToken(s, "root-id");
  }

  lemma SanePathExample()
    ensures SanePath("kv/a")
  {}

  lemma ProperCall(calls: seq<Call>, i: nat)
    requires Proper(calls) && i < |calls|
    ensures ClockOk(calls[i]) && "" !in NewIds(calls[i]) && NewIds(calls[i]) !! Seen(calls[..i])
  {}

  lemma PassedLonger(calls: seq<Call>, outcomes: seq<bool>, i: nat, ok: bool, t: Id)
    requires i < |calls| && |outcomes| == i
    ensures Passed(calls[..i + 1], outcomes + [ok], t) ==
            Passed(calls[..i], outcomes, t) + if calls[i] == Check(t) && ok then 1 else 0
  {
    assert calls[..i + 1][..i] == calls[..i];
    assert (outcomes + [ok])[..i] == outcomes;
  }

  lemma Longer(calls: seq<Call>, outcomes: seq<bool>, i: nat, ok: bool)
    requires i < |calls| && |outcomes| == i
    ensures Seen(calls[..i + 1]) == Seen(calls[..i]) + NewIds(calls[i])
    ensures forall t ::
              Passed(calls[..i + 1], outcomes + [ok], t) ==
              Passed(calls[..i], outcomes, t) + if calls[i] == Check(t) && ok then 1 else 0
  {
    assert calls[..i + 1][..i] == calls[..i];
    assert (outcomes + [ok])[..i] == outcomes;
  }

  lemma NoCalls(passes: map<Id, nat>, calls: seq<Call>, budgets: seq<nat>, sanitize: seq<string> -> seq<string>,
                start: Snap)
    requires passes == map[] && |calls| == |budgets| && start == Snap(map[], {}, map[], map[], None)
    ensures Seen([]) == {} && forall t :: Uses(passes, t) == Passed([], [], t)
    ensures Follows([start], calls, budgets, sanitize, [])
  {}

  lemma NothingHanded(calls: seq<Call>, sanitize: seq<string> -> seq<string>)
    ensures AsCreated(map[], [], sanitize)
    ensures forall start :: AllHandOut([start], calls, sanitize, [], [])
  {}

  lemma EmptyRun(created: map<Id, TokenEntry>, rank: map<Id, nat>, owner: map<LeaseId, QueueKey>,
                 leases: map<LeaseId, LeaseEntry>, clock: nat, parents: Edges, start: Snap)
    requires created == map[] && rank == map[] && owner == map[] && leases == map[] && clock == 0 && parents == {}
    ensures NarrowOk(created) && MetOnly(rank, owner, {}) && Bounded(leases, [])
    ensures Gone(map[], created, [start], [], []) && Sizes(owner, clock, parents, 0)
  {}
}
