/**
  Lease times (`src/logical/lease.rs`). Instants and durations are whole nanoseconds since
  the Unix epoch; the source truncates some of them to seconds.
  */
module Lease {
  import opened Wrappers

  const SECOND: nat := 1_000_000_000
  const MILLISECOND: nat := 1_000_000
  const DAY: nat := 24 * 60 * 60 * SECOND
  const MAX_LEASE_TTL: nat := 30 * DAY
  const DEFAULT_LEASE_TTL: nat := DAY

  function AsSecs(t: nat): nat {
    t / SECOND
  }

  /** An instant truncated to its second. */
  function Floor(t: nat): nat {
    AsSecs(t) * SECOND
  }

  function Min(a: nat, b: nat): nat {
    if a <= b then a else b
  }

  /** What a request for a lease brings along. */
  datatype Terms = Terms(
    increment: nat, period: nat, backendTtl: nat, backendMaxTtl: nat, explicitMaxTtl: nat)

  function Cap(maxLeaseTtl: nat, terms: Terms): nat {
    var backend := if 0 < terms.backendMaxTtl < maxLeaseTtl then terms.backendMaxTtl else maxLeaseTtl;
    if 0 < terms.explicitMaxTtl < backend then terms.explicitMaxTtl else backend
  }

  /** The time to live asked for, before the deadline cuts it. */
  function Wanted(maxLeaseTtl: nat, defaultLeaseTtl: nat, terms: Terms): nat {
    if terms.period > 0 then Min(terms.period, Cap(maxLeaseTtl, terms))
    else if terms.increment > 0 then terms.increment
    else if terms.backendTtl > 0 then terms.backendTtl
    else defaultLeaseTtl
  }

  /** The instant no lease of these terms may outlive; periodic ones may have none. */
  function Deadline(maxLeaseTtl: nat, terms: Terms, start: nat): Option<nat> {
    if terms.period == 0 then Some(Floor(start) + Cap(maxLeaseTtl, terms))
    else if terms.explicitMaxTtl > 0 then Some(Floor(start) + terms.explicitMaxTtl)
    else None
  }

  /** The wanted time, cut at the deadline; past the deadline the subtraction panics. */
  function Ttl(maxLeaseTtl: nat, defaultLeaseTtl: nat, terms: Terms, start: nat, now: nat): Result<nat, RvError> {
    var wanted := Wanted(maxLeaseTtl, defaultLeaseTtl, terms);
    if Cap(maxLeaseTtl, terms) == 0 then
      Failure(ErrString)
    else
      match Deadline(maxLeaseTtl, terms, start)
      case None => Success(wanted)
      case Some(deadline) =>
        if deadline < Floor(now) then Failure(Panic)
        else if deadline == Floor(now) then Failure(ErrString)
        else Success(Min(wanted, deadline - Floor(now)))
  }

  // ---- What is asked for, in terms of the arguments alone.

  ghost predicate IsLeast(x: nat, s: set<nat>) {
    x in s && forall y | y in s :: x <= y
  }

  /** The maxima that are given; zero stands for none. */
  ghost function Maxima(maxLeaseTtl: nat, terms: Terms): set<nat> {
    {maxLeaseTtl}
    + (if terms.backendMaxTtl > 0 then {terms.backendMaxTtl} else {})
    + (if terms.explicitMaxTtl > 0 then {terms.explicitMaxTtl} else {})
  }

  /** w is the first of three durations that is not zero, or the last. */
  ghost predicate IsFirst(w: nat, a: nat, b: nat, c: nat) {
    (a > 0 && w == a) || (a == 0 && b > 0 && w == b) || (a == 0 && b == 0 && w == c)
  }

  /** A duration w is granted as far as an end of validity allows: the subtraction panics past it. */
  ghost predicate CutAt(w: nat, end: nat, now: nat, r: Result<nat, RvError>) {
    if end < now then r == Failure(Panic)
    else if end == now then r == Failure(ErrString)
    else r.Success? && IsLeast(r.value, {w, end - now})
  }

  /**
    The time to live. Without a period: the first given of increment, backend's time and
    default, cut at the start plus the least maximum. With a period: the least of it and
    the maxima, cut at the start plus the explicit maximum if that is given. Start and now
    are whole seconds, m is the least maximum and w the time wanted.
    */
  ghost predicate TtlRight(maxLeaseTtl: nat, defaultLeaseTtl: nat, terms: Terms, start: nat, now: nat,
                           r: Result<nat, RvError>)
  {
    forall m: nat, w: nat | IsLeast(m, Maxima(maxLeaseTtl, terms)) ::
      && (m == 0 ==> r == Failure(ErrString))
      && (m > 0 && terms.period == 0 && IsFirst(w, terms.increment, terms.backendTtl, defaultLeaseTtl) ==>
            CutAt(w, start + m, now, r))
      && (m > 0 && terms.period > 0 && IsLeast(w, Maxima(maxLeaseTtl, terms) + {terms.period}) ==>
            if terms.explicitMaxTtl > 0 then CutAt(w, start + terms.explicitMaxTtl, now, r) else r == Success(w))
  }

  lemma TtlIsRight(maxLeaseTtl: nat, defaultLeaseTtl: nat, terms: Terms, start: nat, clock: nat)
    ensures TtlRight(maxLeaseTtl, defaultLeaseTtl, terms, Floor(start), Floor(clock),
                     Ttl(maxLeaseTtl, defaultLeaseTtl, terms, start, clock))
  {
    hide Floor;
  }

  /** There are always such an m and w, so the description says what the result is. */
  lemma TtlIsDescribed(maxLeaseTtl: nat, defaultLeaseTtl: nat, terms: Terms) returns (m: nat, w: nat)
    ensures IsLeast(m, Maxima(maxLeaseTtl, terms))
    ensures if terms.period == 0 then IsFirst(w, terms.increment, terms.backendTtl, defaultLeaseTtl)
            else IsLeast(w, Maxima(maxLeaseTtl, terms) + {terms.period})
  {
    m, w := Cap(maxLeaseTtl, terms), Wanted(maxLeaseTtl, defaultLeaseTtl, terms);
  }

  lemma TtlIsUnique(maxLeaseTtl: nat, defaultLeaseTtl: nat, terms: Terms, start: nat, clock: nat,
                    r: Result<nat, RvError>)
    requires TtlRight(maxLeaseTtl, defaultLeaseTtl, terms, Floor(start), Floor(clock), r)
    ensures r == Ttl(maxLeaseTtl, defaultLeaseTtl, terms, start, clock)
  {
    var m, w := TtlIsDescribed(maxLeaseTtl, defaultLeaseTtl, terms);
    TtlIsRight(maxLeaseTtl, defaultLeaseTtl, terms, start, clock);
    hide Ttl, Floor, Maxima, IsFirst;
  }

  const HOUR: nat := 60 * 60 * SECOND

  lemma Units()
    ensures MILLISECOND == 1_000_000 && SECOND == 1_000_000_000 && HOUR == 3_600_000_000_000
    ensures DEFAULT_LEASE_TTL == 24 * HOUR && MAX_LEASE_TTL == 720 * HOUR
  {}

  /** The cases that the source names, at an instant t that is a whole second. */
  lemma TtlCases(secs: nat)
    ensures var t := secs * SECOND;
            var ttl := (terms: Terms) => Ttl(30 * HOUR, 5 * HOUR, terms, t, t);
            && ttl(Terms(HOUR, 0, 30 * HOUR, 0, 0)) == Success(HOUR)
            && ttl(Terms(HOUR, 0, 0, 0, 0)) == Success(HOUR)
            && ttl(Terms(0, 0, 30 * HOUR, 0, 0)) == Success(30 * HOUR)
            && ttl(Terms(0, 0, 0, 0, 0)) == Success(5 * HOUR)
            && ttl(Terms(0, 0, 40 * HOUR, 45 * HOUR, 0)) == Success(30 * HOUR)
            && ttl(Terms(40 * HOUR, 0, 40 * HOUR, 50 * HOUR, 0)) == Success(30 * HOUR)
            && ttl(Terms(4 * HOUR, 0, 9 * HOUR, 5 * HOUR, 0)) == Success(4 * HOUR)
            && ttl(Terms(5 * HOUR, 0, 9 * HOUR, 4 * HOUR, 0)) == Success(4 * HOUR)
            && ttl(Terms(40 * HOUR, 0, 0, 0, 0)) == Success(30 * HOUR)
            && ttl(Terms(3 * HOUR, HOUR, 4 * HOUR, 2 * HOUR, 0)) == Success(HOUR)
            && ttl(Terms(0, 2 * HOUR, 0, 0, HOUR)) == Success(HOUR)
            && ttl(Terms(0, 2 * HOUR, 0, HOUR, 0)) == Success(HOUR)
  {
    WholeSecondFloor(secs);
    hide Floor;
  }

  lemma WholeSecondFloor(secs: nat)
    ensures Floor(secs * SECOND) == secs * SECOND
  {}

  method CalculateTtl(maxLeaseTtl: nat, defaultLeaseTtl: nat, terms: Terms, start: nat, clock: nat)
    returns (r: Result<nat, RvError>)
    ensures r == Ttl(maxLeaseTtl, defaultLeaseTtl, terms, start, clock)
    ensures TtlRight(maxLeaseTtl, defaultLeaseTtl, terms, Floor(start), Floor(clock), r)
  {
    TtlIsRight(maxLeaseTtl, defaultLeaseTtl, terms, start, clock);
    hide TtlRight;
    var now := AsSecs(clock);
    var startTime := AsSecs(start);
    var maxTtl := maxLeaseTtl;
    if terms.backendMaxTtl > 0 && terms.backendMaxTtl < maxTtl {
      maxTtl := terms.backendMaxTtl;
    }
    if terms.explicitMaxTtl > 0 && terms.explicitMaxTtl < maxTtl {
      maxTtl := terms.explicitMaxTtl;
    }
    if maxTtl <= 0 {
      return Failure(ErrString);
    }
    var ttl;
    var maxValidTime := 0;
    if terms.period > 0 {
      if terms.period > maxTtl {
        ttl := maxTtl;
      } else {
        ttl := terms.period;
      }
      if terms.explicitMaxTtl > 0 {
        maxValidTime := startTime * SECOND + terms.explicitMaxTtl;
      }
    } else {
      if terms.increment > 0 {
        ttl := terms.increment;
      } else if terms.backendTtl > 0 {
        ttl := terms.backendTtl;
      } else {
        ttl := defaultLeaseTtl;
      }
      maxValidTime := startTime * SECOND + maxTtl;
    }
    if maxValidTime != 0 {
      if maxValidTime < now * SECOND {
        return Failure(Panic);
      }
      var maxValidTtl := maxValidTime - now * SECOND;
      if maxValidTtl <= 0 {
        return Failure(ErrString);
      }
      if maxValidTtl < ttl {
        ttl := maxValidTtl;
      }
    }
    return Success(ttl);
  }

  /** The expiry of a lease in terms of its time to live: never, if that is under a second. */
  lemma ExpirationIs(ttl: nat, now: nat)
    ensures ttl < 1_000_000_000 ==> ExpirationTime(ttl, now) == 0
    ensures ttl >= 1_000_000_000 ==> ExpirationTime(ttl, now) == now + ttl
  {}

  /** `Lease::expiration_time`: the epoch stands for "never". */
  function ExpirationTime(ttl: nat, now: nat): nat {
    if AsSecs(ttl) > 0 then now + ttl else 0
  }

  // ---- Renewals.

  /** One renewal: its terms, the clock in `calculate_ttl` and the clock afterwards. */
  datatype Renewal = Renewal(terms: Terms, calculated: nat, renewed: nat)

  function Renewed(issue: nat, expire: nat, r: Renewal): nat {
    match Ttl(MAX_LEASE_TTL, DEFAULT_LEASE_TTL, r.terms, issue, r.calculated)
    case Success(ttl) => ExpirationTime(ttl, r.renewed)
    case Failure(_) => expire
  }

  function RenewedAll(issue: nat, expire: nat, rs: seq<Renewal>): nat {
    if rs == [] then expire else Renewed(issue, RenewedAll(issue, expire, rs[..|rs| - 1]), rs[|rs| - 1])
  }

  /** How far apart the two clock readings are, seconds truncated in the first. */
  function Lag(r: Renewal): nat
    requires r.calculated <= r.renewed
  {
    r.renewed - Floor(r.calculated)
  }

  /** One renewal ends at most the lag past its deadline, and exactly there if it is cut. */
  lemma RenewalEnds(issue: nat, expire: nat, r: Renewal)
    requires r.calculated <= r.renewed
    requires Deadline(MAX_LEASE_TTL, r.terms, issue).Some?
    requires Ttl(MAX_LEASE_TTL, DEFAULT_LEASE_TTL, r.terms, issue, r.calculated).Success?
    ensures var deadline := Deadline(MAX_LEASE_TTL, r.terms, issue).value;
            var left := deadline - Floor(r.calculated);
            && Renewed(issue, expire, r) <= deadline + Lag(r)
            && (SECOND <= left <= Wanted(MAX_LEASE_TTL, DEFAULT_LEASE_TTL, r.terms) ==>
                  Renewed(issue, expire, r) == deadline + Lag(r))
  {
    assert Floor(r.calculated) <= r.calculated;
  }

  /** The span after issue that the terms allow, if they allow only a bounded one. */
  function Span(terms: Terms): Option<nat> {
    if terms.period == 0 then Some(MAX_LEASE_TTL)
    else if terms.explicitMaxTtl > 0 then Some(terms.explicitMaxTtl)
    else None
  }

  /** Less than a second is wanted, or left before the deadline. */
  predicate UnderASecond(issue: nat, r: Renewal) {
    var deadline := Deadline(MAX_LEASE_TTL, r.terms, issue);
    || Wanted(MAX_LEASE_TTL, DEFAULT_LEASE_TTL, r.terms) < SECOND
    || (deadline.Some? && deadline.value - Floor(r.calculated) < SECOND)
  }

  /**
    A renewal whose time to live is under a second ends at the epoch, which stands for
    "never", and no other renewal does.
    */
  lemma NeverExpiresExactly(issue: nat, expire: nat, r: Renewal)
    requires Ttl(MAX_LEASE_TTL, DEFAULT_LEASE_TTL, r.terms, issue, r.calculated).Success?
    ensures Renewed(issue, expire, r) == 0 <==> UnderASecond(issue, r)
  {}

  /** A renewal after which an expiring lease still expires: it fails, or is not under a second. */
  predicate KeepsEnd(issue: nat, r: Renewal) {
    Ttl(MAX_LEASE_TTL, DEFAULT_LEASE_TTL, r.terms, issue, r.calculated).Failure? || !UnderASecond(issue, r)
  }

  /**
    No number of renewals moves a lease past its issue time plus the span of its terms,
    by more than the lag between the two clock readings of a renewal, and it ends indeed
    if no renewal is for less than a second.
    */
  lemma {:induction false} RenewalsAreBounded(issue: nat, expire: nat, rs: seq<Renewal>, span: nat, lag: nat)
    requires expire <= Floor(issue) + span + lag
    requires forall i | 0 <= i < |rs| ::
               && rs[i].calculated <= rs[i].renewed && Lag(rs[i]) <= lag
               && Span(rs[i].terms).Some? && Span(rs[i].terms).value <= span
    ensures RenewedAll(issue, expire, rs) <= Floor(issue) + span + lag
    ensures expire != 0 && (forall i | 0 <= i < |rs| :: KeepsEnd(issue, rs[i])) ==> RenewedAll(issue, expire, rs) != 0
  {
    if rs != [] {
      var last := |rs| - 1;
      RenewalsAreBounded(issue, expire, rs[..last], span, lag);
      var r := rs[last];
      if Ttl(MAX_LEASE_TTL, DEFAULT_LEASE_TTL, r.terms, issue, r.calculated).Success? {
        RenewalEnds(issue, RenewedAll(issue, expire, rs[..last]), r);
        NeverExpiresExactly(issue, RenewedAll(issue, expire, rs[..last]), r);
      }
    }
  }

  /**
    The plain bound over any number of renewals: issue time plus the span, if no renewal's
    lag is longer than the part of a second that truncation takes off the issue time.
    */
  lemma RenewalsMeetPlainBound(issue: nat, expire: nat, rs: seq<Renewal>, span: nat)
    requires expire <= issue + span
    requires forall i | 0 <= i < |rs| ::
               && rs[i].calculated <= rs[i].renewed && Lag(rs[i]) <= issue - Floor(issue)
               && Span(rs[i].terms).Some? && Span(rs[i].terms).value <= span
    ensures RenewedAll(issue, expire, rs) <= issue + span
    ensures expire != 0 && (forall i | 0 <= i < |rs| :: KeepsEnd(issue, rs[i])) ==> RenewedAll(issue, expire, rs) != 0
  {
    RenewalsAreBounded(issue, expire, rs, span, issue - Floor(issue));
  }

  /**
    In general the plain bound fails. Exactly when a renewal stays within any given bound:
    it makes the lease never expire, or the time wanted ends by then, or the deadline and
    the lag together do.
    */
  lemma RenewalMeetsBoundExactly(issue: nat, expire: nat, r: Renewal, bound: nat)
    requires r.calculated <= r.renewed
    requires Ttl(MAX_LEASE_TTL, DEFAULT_LEASE_TTL, r.terms, issue, r.calculated).Success?
    ensures Renewed(issue, expire, r) <= bound <==>
            || UnderASecond(issue, r)
            || r.renewed + Wanted(MAX_LEASE_TTL, DEFAULT_LEASE_TTL, r.terms) <= bound
            || var deadline := Deadline(MAX_LEASE_TTL, r.terms, issue);
               deadline.Some? && deadline.value + Lag(r) <= bound
  {}

  /**
    For a renewal that is cut at its deadline of 30 days, the plain bound holds exactly if
    the lag is at most the part of a second that truncation takes off the issue time.
    */
  lemma CutRenewalExactly(issue: nat, expire: nat, r: Renewal)
    requires r.calculated <= r.renewed && r.terms.period == 0 && Cap(MAX_LEASE_TTL, r.terms) == MAX_LEASE_TTL
    requires SECOND <= Floor(issue) + MAX_LEASE_TTL - Floor(r.calculated)
             <= Wanted(MAX_LEASE_TTL, DEFAULT_LEASE_TTL, r.terms)
    ensures Renewed(issue, expire, r) <= issue + MAX_LEASE_TTL <==> Lag(r) <= issue - Floor(issue)
  {
    RenewalEnds(issue, expire, r);
  }

  predicate WholeSeconds(terms: Terms) {
    && terms.increment % SECOND == 0 && terms.period % SECOND == 0 && terms.backendTtl % SECOND == 0
    && terms.backendMaxTtl % SECOND == 0 && terms.explicitMaxTtl % SECOND == 0
  }

  lemma WholeMultiple(t: nat)
    requires t % SECOND == 0 && t > 0
    ensures t >= SECOND
  {}

  lemma WholeCap(terms: Terms)
    requires WholeSeconds(terms)
    ensures Cap(MAX_LEASE_TTL, terms) % SECOND == 0
  {}

  lemma WholeWanted(terms: Terms)
    requires WholeSeconds(terms) && Cap(MAX_LEASE_TTL, terms) > 0
    ensures Wanted(MAX_LEASE_TTL, DEFAULT_LEASE_TTL, terms) >= SECOND
  {
    WholeCap(terms);
    hide Cap;
    WholeMultiple(DAY);
    WholeMultiple(Wanted(MAX_LEASE_TTL, DEFAULT_LEASE_TTL, terms));
  }

  lemma WholeSum(a: nat, b: nat, c: nat)
    requires a % SECOND == 0 && b % SECOND == 0 && c % SECOND == 0 && a + b > c
    ensures a + b - c >= SECOND
  {
    var x, y, z := a / SECOND, b / SECOND, c / SECOND;
    assert a == x * SECOND && b == y * SECOND && c == z * SECOND;
  }

  lemma WholeLeft(issue: nat, r: Renewal)
    requires WholeSeconds(r.terms)
    ensures var deadline := Deadline(MAX_LEASE_TTL, r.terms, issue);
            deadline.Some? && deadline.value > Floor(r.calculated) ==> deadline.value - Floor(r.calculated) >= SECOND
  {
    WholeCap(r.terms);
    hide Cap;
    var deadline := Deadline(MAX_LEASE_TTL, r.terms, issue);
    var span := if r.terms.period == 0 then Cap(MAX_LEASE_TTL, r.terms) else r.terms.explicitMaxTtl;
    if deadline.Some? && deadline.value > Floor(r.calculated) {
      WholeSum(Floor(issue), span, Floor(r.calculated));
    }
  }

  /** No renewal with whole-second durations is for less than a second. */
  lemma WholeTtl(issue: nat, r: Renewal)
    requires WholeSeconds(r.terms)
    ensures KeepsEnd(issue, r)
  {
    WholeLeft(issue, r);
    if Cap(MAX_LEASE_TTL, r.terms) > 0 {
      WholeWanted(r.terms);
    }
    hide Wanted, Deadline, Cap, WholeSeconds, Floor;
  }

  /** With whole-second durations an expiring lease stays one, however often it is renewed. */
  lemma {:induction false} WholeSecondsKeepExpiring(issue: nat, expire: nat, rs: seq<Renewal>)
    requires expire != 0 && forall i | 0 <= i < |rs| :: WholeSeconds(rs[i].terms)
    ensures RenewedAll(issue, expire, rs) != 0
  {
    hide Ttl, WholeSeconds, UnderASecond;
    if rs != [] {
      var last := |rs| - 1;
      WholeSecondsKeepExpiring(issue, expire, rs[..last]);
      WholeTtl(issue, rs[last]);
      if Ttl(MAX_LEASE_TTL, DEFAULT_LEASE_TTL, rs[last].terms, issue, rs[last].calculated).Success? {
        NeverExpiresExactly(issue, RenewedAll(issue, expire, rs[..last]), rs[last]);
      }
    }
  }

  /** A renewal for half a second makes an expiring lease one that never expires. */
  lemma NeverExpiresExample()
    ensures var issue := 1000 * SECOND;
            var r := Renewal(Terms(SECOND / 2, 0, DAY, 0, 0), issue + SECOND, issue + SECOND);
            Renewed(issue, issue + DAY, r) == 0
  {
    assert AsSecs(1001 * SECOND) == 1001 && AsSecs(1000 * SECOND) == 1000;
  }

  /** A renewal 0.9 seconds after issue, with one clock reading, overshoots by 0.9 seconds. */
  lemma OvershootExample()
    ensures var issue := 1000 * SECOND;
            var t := issue + 900 * MILLISECOND;
            var r := Renewal(Terms(40 * DAY, 0, 0, 0, 0), t, t);
            t <= issue + DAY && Renewed(issue, issue + DAY, r) == issue + MAX_LEASE_TTL + 900 * MILLISECOND
  {
    var issue := 1000 * SECOND;
    var t := issue + 900 * MILLISECOND;
    assert AsSecs(t) == 1000 && AsSecs(issue) == 1000;
  }

  /** Every renewal happens while the lease still runs, as `renewable` demands. */
  predicate Timely(issue: nat, expire: nat, rs: seq<Renewal>) {
    forall i | 0 <= i < |rs| :: rs[i].calculated <= rs[i].renewed <= RenewedAll(issue, expire, rs[..i])
  }

  const PERIODIC := Terms(0, DAY, 0, 0, 0)

  lemma PeriodicRenewal(issue: nat, expire: nat, t: nat)
    ensures Renewed(issue, expire, Renewal(PERIODIC, t, t)) == t + DAY
  {}

  /** Renewals for a period of a day, each at the very end of the lease. */
  function Daily(issue: nat, expire: nat, n: nat): seq<Renewal> {
    if n == 0 then []
    else
      var earlier := Daily(issue, expire, n - 1);
      var t := RenewedAll(issue, expire, earlier);
      earlier + [Renewal(PERIODIC, t, t)]
  }

  /** All of them are in time, and each adds a day. */
  lemma {:induction false} DailyRenewals(issue: nat, expire: nat, n: nat)
    ensures var rs := Daily(issue, expire, n);
            && |rs| == n && Timely(issue, expire, rs) && RenewedAll(issue, expire, rs) >= expire + n
            && (forall i | 0 <= i < n :: rs[i].terms == PERIODIC)
            && (n > 0 ==> RenewedAll(issue, expire, rs) == RenewedAll(issue, expire, Daily(issue, expire, n - 1)) + DAY)
  {
    hide Renewed, RenewedAll, Timely;
    NoRenewals(issue, expire);
    if n > 0 {
      DailyRenewals(issue, expire, n - 1);
      var earlier := Daily(issue, expire, n - 1);
      var t := RenewedAll(issue, expire, earlier);
      OneMoreRenewal(issue, expire, earlier, Renewal(PERIODIC, t, t));
      PeriodicRenewal(issue, t, t);
    }
  }

  lemma NoRenewals(issue: nat, expire: nat)
    ensures RenewedAll(issue, expire, []) == expire && Timely(issue, expire, [])
  {}

  lemma OneMoreRenewal(issue: nat, expire: nat, rs: seq<Renewal>, r: Renewal)
    ensures RenewedAll(issue, expire, rs + [r]) == Renewed(issue, RenewedAll(issue, expire, rs), r)
    ensures Timely(issue, expire, rs) && r.calculated <= r.renewed <= RenewedAll(issue, expire, rs) ==>
              Timely(issue, expire, rs + [r])
  {
    hide Renewed;
    var all := rs + [r];
    assert all[..|rs|] == rs;
    assert RenewedAll(issue, expire, all) == Renewed(issue, RenewedAll(issue, expire, rs), r);
    hide RenewedAll;
    forall i | 0 <= i < |rs| ensures all[i] == rs[i] && all[..i] == rs[..i] {}
  }

  /** Periodic terms without an explicit maximum, renewed in time each time, outlive any bound. */
  lemma PeriodicWithoutMaximumIsUnbounded(issue: nat, expire: nat, bound: nat) returns (rs: seq<Renewal>)
    ensures Timely(issue, expire, rs) && RenewedAll(issue, expire, rs) > bound
    ensures forall i | 0 <= i < |rs| :: rs[i].terms.period > 0 && rs[i].terms.explicitMaxTtl == 0
  {
    hide Timely, RenewedAll;
    rs := Daily(issue, expire, bound + 1);
    DailyRenewals(issue, expire, bound + 1);
  }
}
