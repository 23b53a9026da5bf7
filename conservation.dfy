/** What one release pays over its whole life: the claims of a full title
    before a cancellation, the refund of the cancellation, and the claim after it. */
module Conservation {
  import opened PulsarTypes
  import opened Arith
  import opened ClaimRule
  import opened CancelRule

  /** Successive claims of a full title at the given moments, before any
      cancellation: each claim is made on the release the previous one reissued. */
  function Trace(r: Release, times: seq<U64>): (o: ClaimOutcome)
    requires Claimable(r)
    ensures o.survivor.Some? ==> Claimable(o.survivor.value)
    ensures o.survivor.Some? && WellFormed(r) ==> WellFormed(o.survivor.value)
    decreases |times|
  {
    if times == [] then ClaimOutcome(Some(r), 0)
    else
      var first := ClaimRelease(r, ONE_PAYMENT_TOKEN, 0, times[0]);
      if first.survivor.None? then first
      else
        var rest := Trace(first.survivor.value, times[1..]);
        ClaimOutcome(rest.survivor, first.payout + rest.payout)
  }

  /** Without a cancellation, what the claims paid plus what the title still
      holds is the release's whole value: claims never pay more than it. */
  lemma {:induction false} TraceConservesValue(r: Release, times: seq<U64>)
    requires WellFormed(r)
    ensures var o := Trace(r, times); o.payout + RemainingValue(o.survivor) == FullValue(r)
    ensures Trace(r, times).payout <= FullValue(r)
    decreases |times|
  {
    if times != [] {
      ClaimConservesValue(r, times[0]);
      var first := ClaimRelease(r, ONE_PAYMENT_TOKEN, 0, times[0]);
      if first.survivor.Some? {
        TraceConservesValue(first.survivor.value, times[1..]);
      }
    }
  }

  /** `s` is `r` after zero or more claims made no later than `c`. */
  predicate ClaimedUpTo(r: Release, s: Release, c: U64) {
    && s.endDate == r.endDate && s.intervalSeconds == r.intervalSeconds && s.amount == r.amount
    && r.startDate <= s.startDate
    && r.intervalSeconds > 0
    && (s.startDate - r.startDate) % r.intervalSeconds == 0
    && (s.startDate == r.startDate || s.startDate <= c)
  }

  lemma ModShift(a: nat, k: nat, d: nat)
    requires d > 0
    ensures (a + k * d) % d == a % d
  {
    DivUnique(a + k * d, d, a / d + k, a % d);
  }

  lemma SumOfMultiples(a: nat, b: nat, d: nat)
    requires d > 0 && a % d == 0 && b % d == 0
    ensures (a + b) % d == 0
  {
    SubRemainder(a, d);
    SubRemainder(b, d);
    assert a + b == (a / d + b / d) * d;
    MulDivCancel(a / d + b / d, d);
  }

  lemma ClaimedUpToTrans(r: Release, s: Release, f: Release, c: U64)
    requires ClaimedUpTo(r, s, c) && ClaimedUpTo(s, f, c)
    ensures ClaimedUpTo(r, f, c)
  {
    SumOfMultiples(s.startDate - r.startDate, f.startDate - s.startDate, r.intervalSeconds);
    assert f.startDate - r.startDate == (s.startDate - r.startDate) + (f.startDate - s.startDate);
  }

  lemma ClaimStepShape(r: Release, t: U64, c: U64)
    requires WellFormed(r) && t <= c
    ensures var o := ClaimRelease(r, ONE_PAYMENT_TOKEN, 0, t);
      (o.survivor.Some? ==> ClaimedUpTo(r, o.survivor.value, c))
      && (o.survivor.None? ==> c >= r.endDate)
  {
    var o := ClaimRelease(r, ONE_PAYMENT_TOKEN, 0, t);
    if o.survivor.Some? && o.survivor.value == r {
      assert (r.startDate - r.startDate) % r.intervalSeconds == 0;
    }
  }

  lemma {:induction false} TraceShape(r: Release, times: seq<U64>, c: U64)
    requires WellFormed(r)
    requires forall t <- times :: t <= c
    ensures var o := Trace(r, times);
      (o.survivor.Some? ==> ClaimedUpTo(r, o.survivor.value, c))
      && (o.survivor.None? ==> c >= r.endDate)
    decreases |times|
  {
    if times == [] {
      assert (r.startDate - r.startDate) % r.intervalSeconds == 0;
    } else {
      assert times[0] in times;
      ClaimStepShape(r, times[0], c);
      var first := ClaimRelease(r, ONE_PAYMENT_TOKEN, 0, times[0]);
      if first.survivor.Some? {
        var s := first.survivor.value;
        assert forall t <- times[1..] :: t in times;
        TraceShape(s, times[1..], c);
        var o := Trace(s, times[1..]);
        if o.survivor.Some? {
          ClaimedUpToTrans(r, s, o.survivor.value, c);
        }
      }
    }
  }

  /** Boundaries counted from two aligned starts agree once both have passed. */
  lemma BoundaryFromAlignedStart(now: U64, r0: U64, s: U64, i: U64)
    requires i > 0 && r0 <= s <= now && (s - r0) % i == 0
    ensures AlignedBoundary(now, r0, i) == AlignedBoundary(now, s, i)
  {
    SubRemainder(s - r0, i);
    ModShift(now - s, (s - r0) / i, i);
    assert now - r0 == (now - s) + ((s - r0) / i) * i;
  }

  /** After a cancellation at `c`, the holder's next claim and the canceller's
      refund share out exactly what the title still held. */
  lemma CancelSettlesRemainder(r0: Release, s: Release, c: U64, now: U64)
    requires WellFormed(r0) && WellFormed(s) && ClaimedUpTo(r0, s, c)
    requires 0 < c <= now
    ensures ClaimRelease(s, ONE_PAYMENT_TOKEN, c, now).payout + CancelRefund(r0, c) == FullValue(s)
  {
    FullTitlePayout(s, c, now);
    if c >= s.endDate {
      assert Horizon(now, s.endDate, c) == s.endDate;
    } else if c <= s.startDate {
      SettleCancelledBeforeStart(r0, s, c, now);
    } else {
      SettleCancelledMidway(r0, s, c, now);
    }
  }

  lemma SettleCancelledBeforeStart(r0: Release, s: Release, c: U64, now: U64)
    requires WellFormed(r0) && WellFormed(s) && ClaimedUpTo(r0, s, c)
    requires 0 < c <= now && c < s.endDate && c <= s.startDate
    ensures CancelRefund(r0, c) == FullValue(s)
  {
    var i := s.intervalSeconds;
    if c >= r0.startDate {
      assert s.startDate == c;
      assert AlignedBoundary(c, r0.startDate, i) == c;
    }
    assert CancelRefund(r0, c) == Prorated(s.amount, s.endDate - s.startDate, i);
    SubRemainder(s.endDate - s.startDate, i);
    RefundOfMultiple(s.amount, TotalUnits(s), i);
  }

  lemma SettleCancelledMidway(r0: Release, s: Release, c: U64, now: U64)
    requires WellFormed(r0) && WellFormed(s) && ClaimedUpTo(r0, s, c)
    requires 0 < c <= now && s.startDate < c < s.endDate
    ensures VestedUnits(s, c, now) * s.amount + CancelRefund(r0, c) == FullValue(s)
  {
    BoundaryFromAlignedStart(c, r0.startDate, s.startDate, s.intervalSeconds);
    assert CancelRefund(r0, c) == CancelRefund(s, c);
    CancelRefundIsUnvested(s, c);
    assert Horizon(c, s.endDate, 0) == c == Horizon(now, s.endDate, c);
    assert VestedUnits(s, 0, c) == VestedUnits(s, c, now);
  }

  /** The whole life of one release on a full title that is cancelled at `c`:
      the claims before it, the refund, and the claim after it pay out exactly
      the release's whole value, whenever the cancellation comes. */
  lemma LifetimeWithCancel(r0: Release, times: seq<U64>, c: U64, now: U64)
    requires WellFormed(r0)
    requires forall t <- times :: t <= c
    requires 0 < c <= now
    ensures var o := Trace(r0, times);
      var after := if o.survivor.Some? then ClaimRelease(o.survivor.value, ONE_PAYMENT_TOKEN, c, now).payout else 0;
      o.payout + after + CancelRefund(r0, c) == FullValue(r0)
  {
    TraceConservesValue(r0, times);
    TraceShape(r0, times, c);
    var o := Trace(r0, times);
    if o.survivor.Some? {
      CancelSettlesRemainder(r0, o.survivor.value, c, now);
    }
  }

  /** Once a claim has been made after the cancellation, later claims pay nothing. */
  lemma SettledAfterCancel(s: Release, q: nat, c: U64, now: U64, later: U64)
    requires Claimable(s) && 0 < c <= now
    requires ClaimRelease(s, q, c, now).survivor.Some?
    ensures ClaimRelease(s, q, c, now).survivor == Some(s)
    ensures ClaimRelease(s, q, c, later).payout == 0
  {
    if !CancelledBeforeStart(s, c) && later > s.startDate {
      assert Horizon(later, s.endDate, c) <= Horizon(now, s.endDate, c);
      DivMonotone(Horizon(later, s.endDate, c) - s.startDate, Horizon(now, s.endDate, c) - s.startDate, s.intervalSeconds);
    }
  }
}
