/** The refund cancel_internal pays for each snapshot release, as the
    contract computes it and as it is evidently meant. */
module CancelRule {
  import opened PulsarTypes
  import opened Arith
  import opened ClaimRule

  /** `current_date - release.start_date` underflows: the cancel comes before an active release starts. */
  datatype CancelError = StartUnderflow

  /** `amount` per interval over `time` seconds, rounded down (line 252). */
  function Prorated(amount: nat, time: nat, interval: nat): nat
    requires interval > 0
  {
    amount * time / interval
  }

  /** The refund of one snapshot release. A release that has ended refunds
      nothing; for an active release the contract subtracts the start date from
      the current date without a guard. */
  function CancelRefundAsWritten(r: Release, now: U64): (res: Result<nat, CancelError>)
    requires Claimable(r)
    ensures res.Err? <==> now < r.startDate
    ensures now >= r.endDate ==> res == Ok(0)
    ensures res.Ok? ==> res.value == CancelRefund(r, now)
  {
    if now >= r.endDate then Ok(0)
    else if now < r.startDate then Err(StartUnderflow)
    else
      var currentDateInInterval := AlignedBoundary(now, r.startDate, r.intervalSeconds);
      var startDate := if currentDateInInterval > r.startDate then currentDateInInterval else r.startDate;
      var remainingTime := r.endDate - startDate;
      Ok(Prorated(r.amount, remainingTime, r.intervalSeconds))
  }

  /** The refund with the missing guard: before the release starts, its
      whole schedule is unvested. */
  function CancelRefund(r: Release, now: U64): (refund: nat)
    requires Claimable(r)
    ensures now >= r.endDate ==> refund == 0
  {
    if now >= r.endDate then 0
    else
      var currentDateInInterval := if now < r.startDate then r.startDate
                                   else AlignedBoundary(now, r.startDate, r.intervalSeconds);
      var startDate := if currentDateInInterval > r.startDate then currentDateInInterval else r.startDate;
      var remainingTime := r.endDate - startDate;
      Prorated(r.amount, remainingTime, r.intervalSeconds)
  }

  /** The refund is the per-interval amount times the intervals a claim at the
      same moment would not yet count. */
  lemma CancelRefundIsUnvested(r: Release, now: U64)
    requires WellFormed(r)
    ensures VestedUnits(r, 0, now) <= TotalUnits(r)
    ensures CancelRefund(r, now) == r.amount * (TotalUnits(r) - VestedUnits(r, 0, now))
  {
    VestedUnitsBounded(r, 0, now);
    var i := r.intervalSeconds;
    var t := TotalUnits(r);
    SubRemainder(r.endDate - r.startDate, i);
    if now >= r.endDate {
      ClaimAfterEndExhausts(r, ONE_PAYMENT_TOKEN, now);
    } else if now <= r.startDate {
      assert CancelRefund(r, now) == Prorated(r.amount, r.endDate - r.startDate, i);
      RefundOfMultiple(r.amount, t, i);
    } else {
      RefundMidway(r, now);
    }
  }

  lemma RefundMidway(r: Release, now: U64)
    requires WellFormed(r) && r.startDate < now < r.endDate
    ensures VestedUnits(r, 0, now) <= TotalUnits(r)
    ensures CancelRefund(r, now) == r.amount * (TotalUnits(r) - VestedUnits(r, 0, now))
  {
    VestedUnitsBounded(r, 0, now);
    var i := r.intervalSeconds;
    var t := TotalUnits(r);
    SubRemainder(r.endDate - r.startDate, i);
    assert r.endDate - r.startDate == t * i;
    var b := AlignedBoundary(now, r.startDate, i);
    var u := VestedUnits(r, 0, now);
    assert Horizon(now, r.endDate, 0) == now;
    SubRemainder(now - r.startDate, i);
    assert b - r.startDate == u * i;
    SubMul(t, u, i);
    assert r.endDate - b == (t - u) * i;
    assert CancelRefund(r, now) == Prorated(r.amount, r.endDate - b, i);
    RefundOfMultiple(r.amount, t - u, i);
  }

  lemma RefundOfMultiple(amount: nat, k: nat, i: nat)
    requires i > 0
    ensures Prorated(amount, k * i, i) == amount * k
  {
    assert amount * (k * i) == (amount * k) * i;
    MulDivCancel(amount * k, i);
  }

  /** A cancel before a release starts aborts as written, where the guarded
      refund returns the release's whole value. */
  lemma CancelBeforeStartAborts(r: Release, now: U64)
    requires WellFormed(r) && now < r.startDate
    ensures CancelRefundAsWritten(r, now) == Err(StartUnderflow)
    ensures CancelRefund(r, now) == FullValue(r) && TotalUnits(r) >= 1
  {
    CancelRefundIsUnvested(r, now);
    assert VestedUnits(r, 0, now) == 0;
    SubRemainder(r.endDate - r.startDate, r.intervalSeconds);
    assert r.endDate - r.startDate == TotalUnits(r) * r.intervalSeconds;
  }

  /** A concrete input: a release from 100 to 200 in intervals of 10 paying 5,
      cancelled at 50. */
  lemma CancelBeforeStartExample()
    ensures CancelRefundAsWritten(Release(100, 200, 10, 5), 50) == Err(StartUnderflow)
    ensures CancelRefund(Release(100, 200, 10, 5), 50) == 50
  {
    CancelBeforeStartAborts(Release(100, 200, 10, 5), 50);
  }

  /** `a - b` on u64 as a build without overflow checks computes it: the
      difference modulo 2^64. */
  function WrappingSub(a: U64, b: U64): (d: U64)
    ensures (b + d) % U64_LIMIT == a
    ensures a >= b ==> d == a - b
  {
    if a >= b then a - b else a + U64_LIMIT - b
  }

  /** Lines 248-252 when every u64 subtraction wraps instead of aborting. */
  function CancelRefundWrapping(r: Release, now: U64): nat
    requires Claimable(r)
  {
    if now >= r.endDate then 0
    else
      var currentDateInInterval := WrappingSub(now, WrappingSub(now, r.startDate) % r.intervalSeconds);
      var startDate := if currentDateInInterval > r.startDate then currentDateInInterval else r.startDate;
      var remainingTime := WrappingSub(r.endDate, startDate);
      Prorated(r.amount, remainingTime, r.intervalSeconds)
  }

  /** Without overflow checks, the code refunds the intended amount once the
      release has started, and before it too unless the wrapped remainder on
      line 249 exceeds the clock, which needs a clock below one interval. */
  lemma CancelRefundWrappingAgrees(r: Release, now: U64)
    requires Claimable(r)
    requires now >= r.startDate || WrappingSub(now, r.startDate) % r.intervalSeconds <= now
    ensures CancelRefundWrapping(r, now) == CancelRefund(r, now)
  {
    if now < r.endDate && now < r.startDate {
      var m := WrappingSub(now, r.startDate) % r.intervalSeconds;
      assert WrappingSub(now, m) == now - m < r.startDate;
    }
  }

  /** With a clock that small the wrapped code refunds the wrong amount:
      release 100..200, interval 10, amount 5, cancelled at time 1. */
  lemma CancelRefundWrappingNearZero()
    ensures CancelRefundWrapping(Release(100, 200, 10, 5), 1) == 103
    ensures CancelRefund(Release(100, 200, 10, 5), 1) == 50
  {
    assert WrappingSub(1, 100) % 10 == 7;
    assert WrappingSub(1, 7) == U64_LIMIT - 6;
    assert WrappingSub(200, U64_LIMIT - 6) == 206;
    CancelBeforeStartAborts(Release(100, 200, 10, 5), 1);
  }

  /** The refunds of every snapshot release, in order; the first underflow aborts. */
  function RefundsAsWritten(rs: seq<Release>, now: U64): (res: Result<seq<nat>, CancelError>)
    requires forall r <- rs :: Claimable(r)
    ensures res.Ok? <==> forall r <- rs :: now >= r.startDate
    ensures res.Ok? ==> |res.value| == |rs| && forall k :: 0 <= k < |rs| ==> res.value[k] == CancelRefund(rs[k], now)
  {
    if rs == [] then Ok([])
    else
      match RefundsAsWritten(rs[..|rs| - 1], now)
      case Err(e) => Err(e)
      case Ok(init) =>
        match CancelRefundAsWritten(rs[|rs| - 1], now)
        case Err(e) => Err(e)
        case Ok(refund) => Ok(init + [refund])
  }

  /** One release that has not started makes the whole refund abort. */
  lemma RefundsAbort(rs: seq<Release>, i: nat, now: U64)
    requires i < |rs| && forall r <- rs :: Claimable(r)
    requires now < rs[i].startDate
    ensures RefundsAsWritten(rs, now) == Err(StartUnderflow)
  {
    assert rs[i] in rs;
    var res := RefundsAsWritten(rs, now);
    assert !res.Ok?;
    assert res.error == StartUnderflow;
  }

  /** The refunds of the first `i + 1` releases extend those of the first `i`. */
  lemma RefundsStep(rs: seq<Release>, i: nat, now: U64)
    requires i < |rs| && forall r <- rs :: Claimable(r)
    ensures forall r <- rs[..i] :: Claimable(r)
    ensures RefundsAsWritten(rs[..i + 1], now)
            == match RefundsAsWritten(rs[..i], now)
               case Err(e) => Err(e)
               case Ok(init) =>
                 match CancelRefundAsWritten(rs[i], now)
                 case Err(e) => Err(e)
                 case Ok(refund) => Ok(init + [refund])
  {
    assert rs[..i + 1][..i] == rs[..i];
    assert forall r <- rs[..i + 1] :: r in rs;
  }
}
