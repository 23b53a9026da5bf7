/** The per-release claim rule (claim_release) and the claim over all the
    releases of one title (the loop of claim_payment), as pure functions. */
module ClaimRule {
  import opened PulsarTypes
  import opened Arith

  /** The earliest of `now`, the end date and the cancel date, zero values ignored. */
  function Horizon(now: U64, endDate: U64, cancelDate: U64): (h: U64)
    requires now > 0
    ensures h == now || h == endDate || h == cancelDate
    ensures 0 < h <= now
    ensures endDate > 0 ==> h <= endDate
    ensures cancelDate > 0 ==> h <= cancelDate
  {
    var a := if endDate > 0 && endDate < now then endDate else now;
    if cancelDate > 0 && cancelDate < a then cancelDate else a
  }

  /** The latest boundary `start + k * interval` at or before `now`. */
  function AlignedBoundary(now: U64, start: U64, interval: U64): (b: U64)
    requires start <= now && interval > 0
    ensures start <= b <= now
    ensures (b - start) % interval == 0
    ensures now - b < interval
  {
    BoundaryFacts(now, start, interval);
    now - (now - start) % interval
  }

  lemma BoundaryFacts(now: nat, start: nat, interval: nat)
    requires start <= now && interval > 0
    ensures (now - (now - start) % interval) - start >= 0
    ensures ((now - (now - start) % interval) - start) % interval == 0
  {
    var elapsed := now - start;
    SubRemainder(elapsed, interval);
    assert (now - (now - start) % interval) - start == elapsed - elapsed % interval;
  }

  /** A release whose start has moved to the last boundary before `now`. */
  function Advance(r: Release, now: U64): (s: Release)
    requires Claimable(r) && r.startDate + r.intervalSeconds <= now < r.endDate
    ensures AdvancedTo(r, s, now)
    ensures WellFormed(r) ==> WellFormed(s)
  {
    var s := r.(startDate := AlignedBoundary(now, r.startDate, r.intervalSeconds));
    assert s.startDate > r.startDate;
    assert WellFormed(r) ==> WellFormed(s) by {
      if WellFormed(r) {
        DivOfDifference(r.endDate - r.startDate, s.startDate - r.startDate, r.intervalSeconds);
      }
    }
    s
  }

  /** The release was cancelled at or before its start: it is dropped unpaid. */
  predicate CancelledBeforeStart(r: Release, cancelDate: U64) {
    cancelDate > 0 && cancelDate <= r.startDate
  }

  /** Whole intervals a claim at `now` counts: none before the start or when
      cancelled before it, otherwise those up to the horizon. */
  function VestedUnits(r: Release, cancelDate: U64, now: U64): nat
    requires Claimable(r)
  {
    if CancelledBeforeStart(r, cancelDate) || now <= r.startDate then 0
    else (Horizon(now, r.endDate, cancelDate) - r.startDate) / r.intervalSeconds
  }

  /** `s` is `r` with its start moved forward to the last boundary at or before `now`. */
  predicate AdvancedTo(r: Release, s: Release, now: U64) {
    && s.endDate == r.endDate && s.intervalSeconds == r.intervalSeconds && s.amount == r.amount
    && r.startDate < s.startDate <= now < s.endDate
    && r.intervalSeconds > 0
    && (s.startDate - r.startDate) % r.intervalSeconds == 0
    && now - s.startDate < r.intervalSeconds
  }

  /** The share of `units` intervals of `amount` owed to a holder of quantity `q` (line 204). */
  function ProRata(q: nat, units: nat, amount: nat): nat {
    q * units * amount / ONE_PAYMENT_TOKEN
  }

  datatype ClaimOutcome = ClaimOutcome(survivor: Option<Release>, payout: nat)

  /** A claim of quantity `q` on one release at `now`, with the ledger's cancel date. */
  function ClaimRelease(r: Release, q: nat, cancelDate: U64, now: U64): (o: ClaimOutcome)
    requires Claimable(r)
    ensures o.payout == ProRata(q, VestedUnits(r, cancelDate, now), r.amount)
    ensures o.survivor.Some? <==>
      !CancelledBeforeStart(r, cancelDate)
      && (VestedUnits(r, cancelDate, now) == 0 || (cancelDate == 0 && now < r.endDate))
    ensures o.survivor.Some? && VestedUnits(r, cancelDate, now) == 0 ==> o.survivor.value == r
    ensures o.survivor.Some? && VestedUnits(r, cancelDate, now) > 0 ==> AdvancedTo(r, o.survivor.value, now)
    ensures o.survivor.Some? ==> Claimable(o.survivor.value)
    ensures o.survivor.Some? && WellFormed(r) ==> WellFormed(o.survivor.value)
  {
    if CancelledBeforeStart(r, cancelDate) then ClaimOutcome(None, 0)
    else if now <= r.startDate then ClaimOutcome(Some(r), 0)
    else
      var claimableIntervals := VestedUnits(r, cancelDate, now);
      if claimableIntervals == 0 then ClaimOutcome(Some(r), 0)
      else
        var claimableAmount := ProRata(q, claimableIntervals, r.amount);
        if cancelDate == 0 && now < r.endDate then
          OneIntervalElapsed(r.startDate, Horizon(now, r.endDate, cancelDate), r.intervalSeconds);
          var s := Advance(r, now);
          ClaimOutcome(Some(s), claimableAmount)
        else ClaimOutcome(None, claimableAmount)
  }

  /** At least one whole interval lies between `start` and `h`. */
  lemma OneIntervalElapsed(start: nat, h: nat, interval: nat)
    requires start <= h && interval > 0 && (h - start) / interval > 0
    ensures start + interval <= h
  {
    if h - start < interval {
      DivUnique(h - start, interval, 0, h - start);
    }
  }

  /** The value a full title still holds in an optional release. */
  function RemainingValue(o: Option<Release>): nat
    requires o.Some? ==> Claimable(o.value)
  {
    if o.Some? then FullValue(o.value) else 0
  }

  /** Claimed intervals never exceed the release, and never reach past the horizon. */
  lemma VestedUnitsBounded(r: Release, cancelDate: U64, now: U64)
    requires WellFormed(r)
    ensures VestedUnits(r, cancelDate, now) <= TotalUnits(r)
    ensures now > r.startDate && !CancelledBeforeStart(r, cancelDate) ==>
      r.startDate + VestedUnits(r, cancelDate, now) * r.intervalSeconds <= Horizon(now, r.endDate, cancelDate)
  {
    if !CancelledBeforeStart(r, cancelDate) && now > r.startDate {
      var h := Horizon(now, r.endDate, cancelDate);
      DivMonotone(h - r.startDate, r.endDate - r.startDate, r.intervalSeconds);
      SubRemainder(h - r.startDate, r.intervalSeconds);
    }
  }

  /** After the end date, or after a nonzero cancel date, the moment of the claim no longer matters. */
  function Cap(r: Release, cancelDate: U64): U64 {
    if cancelDate > 0 && cancelDate < r.endDate then cancelDate else r.endDate
  }

  lemma ClaimIgnoresTimePastCap(r: Release, q: nat, cancelDate: U64, t1: U64, t2: U64)
    requires Claimable(r)
    requires Cap(r, cancelDate) <= t1 && Cap(r, cancelDate) <= t2
    ensures ClaimRelease(r, q, cancelDate, t1) == ClaimRelease(r, q, cancelDate, t2)
  {
    if !CancelledBeforeStart(r, cancelDate) {
      assert Horizon(t1, r.endDate, cancelDate) == Cap(r, cancelDate);
      assert Horizon(t2, r.endDate, cancelDate) == Cap(r, cancelDate);
    }
  }

  /** A full title is paid the per-interval amount for every counted interval. */
  lemma FullTitlePayout(r: Release, cancelDate: U64, now: U64)
    requires Claimable(r)
    ensures ClaimRelease(r, ONE_PAYMENT_TOKEN, cancelDate, now).payout == VestedUnits(r, cancelDate, now) * r.amount
  {
    var u := VestedUnits(r, cancelDate, now);
    assert ONE_PAYMENT_TOKEN * u * r.amount == (u * r.amount) * ONE_PAYMENT_TOKEN;
    MulDivCancel(u * r.amount, ONE_PAYMENT_TOKEN);
  }

  /** Once the end date has passed on a title that was not cancelled, a claim
      pays every remaining interval and drops the release. */
  lemma ClaimAfterEndExhausts(r: Release, q: nat, now: U64)
    requires WellFormed(r) && now >= r.endDate
    ensures VestedUnits(r, 0, now) == TotalUnits(r) >= 1
    ensures ClaimRelease(r, q, 0, now).survivor == None
    ensures ClaimRelease(r, q, 0, now).payout == q * TotalUnits(r) * r.amount / ONE_PAYMENT_TOKEN
  {
    assert Horizon(now, r.endDate, 0) == r.endDate;
    DivMonotone(r.intervalSeconds, r.endDate - r.startDate, r.intervalSeconds);
    MulDivCancel(1, r.intervalSeconds);
  }

  /** On a full title that was not cancelled, a claim moves value from the
      release to the holder and loses none of it. */
  lemma ClaimConservesValue(r: Release, now: U64)
    requires WellFormed(r)
    ensures var o := ClaimRelease(r, ONE_PAYMENT_TOKEN, 0, now);
      o.payout + RemainingValue(o.survivor) == FullValue(r)
  {
    var o := ClaimRelease(r, ONE_PAYMENT_TOKEN, 0, now);
    var u := VestedUnits(r, 0, now);
    FullTitlePayout(r, 0, now);
    if o.survivor.Some? && u > 0 {
      AdvancedValue(r, o.survivor.value, now);
      Distribute(u, r.amount, TotalUnits(r));
    } else if o.survivor.None? {
      ClaimAfterEndExhausts(r, ONE_PAYMENT_TOKEN, now);
    }
  }

  lemma Distribute(u: nat, a: nat, t: nat)
    requires u <= t
    ensures u * a + a * (t - u) == a * t
  {
  }

  /** The advanced release holds the intervals the claim did not count. */
  lemma AdvancedValue(r: Release, s: Release, now: U64)
    requires WellFormed(r) && AdvancedTo(r, s, now)
    ensures now > r.startDate && VestedUnits(r, 0, now) <= TotalUnits(r)
    ensures FullValue(s) == r.amount * (TotalUnits(r) - VestedUnits(r, 0, now))
  {
    var i := r.intervalSeconds;
    var u := VestedUnits(r, 0, now);
    assert Horizon(now, r.endDate, 0) == now;
    SubRemainder(s.startDate - r.startDate, i);
    var k := (s.startDate - r.startDate) / i;
    DivUnique(now - r.startDate, i, k, now - s.startDate);
    assert u == k;
    DivOfDifference(r.endDate - r.startDate, s.startDate - r.startDate, i);
  }

  /** Holders of two parts of one full title together receive what the full
      title would, less at most one unit of rounding. */
  lemma SplitTitleLosesAtMostOneUnit(r: Release, q1: nat, q2: nat, cancelDate: U64, now: U64)
    requires Claimable(r) && q1 + q2 == ONE_PAYMENT_TOKEN
    ensures var full := ClaimRelease(r, ONE_PAYMENT_TOKEN, cancelDate, now).payout;
      var part := ClaimRelease(r, q1, cancelDate, now).payout + ClaimRelease(r, q2, cancelDate, now).payout;
      full - 1 <= part <= full
  {
    var x := VestedUnits(r, cancelDate, now) * r.amount;
    FullTitlePayout(r, cancelDate, now);
    assert q1 * VestedUnits(r, cancelDate, now) * r.amount == q1 * x;
    assert q2 * VestedUnits(r, cancelDate, now) * r.amount == q2 * x;
    assert q1 * x + q2 * x == x * ONE_PAYMENT_TOKEN;
    SplitFloor(q1 * x, q2 * x, ONE_PAYMENT_TOKEN, x);
  }

  datatype Settlement = Settlement(survivors: seq<Release>, payouts: seq<nat>)

  /** The claim over every release of a title, in order: one payout per
      release, and the releases that survive. */
  function ClaimAll(rs: seq<Release>, q: nat, cancelDate: U64, now: U64): (s: Settlement)
    requires forall r <- rs :: Claimable(r)
    ensures |s.payouts| == |rs| && |s.survivors| <= |rs|
    ensures forall k :: 0 <= k < |rs| ==> s.payouts[k] == ClaimRelease(rs[k], q, cancelDate, now).payout
    ensures forall r <- s.survivors :: Claimable(r)
    ensures (forall r <- rs :: WellFormed(r)) ==> forall r <- s.survivors :: WellFormed(r)
  {
    if rs == [] then Settlement([], [])
    else
      var init := ClaimAll(rs[..|rs| - 1], q, cancelDate, now);
      var o := ClaimRelease(rs[|rs| - 1], q, cancelDate, now);
      var survivors := if o.survivor.Some? then init.survivors + [o.survivor.value] else init.survivors;
      Settlement(survivors, init.payouts + [o.payout])
  }

  /** The claim over the first `i + 1` releases extends the claim over the first `i`. */
  lemma ClaimAllStep(rs: seq<Release>, i: nat, q: nat, cancelDate: U64, now: U64)
    requires i < |rs| && forall r <- rs :: Claimable(r)
    ensures forall r <- rs[..i] :: Claimable(r)
    ensures var init := ClaimAll(rs[..i], q, cancelDate, now);
      var o := ClaimRelease(rs[i], q, cancelDate, now);
      ClaimAll(rs[..i + 1], q, cancelDate, now)
      == Settlement(if o.survivor.Some? then init.survivors + [o.survivor.value] else init.survivors,
                    init.payouts + [o.payout])
  {
    assert rs[..i + 1][..i] == rs[..i];
    assert forall r <- rs[..i + 1] :: r in rs;
  }

  /** The values of the present entries of `os`, in order. */
  function Kept(os: seq<Option<Release>>): seq<Release>
  {
    if os == [] then []
    else if os[|os| - 1].Some? then Kept(os[..|os| - 1]) + [os[|os| - 1].value]
    else Kept(os[..|os| - 1])
  }

  /** `idx` lists, increasing, the positions of the present entries of `os`,
      and `Kept(os)` holds their values in that order. */
  lemma {:induction false} KeptIndices(os: seq<Option<Release>>) returns (idx: seq<nat>)
    ensures |idx| == |Kept(os)|
    ensures forall j :: 0 <= j < |idx| ==> idx[j] < |os| && os[idx[j]] == Some(Kept(os)[j])
    ensures forall j, j' :: 0 <= j < j' < |idx| ==> idx[j] < idx[j']
    ensures forall k :: 0 <= k < |os| ==> (k in idx <==> os[k].Some?)
  {
    if os == [] {
      idx := [];
    } else {
      var n := |os| - 1;
      var init := os[..n];
      var idx0 := KeptIndices(init);
      if os[n].Some? {
        idx := idx0 + [n];
        assert Kept(os) == Kept(init) + [os[n].value];
      } else {
        idx := idx0;
        assert Kept(os) == Kept(init);
      }
      forall j | 0 <= j < |idx0|
        ensures idx[j] == idx0[j] && os[idx[j]] == init[idx0[j]]
      {
      }
      forall k | 0 <= k < |os|
        ensures k in idx <==> os[k].Some?
      {
        if k < n {
          assert os[k] == init[k];
        }
      }
    }
  }

  /** What the claim of each release leaves, in order. */
  function SurvivorOutcomes(rs: seq<Release>, q: nat, cancelDate: U64, now: U64): (os: seq<Option<Release>>)
    requires forall r <- rs :: Claimable(r)
    ensures |os| == |rs|
    ensures forall k :: 0 <= k < |rs| ==> os[k] == ClaimRelease(rs[k], q, cancelDate, now).survivor
  {
    if rs == [] then []
    else SurvivorOutcomes(rs[..|rs| - 1], q, cancelDate, now) + [ClaimRelease(rs[|rs| - 1], q, cancelDate, now).survivor]
  }

  /** The survivors of a claim are the outcomes that are present, in order. */
  lemma {:induction false} ClaimAllKept(rs: seq<Release>, q: nat, cancelDate: U64, now: U64)
    requires forall r <- rs :: Claimable(r)
    ensures ClaimAll(rs, q, cancelDate, now).survivors == Kept(SurvivorOutcomes(rs, q, cancelDate, now))
  {
    if rs != [] {
      var init := rs[..|rs| - 1];
      assert forall r <- init :: r in rs;
      ClaimAllKept(init, q, cancelDate, now);
      var os := SurvivorOutcomes(rs, q, cancelDate, now);
      assert os[..|os| - 1] == SurvivorOutcomes(init, q, cancelDate, now);
    }
  }

  /** The reissued title keeps exactly the releases whose own claim leaves a
      survivor, each replaced by that survivor, in their original order:
      `idx` lists the positions of the surviving releases, increasing. */
  lemma ClaimAllSurvivors(rs: seq<Release>, q: nat, cancelDate: U64, now: U64)
    returns (idx: seq<nat>)
    requires forall r <- rs :: Claimable(r)
    ensures |idx| == |ClaimAll(rs, q, cancelDate, now).survivors|
    ensures forall j :: 0 <= j < |idx| ==> idx[j] < |rs|
    ensures forall j, j' :: 0 <= j < j' < |idx| ==> idx[j] < idx[j']
    ensures forall j :: 0 <= j < |idx| ==>
      ClaimRelease(rs[idx[j]], q, cancelDate, now).survivor == Some(ClaimAll(rs, q, cancelDate, now).survivors[j])
    ensures forall k :: 0 <= k < |rs| ==> (k in idx <==> ClaimRelease(rs[k], q, cancelDate, now).survivor.Some?)
  {
    ClaimAllKept(rs, q, cancelDate, now);
    idx := KeptIndices(SurvivorOutcomes(rs, q, cancelDate, now));
  }

  /** A claim before any release starts pays nothing and keeps the title as it is. */
  lemma {:induction false} ClaimAllBeforeStart(rs: seq<Release>, q: nat, cancelDate: U64, now: U64)
    requires forall r <- rs :: Claimable(r)
    requires forall r <- rs :: now <= r.startDate && !CancelledBeforeStart(r, cancelDate)
    ensures ClaimAll(rs, q, cancelDate, now).survivors == rs
    ensures Sum(ClaimAll(rs, q, cancelDate, now).payouts) == 0
  {
    if rs != [] {
      var n := |rs| - 1;
      var init := rs[..n];
      var last := rs[n];
      assert forall r <- init :: r in rs;
      ClaimAllBeforeStart(init, q, cancelDate, now);
      assert last in rs;
      var o := ClaimRelease(last, q, cancelDate, now);
      assert VestedUnits(last, cancelDate, now) == 0;
      assert o.payout == 0 by {
        assert ProRata(q, 0, last.amount) == 0;
      }
      assert o.survivor == Some(last);
      var s0 := ClaimAll(init, q, cancelDate, now);
      var s := ClaimAll(rs, q, cancelDate, now);
      assert s.survivors == s0.survivors + [last];
      assert s.payouts == s0.payouts + [0];
      PrefixSnoc(rs);
      assert s.payouts[..n] == s0.payouts;
    }
  }

  /** On a full title that was not cancelled, the payouts of one claim plus
      what the reissued title holds is what the presented title held. */
  lemma {:induction false} ClaimAllConservesValue(rs: seq<Release>, now: U64)
    requires forall r <- rs :: WellFormed(r)
    ensures forall r <- rs :: Claimable(r)
    ensures var s := ClaimAll(rs, ONE_PAYMENT_TOKEN, 0, now);
      Sum(s.payouts) + TitleValue(s.survivors) == TitleValue(rs)
  {
    if rs != [] {
      var init := rs[..|rs| - 1];
      var last := rs[|rs| - 1];
      assert forall r <- init :: r in rs;
      ClaimAllConservesValue(init, now);
      ClaimConservesValue(last, now);
      var s := ClaimAll(rs, ONE_PAYMENT_TOKEN, 0, now);
      var s0 := ClaimAll(init, ONE_PAYMENT_TOKEN, 0, now);
      var o := ClaimRelease(last, ONE_PAYMENT_TOKEN, 0, now);
      assert s.payouts[..|s.payouts| - 1] == s0.payouts;
      if o.survivor.Some? {
        assert s.survivors[..|s.survivors| - 1] == s0.survivors;
      }
    }
  }
}
