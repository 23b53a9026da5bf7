/** The arithmetic and validation of create, and the titles it issues. */
module Creation {
  import opened PulsarTypes
  import opened Arith

  datatype CreateError =
    | NoReleases
    | NoReceivers
    | EndNotAfterStart
    | InvalidInterval
    | StartInPast
    | IntervalNotMultiple
      /** `1000u64 - fee` underflows: the fee rate is above 1000 per mille. */
    | FeeUnderflow
    | MinimumRateNotReached
    | AmountMismatch

  /** The request amount net of the fee, rounded down (line 61). */
  function PostTax(amount: nat, fee: nat): (r: nat)
    requires fee <= FEE_BASE
    ensures r <= amount
  {
    var r := amount * (FEE_BASE - fee) / FEE_BASE;
    MulLe(FEE_BASE - fee, FEE_BASE, amount);
    assert amount * (FEE_BASE - fee) <= amount * FEE_BASE;
    DivMonotone(amount * (FEE_BASE - fee), amount * FEE_BASE, FEE_BASE);
    MulDivCancel(amount, FEE_BASE);
    r
  }

  /** What each receiver is paid per interval, by floor divisions in the contract's order (line 63). */
  function PerInterval(postTax: nat, span: nat, receivers: nat, interval: nat): nat
    requires span > 0 && receivers > 0
  {
    postTax / span / receivers * interval
  }

  /** The net amount recomputed from the per-interval amount (line 69). */
  function PostTaxCalculated(perInterval: nat, span: nat, receivers: nat, interval: nat): nat
    requires interval > 0
  {
    perInterval * span * receivers / interval
  }

  /** The interval factor divides out again: the recomputed net amount is the
      per-second rate times the span times the receivers, and so never more than
      the net amount itself. */
  lemma RecomputedPostTaxExact(postTax: nat, span: nat, receivers: nat, interval: nat)
    requires span > 0 && receivers > 0 && interval > 0
    ensures PostTaxCalculated(PerInterval(postTax, span, receivers, interval), span, receivers, interval)
            == postTax / span / receivers * span * receivers
    ensures postTax / span / receivers * span * receivers <= postTax
  {
    var perSecond := postTax / span;
    var k := perSecond / receivers;
    Reorder(k, interval, span, receivers);
    MulDivCancel(k * span * receivers, interval);
    FloorMulLe(perSecond, receivers);
    FloorMulLe(postTax, span);
    MulLe(k * receivers, perSecond, span);
  }

  lemma Reorder(k: nat, interval: nat, span: nat, receivers: nat)
    ensures k * interval * span * receivers == (k * span * receivers) * interval
    ensures k * span * receivers == k * receivers * span
  {
  }

  /** Lines 56-59: what create checks of each request's dates and interval. */
  predicate RequestValid(req: Release, now: U64) {
    WellFormed(req) && req.startDate >= now
  }

  datatype Accepted = Accepted(release: Release, postTax: nat)

  /** One iteration of the request loop (lines 56-69). */
  function CheckRequest(req: Release, now: U64, fee: U64, receivers: nat, paymentAmount: nat): (res: Result<Accepted, CreateError>)
    requires receivers > 0
    ensures res.Ok? <==>
      RequestValid(req, now) && fee <= FEE_BASE
      && (paymentAmount == 1
          || PerInterval(PostTax(req.amount, fee), req.endDate - req.startDate, receivers, req.intervalSeconds) > MINIMUM_RATE)
  {
    if !(req.endDate > req.startDate) then Err(EndNotAfterStart)
    else if !(1 <= req.intervalSeconds <= MAX_INTERVAL_SECONDS) then Err(InvalidInterval)
    else if !(req.startDate >= now) then Err(StartInPast)
    else if (req.endDate - req.startDate) % req.intervalSeconds != 0 then Err(IntervalNotMultiple)
    else if fee > FEE_BASE then Err(FeeUnderflow)
    else
      var amountPostTax := PostTax(req.amount, fee);
      var span := req.endDate - req.startDate;
      var amountPerInterval := PerInterval(amountPostTax, span, receivers, req.intervalSeconds);
      if paymentAmount != 1 && amountPerInterval <= MINIMUM_RATE then Err(MinimumRateNotReached)
      else
        var calculated := PostTaxCalculated(amountPerInterval, span, receivers, req.intervalSeconds);
        Ok(Accepted(req.(amount := amountPerInterval), calculated))
  }

  /** An accepted request keeps its schedule with the per-interval amount of
      one receiver, and the receivers' full titles together hold the
      recomputed net amount, which is never more than the request's amount. */
  lemma AcceptedRequest(req: Release, now: U64, fee: U64, receivers: nat, paymentAmount: nat)
    requires receivers > 0
    requires CheckRequest(req, now, fee, receivers, paymentAmount).Ok?
    ensures var a := CheckRequest(req, now, fee, receivers, paymentAmount).value;
      && a.release == req.(amount := PerInterval(PostTax(req.amount, fee), req.endDate - req.startDate, receivers, req.intervalSeconds))
      && WellFormed(a.release)
      && FullValue(a.release) * receivers == a.postTax <= req.amount
  {
    var span := req.endDate - req.startDate;
    var amountPostTax := PostTax(req.amount, fee);
    var amountPerInterval := PerInterval(amountPostTax, span, receivers, req.intervalSeconds);
    var release := req.(amount := amountPerInterval);
    AcceptedValue(amountPostTax, span, receivers, req.intervalSeconds);
    assert FullValue(release) == amountPerInterval * (span / req.intervalSeconds);
  }

  /** A full title's share of one release, times the receivers, is the recomputed net amount. */
  lemma AcceptedValue(postTax: nat, span: nat, receivers: nat, interval: nat)
    requires span > 0 && receivers > 0 && interval > 0 && span % interval == 0
    ensures PerInterval(postTax, span, receivers, interval) * (span / interval) * receivers
            == PostTaxCalculated(PerInterval(postTax, span, receivers, interval), span, receivers, interval)
            <= postTax
  {
    RecomputedPostTaxExact(postTax, span, receivers, interval);
    var k := postTax / span / receivers;
    SubRemainder(span, interval);
    assert span == (span / interval) * interval;
    assert k * interval * (span / interval) * receivers == k * ((span / interval) * interval) * receivers;
  }

  function SumAmounts(reqs: seq<Release>): nat
  {
    if reqs == [] then 0 else SumAmounts(reqs[..|reqs| - 1]) + reqs[|reqs| - 1].amount
  }

  /** Running totals of the request loop. */
  datatype Batch = Batch(releases: seq<Release>, totalAmount: nat, totalPostTax: nat)

  /** `releases` holds the accepted form of every request in `reqs`, in order. */
  predicate AcceptedAll(reqs: seq<Release>, now: U64, fee: U64, receivers: nat, paymentAmount: nat, releases: seq<Release>)
    requires receivers > 0
  {
    && |releases| == |reqs|
    && (forall k :: 0 <= k < |reqs| ==>
          && CheckRequest(reqs[k], now, fee, receivers, paymentAmount).Ok?
          && releases[k] == CheckRequest(reqs[k], now, fee, receivers, paymentAmount).value.release)
  }

  /** `b` holds the accepted form of every request in `reqs`, in order, and its totals. */
  predicate BatchOf(reqs: seq<Release>, now: U64, fee: U64, receivers: nat, paymentAmount: nat, b: Batch)
    requires receivers > 0
  {
    && AcceptedAll(reqs, now, fee, receivers, paymentAmount, b.releases)
    && BatchTotals(reqs, receivers, b)
  }

  /** The totals of the request loop: the requested amounts, and the net amount
      the receivers' full titles hold together. */
  predicate BatchTotals(reqs: seq<Release>, receivers: nat, b: Batch) {
    && b.totalAmount == SumAmounts(reqs)
    && (forall r <- b.releases :: WellFormed(r))
    && (forall r <- b.releases :: Claimable(r))
    && TitleValue(b.releases) * receivers == b.totalPostTax <= b.totalAmount
  }

  /** The request loop (lines 55-80): the first rejected request aborts. */
  function BuildReleases(reqs: seq<Release>, now: U64, fee: U64, receivers: nat, paymentAmount: nat): (res: Result<Batch, CreateError>)
    requires receivers > 0
    ensures res.Ok? <==> forall k :: 0 <= k < |reqs| ==> CheckRequest(reqs[k], now, fee, receivers, paymentAmount).Ok?
  {
    if reqs == [] then Ok(Batch([], 0, 0))
    else
      var init := reqs[..|reqs| - 1];
      var req := reqs[|reqs| - 1];
      match BuildReleases(init, now, fee, receivers, paymentAmount)
      case Err(e) =>
        assert forall k :: 0 <= k < |init| ==> reqs[k] == init[k];
        Err(e)
      case Ok(b) =>
        match CheckRequest(req, now, fee, receivers, paymentAmount)
        case Err(e) => Err(e)
        case Ok(a) =>
          Ok(Batch(b.releases + [a.release], b.totalAmount + req.amount, b.totalPostTax + a.postTax))
  }

  /** An accepted batch holds the accepted form of every request and the totals of the loop. */
  lemma {:induction false} BuildReleasesBatch(reqs: seq<Release>, now: U64, fee: U64, receivers: nat, paymentAmount: nat)
    requires receivers > 0
    requires BuildReleases(reqs, now, fee, receivers, paymentAmount).Ok?
    ensures BatchOf(reqs, now, fee, receivers, paymentAmount, BuildReleases(reqs, now, fee, receivers, paymentAmount).value)
    decreases |reqs|
  {
    if reqs != [] {
      var init := reqs[..|reqs| - 1];
      BuildReleasesBatch(init, now, fee, receivers, paymentAmount);
      BatchStep(reqs, now, fee, receivers, paymentAmount,
                BuildReleases(init, now, fee, receivers, paymentAmount).value,
                CheckRequest(reqs[|reqs| - 1], now, fee, receivers, paymentAmount).value);
    }
  }

  /** One more accepted request extends the batch. */
  lemma BatchStep(reqs: seq<Release>, now: U64, fee: U64, receivers: nat, paymentAmount: nat, b: Batch, a: Accepted)
    requires receivers > 0 && reqs != []
    requires BatchOf(reqs[..|reqs| - 1], now, fee, receivers, paymentAmount, b)
    requires CheckRequest(reqs[|reqs| - 1], now, fee, receivers, paymentAmount) == Ok(a)
    ensures BatchOf(reqs, now, fee, receivers, paymentAmount,
                    Batch(b.releases + [a.release], b.totalAmount + reqs[|reqs| - 1].amount, b.totalPostTax + a.postTax))
  {
    AcceptedAllStep(reqs, now, fee, receivers, paymentAmount, b.releases, a);
    AcceptedRequest(reqs[|reqs| - 1], now, fee, receivers, paymentAmount);
    TotalsStep(reqs, receivers, b, a);
  }

  lemma TotalsStep(reqs: seq<Release>, receivers: nat, b: Batch, a: Accepted)
    requires reqs != []
    requires BatchTotals(reqs[..|reqs| - 1], receivers, b)
    requires WellFormed(a.release) && FullValue(a.release) * receivers == a.postTax <= reqs[|reqs| - 1].amount
    ensures BatchTotals(reqs, receivers, Batch(b.releases + [a.release], b.totalAmount + reqs[|reqs| - 1].amount, b.totalPostTax + a.postTax))
  {
    var releases := b.releases + [a.release];
    assert SumAmounts(reqs) == SumAmounts(reqs[..|reqs| - 1]) + reqs[|reqs| - 1].amount;
    assert forall r <- releases :: r in b.releases || r == a.release;
    AppendTitleValue(b.releases, a.release, receivers);
  }

  lemma AcceptedAllStep(reqs: seq<Release>, now: U64, fee: U64, receivers: nat, paymentAmount: nat,
                        releases: seq<Release>, a: Accepted)
    requires receivers > 0 && reqs != []
    requires AcceptedAll(reqs[..|reqs| - 1], now, fee, receivers, paymentAmount, releases)
    requires CheckRequest(reqs[|reqs| - 1], now, fee, receivers, paymentAmount) == Ok(a)
    ensures AcceptedAll(reqs, now, fee, receivers, paymentAmount, releases + [a.release])
  {
    var init := reqs[..|reqs| - 1];
    var extended := releases + [a.release];
    forall k | 0 <= k < |reqs|
      ensures CheckRequest(reqs[k], now, fee, receivers, paymentAmount).Ok?
      ensures extended[k] == CheckRequest(reqs[k], now, fee, receivers, paymentAmount).value.release
    {
      if k < |init| {
        assert reqs[k] == init[k] && extended[k] == releases[k];
      }
    }
  }

  lemma AppendTitleValue(rs: seq<Release>, r: Release, receivers: nat)
    requires forall x <- rs :: Claimable(x)
    requires Claimable(r)
    ensures forall x <- rs + [r] :: Claimable(x)
    ensures TitleValue(rs + [r]) * receivers == TitleValue(rs) * receivers + FullValue(r) * receivers
  {
    assert (rs + [r])[..|rs|] == rs;
  }

  /** One more request either aborts the loop with its error or extends the batch. */
  lemma BuildReleasesStep(reqs: seq<Release>, i: nat, now: U64, fee: U64, receivers: nat, paymentAmount: nat, b: Batch)
    requires receivers > 0 && i < |reqs|
    requires BuildReleases(reqs[..i], now, fee, receivers, paymentAmount) == Ok(b)
    ensures var c := CheckRequest(reqs[i], now, fee, receivers, paymentAmount);
      BuildReleases(reqs[..i + 1], now, fee, receivers, paymentAmount)
      == if c.Err? then Err(c.error)
         else Ok(Batch(b.releases + [c.value.release], b.totalAmount + reqs[i].amount, b.totalPostTax + c.value.postTax))
  {
    assert reqs[..i + 1][..i] == reqs[..i];
  }

  /** Once a prefix of the requests is rejected, so is the whole batch. */
  lemma {:induction false} BuildReleasesRejectsEarly(reqs: seq<Release>, i: nat, now: U64, fee: U64, receivers: nat, paymentAmount: nat)
    requires receivers > 0 && i <= |reqs|
    requires BuildReleases(reqs[..i], now, fee, receivers, paymentAmount).Err?
    ensures BuildReleases(reqs, now, fee, receivers, paymentAmount) == BuildReleases(reqs[..i], now, fee, receivers, paymentAmount)
    decreases |reqs|
  {
    if i < |reqs| {
      assert reqs[..|reqs| - 1][..i] == reqs[..i];
      BuildReleasesRejectsEarly(reqs[..|reqs| - 1], i, now, fee, receivers, paymentAmount);
    } else {
      assert reqs[..i] == reqs;
    }
  }

  /** Everything create checks before it makes any transfer (lines 49-82). */
  function CreateCheck(receivers: nat, reqs: seq<Release>, now: U64, fee: U64, amount: nat): (res: Result<Batch, CreateError>)
    ensures res.Ok? <==>
      && |reqs| > 0 && receivers > 0
      && (forall k :: 0 <= k < |reqs| ==> CheckRequest(reqs[k], now, fee, receivers, amount).Ok?)
      && SumAmounts(reqs) == amount
    ensures res.Ok? ==> forall r <- res.value.releases :: WellFormed(r)
    ensures res.Ok? ==> forall r <- res.value.releases :: Claimable(r)
    ensures res.Ok? ==> TitleValue(res.value.releases) * receivers == res.value.totalPostTax <= amount
  {
    if |reqs| == 0 then Err(NoReleases)
    else if receivers == 0 then Err(NoReceivers)
    else
      match BuildReleases(reqs, now, fee, receivers, amount)
      case Err(e) => Err(e)
      case Ok(b) =>
        BuildReleasesBatch(reqs, now, fee, receivers, amount);
        if amount != b.totalAmount then Err(AmountMismatch) else Ok(b)
  }

  /** The inputs create rejects with no effect. */
  lemma CreateRejects(receivers: nat, reqs: seq<Release>, now: U64, fee: U64, amount: nat, k: nat)
    requires k < |reqs|
    ensures receivers == 0 ==> CreateCheck(receivers, reqs, now, fee, amount).Err?
    ensures !RequestValid(reqs[k], now) ==> CreateCheck(receivers, reqs, now, fee, amount).Err?
    ensures fee > FEE_BASE ==> CreateCheck(receivers, reqs, now, fee, amount).Err?
    ensures receivers > 0 && fee <= FEE_BASE && amount != 1 && WellFormed(reqs[k])
            && PerInterval(PostTax(reqs[k].amount, fee), reqs[k].endDate - reqs[k].startDate, receivers, reqs[k].intervalSeconds) <= MINIMUM_RATE
            ==> CreateCheck(receivers, reqs, now, fee, amount).Err?
    ensures SumAmounts(reqs) != amount ==> CreateCheck(receivers, reqs, now, fee, amount).Err?
  {
    if receivers > 0 {
      assert CheckRequest(reqs[k], now, fee, receivers, amount).Ok? ==> RequestValid(reqs[k], now) && fee <= FEE_BASE;
    }
  }

  /** Lines 52-53: the window of the titles opens at the earliest start. */
  function MinStart(reqs: seq<Release>): (m: U64)
    requires |reqs| > 0
    ensures exists k :: 0 <= k < |reqs| && reqs[k].startDate == m
    ensures forall k :: 0 <= k < |reqs| ==> m <= reqs[k].startDate
  {
    if |reqs| == 1 then reqs[0].startDate
    else
      var m := MinStart(reqs[..|reqs| - 1]);
      var last := reqs[|reqs| - 1].startDate;
      if last < m then last else m
  }

  /** ... and closes at the latest end. */
  function MaxEnd(reqs: seq<Release>): (m: U64)
    requires |reqs| > 0
    ensures exists k :: 0 <= k < |reqs| && reqs[k].endDate == m
    ensures forall k :: 0 <= k < |reqs| ==> reqs[k].endDate <= m
  {
    if |reqs| == 1 then reqs[0].endDate
    else
      var m := MaxEnd(reqs[..|reqs| - 1]);
      var last := reqs[|reqs| - 1].endDate;
      if last > m then last else m
  }

  /** The cancellation title of a payment title: the same id, asset and releases. */
  function CancellationOf(p: Payment): Cancellation {
    Cancellation(p.identifier, p.releaseToken, p.releaseNonce, p.releases)
  }

  /** Lines 89-110 for one receiver: a payment title with the fresh id, and
      when cancelable a cancellation title for the caller. */
  function ReceiverEffects(id: nat, receiver: Address, template: Payment,
                           paymentTokenId: TokenIdentifier, cancelTokenId: TokenIdentifier, caller: Address): seq<Effect>
  {
    var payment := template.(identifier := id);
    [SendPaymentTitle(paymentTokenId, ONE_PAYMENT_TOKEN, payment, receiver)]
    + (if template.cancelable then [SendCancellationTitle(cancelTokenId, 1, CancellationOf(payment), caller)] else [])
  }

  /** The receiver loop, ids handed out from `lastId + 1` on. */
  function IssueTitles(lastId: nat, receivers: seq<Address>, template: Payment,
                       paymentTokenId: TokenIdentifier, cancelTokenId: TokenIdentifier, caller: Address): seq<Effect>
  {
    if receivers == [] then []
    else IssueTitles(lastId, receivers[..|receivers| - 1], template, paymentTokenId, cancelTokenId, caller)
         + ReceiverEffects(lastId + |receivers|, receivers[|receivers| - 1], template, paymentTokenId, cancelTokenId, caller)
  }

  /** The payment titles minted by a list of effects, in order. */
  function PaymentMints(effects: seq<Effect>): seq<Effect>
  {
    if effects == [] then []
    else
      var e := effects[|effects| - 1];
      PaymentMints(effects[..|effects| - 1]) + (if e.SendPaymentTitle? then [e] else [])
  }

  /** The cancellation titles minted by a list of effects, in order. */
  function CancellationMints(effects: seq<Effect>): seq<Effect>
  {
    if effects == [] then []
    else
      var e := effects[|effects| - 1];
      CancellationMints(effects[..|effects| - 1]) + (if e.SendCancellationTitle? then [e] else [])
  }

  lemma {:induction false} MintsAppend(a: seq<Effect>, b: seq<Effect>)
    ensures PaymentMints(a + b) == PaymentMints(a) + PaymentMints(b)
    ensures CancellationMints(a + b) == CancellationMints(a) + CancellationMints(b)
    decreases |b|
  {
    if b == [] {
      assert a + b == a;
    } else {
      assert (a + b)[..|a + b| - 1] == a + b[..|b| - 1];
      MintsAppend(a, b[..|b| - 1]);
    }
  }

  /** What one receiver's effects mint and pay. */
  lemma ReceiverEffectsShape(id: nat, receiver: Address, template: Payment,
                             paymentTokenId: TokenIdentifier, cancelTokenId: TokenIdentifier, caller: Address)
    ensures PaymentMints(ReceiverEffects(id, receiver, template, paymentTokenId, cancelTokenId, caller))
            == [SendPaymentTitle(paymentTokenId, ONE_PAYMENT_TOKEN, template.(identifier := id), receiver)]
    ensures template.cancelable ==>
              CancellationMints(ReceiverEffects(id, receiver, template, paymentTokenId, cancelTokenId, caller))
              == [SendCancellationTitle(cancelTokenId, 1, CancellationOf(template.(identifier := id)), caller)]
    ensures !template.cancelable ==>
              CancellationMints(ReceiverEffects(id, receiver, template, paymentTokenId, cancelTokenId, caller)) == []
  {
    var p := template.(identifier := id);
    var e1 := SendPaymentTitle(paymentTokenId, ONE_PAYMENT_TOKEN, p, receiver);
    var one := [e1];
    assert one[..0] == [];
    assert PaymentMints(one) == [e1];
    assert CancellationMints(one) == [];
    if template.cancelable {
      var e2 := SendCancellationTitle(cancelTokenId, 1, CancellationOf(p), caller);
      var two := [e1, e2];
      assert two[..1] == one;
      assert ReceiverEffects(id, receiver, template, paymentTokenId, cancelTokenId, caller) == two;
      assert PaymentMints(two) == [e1];
      assert CancellationMints(two) == [e2];
    } else {
      assert ReceiverEffects(id, receiver, template, paymentTokenId, cancelTokenId, caller) == one;
    }
  }

  /** The payment titles a create is meant to mint: one per receiver, numbered on from `lastId`. */
  function ExpectedPaymentTitles(lastId: nat, receivers: seq<Address>, template: Payment, paymentTokenId: TokenIdentifier): (ts: seq<Effect>)
    ensures |ts| == |receivers|
  {
    if receivers == [] then []
    else ExpectedPaymentTitles(lastId, receivers[..|receivers| - 1], template, paymentTokenId)
         + [SendPaymentTitle(paymentTokenId, ONE_PAYMENT_TOKEN, template.(identifier := lastId + |receivers|), receivers[|receivers| - 1])]
  }

  lemma {:induction false} ExpectedPaymentTitlesAt(lastId: nat, receivers: seq<Address>, template: Payment, paymentTokenId: TokenIdentifier, k: nat)
    requires k < |receivers|
    ensures ExpectedPaymentTitles(lastId, receivers, template, paymentTokenId)[k]
            == SendPaymentTitle(paymentTokenId, ONE_PAYMENT_TOKEN, template.(identifier := lastId + k + 1), receivers[k])
    decreases |receivers|
  {
    if k < |receivers| - 1 {
      ExpectedPaymentTitlesAt(lastId, receivers[..|receivers| - 1], template, paymentTokenId, k);
    }
  }

  /** Each receiver gets one full payment title, the k-th with id `lastId + k + 1`
      and otherwise the template's attributes. */
  lemma {:induction false} IssuedPaymentTitles(lastId: nat, receivers: seq<Address>, template: Payment,
                                               paymentTokenId: TokenIdentifier, cancelTokenId: TokenIdentifier, caller: Address)
    ensures PaymentMints(IssueTitles(lastId, receivers, template, paymentTokenId, cancelTokenId, caller))
            == ExpectedPaymentTitles(lastId, receivers, template, paymentTokenId)
    decreases |receivers|
  {
    if receivers != [] {
      var n := |receivers|;
      var init := receivers[..n - 1];
      var prev := IssueTitles(lastId, init, template, paymentTokenId, cancelTokenId, caller);
      var r := ReceiverEffects(lastId + n, receivers[n - 1], template, paymentTokenId, cancelTokenId, caller);
      var x := SendPaymentTitle(paymentTokenId, ONE_PAYMENT_TOKEN, template.(identifier := lastId + n), receivers[n - 1]);
      assert IssueTitles(lastId, receivers, template, paymentTokenId, cancelTokenId, caller) == prev + r;
      IssuedPaymentTitles(lastId, init, template, paymentTokenId, cancelTokenId, caller);
      MintsAppend(prev, r);
      ReceiverEffectsShape(lastId + n, receivers[n - 1], template, paymentTokenId, cancelTokenId, caller);
      assert PaymentMints(r) == [x];
      assert ExpectedPaymentTitles(lastId, receivers, template, paymentTokenId)
             == ExpectedPaymentTitles(lastId, init, template, paymentTokenId) + [x];
    }
  }

  /** The cancellation titles a cancelable create is meant to mint for the caller, numbered on from `lastId`. */
  function ExpectedCancellationTitles(lastId: nat, count: nat, template: Payment, cancelTokenId: TokenIdentifier, caller: Address): (ts: seq<Effect>)
    ensures |ts| == count
  {
    if count == 0 then []
    else ExpectedCancellationTitles(lastId, count - 1, template, cancelTokenId, caller)
         + [SendCancellationTitle(cancelTokenId, 1, CancellationOf(template.(identifier := lastId + count)), caller)]
  }

  lemma {:induction false} ExpectedCancellationTitlesAt(lastId: nat, count: nat, template: Payment, cancelTokenId: TokenIdentifier, caller: Address, k: nat)
    requires k < count
    ensures ExpectedCancellationTitles(lastId, count, template, cancelTokenId, caller)[k]
            == SendCancellationTitle(cancelTokenId, 1, CancellationOf(template.(identifier := lastId + k + 1)), caller)
    decreases count
  {
    if k < count - 1 {
      ExpectedCancellationTitlesAt(lastId, count - 1, template, cancelTokenId, caller, k);
    }
  }

  /** A cancellation title for each new id goes to the caller exactly when the
      payment is cancelable. */
  lemma {:induction false} IssuedCancellationTitles(lastId: nat, receivers: seq<Address>, template: Payment,
                                                    paymentTokenId: TokenIdentifier, cancelTokenId: TokenIdentifier, caller: Address)
    ensures CancellationMints(IssueTitles(lastId, receivers, template, paymentTokenId, cancelTokenId, caller))
            == if template.cancelable then ExpectedCancellationTitles(lastId, |receivers|, template, cancelTokenId, caller) else []
    decreases |receivers|
  {
    if receivers != [] {
      var n := |receivers|;
      var init := receivers[..n - 1];
      var prev := IssueTitles(lastId, init, template, paymentTokenId, cancelTokenId, caller);
      var r := ReceiverEffects(lastId + n, receivers[n - 1], template, paymentTokenId, cancelTokenId, caller);
      assert IssueTitles(lastId, receivers, template, paymentTokenId, cancelTokenId, caller) == prev + r;
      IssuedCancellationTitles(lastId, init, template, paymentTokenId, cancelTokenId, caller);
      MintsAppend(prev, r);
      ReceiverEffectsShape(lastId + n, receivers[n - 1], template, paymentTokenId, cancelTokenId, caller);
      if template.cancelable {
        var x := SendCancellationTitle(cancelTokenId, 1, CancellationOf(template.(identifier := lastId + n)), caller);
        assert CancellationMints(r) == [x];
        assert ExpectedCancellationTitles(lastId, n, template, cancelTokenId, caller)
               == ExpectedCancellationTitles(lastId, n - 1, template, cancelTokenId, caller) + [x];
      } else {
        assert CancellationMints(r) == [];
      }
    }
  }

  /** The ids of the titles one create issues are above `lastId`, distinct and strictly increasing. */
  lemma IssuedIdsIncrease(lastId: nat, receivers: seq<Address>, template: Payment,
                          paymentTokenId: TokenIdentifier, cancelTokenId: TokenIdentifier, caller: Address)
    ensures var mints := PaymentMints(IssueTitles(lastId, receivers, template, paymentTokenId, cancelTokenId, caller));
      && |mints| == |receivers|
      && (forall k :: 0 <= k < |mints| ==>
            mints[k] == SendPaymentTitle(paymentTokenId, ONE_PAYMENT_TOKEN, template.(identifier := lastId + k + 1), receivers[k]))
      && (forall k :: 0 <= k < |mints| ==> mints[k].SendPaymentTitle? && mints[k].attributes.identifier > lastId)
      && (forall j, k :: 0 <= j < k < |mints| ==> mints[j].attributes.identifier < mints[k].attributes.identifier)
  {
    IssuedPaymentTitles(lastId, receivers, template, paymentTokenId, cancelTokenId, caller);
    forall k | 0 <= k < |receivers| {
      ExpectedPaymentTitlesAt(lastId, receivers, template, paymentTokenId, k);
    }
  }

  /** The k-th new id has a cancellation title, for the caller, exactly when the payment is cancelable. */
  lemma CancellationTitlesIffCancelable(lastId: nat, receivers: seq<Address>, template: Payment,
                                        paymentTokenId: TokenIdentifier, cancelTokenId: TokenIdentifier, caller: Address)
    ensures var mints := CancellationMints(IssueTitles(lastId, receivers, template, paymentTokenId, cancelTokenId, caller));
      && |mints| == (if template.cancelable then |receivers| else 0)
      && forall k :: 0 <= k < |mints| ==>
           mints[k] == SendCancellationTitle(cancelTokenId, 1, CancellationOf(template.(identifier := lastId + k + 1)), caller)
  {
    IssuedCancellationTitles(lastId, receivers, template, paymentTokenId, cancelTokenId, caller);
    if template.cancelable {
      forall k | 0 <= k < |receivers| {
        ExpectedCancellationTitlesAt(lastId, |receivers|, template, cancelTokenId, caller, k);
      }
    }
  }

  /** The attributes shared by every payment title of one create (lines 90-103). */
  function TitleTemplate(paymentType: PaymentType, name: seq<bv8>, cancelable: bool, reqs: seq<Release>,
                         token: ReleaseToken, nonce: U64, caller: Address, batch: Batch): Payment
    requires |reqs| > 0
  {
    Payment(2, paymentType, 0, name, MinStart(reqs), MaxEnd(reqs), token, nonce, caller,
            batch.totalPostTax, cancelable, batch.releases)
  }

  /** Everything a successful create asks of the host: the fee to the owner, then the titles. */
  function CreateEffects(lastId: nat, receivers: seq<Address>, template: Payment, amount: nat,
                         owner: Address, paymentTokenId: TokenIdentifier, cancelTokenId: TokenIdentifier, caller: Address): seq<Effect>
    requires template.amount <= amount
  {
    PayEgldEsdt(template.releaseToken, template.releaseNonce, owner, amount - template.amount)
    + IssueTitles(lastId, receivers, template, paymentTokenId, cancelTokenId, caller)
  }

  /** The receiver loop only mints titles: it moves no funds. */
  lemma {:induction false} IssueTitlesMintsOnly(lastId: nat, receivers: seq<Address>, template: Payment,
                                                paymentTokenId: TokenIdentifier, cancelTokenId: TokenIdentifier, caller: Address)
    ensures forall e <- IssueTitles(lastId, receivers, template, paymentTokenId, cancelTokenId, caller) ::
              e.SendPaymentTitle? || e.SendCancellationTitle?
    decreases |receivers|
  {
    if receivers != [] {
      var n := |receivers|;
      IssueTitlesMintsOnly(lastId, receivers[..n - 1], template, paymentTokenId, cancelTokenId, caller);
    }
  }

  lemma IssueTitlesPaysNothing(lastId: nat, receivers: seq<Address>, template: Payment,
                               paymentTokenId: TokenIdentifier, cancelTokenId: TokenIdentifier, caller: Address, who: Address)
    ensures PaidTo(IssueTitles(lastId, receivers, template, paymentTokenId, cancelTokenId, caller), who) == 0
  {
    IssueTitlesMintsOnly(lastId, receivers, template, paymentTokenId, cancelTokenId, caller);
    NoTransferPaysNothing(IssueTitles(lastId, receivers, template, paymentTokenId, cancelTokenId, caller), who);
  }

  /** Nothing is created or lost: the fee paid to the owner plus what all the
      full titles hold is the payment. */
  lemma CreateConservesValue(receivers: seq<Address>, reqs: seq<Release>, now: U64, fee: U64, amount: nat,
                             batch: Batch, template: Payment, lastId: nat, owner: Address,
                             paymentTokenId: TokenIdentifier, cancelTokenId: TokenIdentifier, caller: Address)
    requires CreateCheck(|receivers|, reqs, now, fee, amount) == Ok(batch)
    requires template.amount == batch.totalPostTax
    ensures PaidTo(CreateEffects(lastId, receivers, template, amount, owner, paymentTokenId, cancelTokenId, caller), owner)
            + TitleValue(batch.releases) * |receivers| == amount
  {
    assert TitleValue(batch.releases) * |receivers| == batch.totalPostTax <= amount;
    var tax := PayEgldEsdt(template.releaseToken, template.releaseNonce, owner, amount - batch.totalPostTax);
    assert CreateEffects(lastId, receivers, template, amount, owner, paymentTokenId, cancelTokenId, caller)
           == tax + IssueTitles(lastId, receivers, template, paymentTokenId, cancelTokenId, caller);
    var titles := IssueTitles(lastId, receivers, template, paymentTokenId, cancelTokenId, caller);
    PaidToAppend(tax, titles, owner);
    IssueTitlesPaysNothing(lastId, receivers, template, paymentTokenId, cancelTokenId, caller, owner);
    PayEgldEsdtPays(template.releaseToken, template.releaseNonce, owner, amount - batch.totalPostTax);
  }
}
