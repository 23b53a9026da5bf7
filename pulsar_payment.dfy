/** The contract's storage and endpoints: create, claim and cancel.

    Storage is the fields of `Contract`; what the contract asks of the host
    ledger (transfers, mints of titles, burns) is appended to `log`. The block
    timestamp and the caller are parameters, and so are the attributes the
    contract decodes from a presented title. A `require!` that fails, or an
    arithmetic panic, reverts the whole call: such a call returns `Fail` and
    leaves every field as it was. */
module PulsarPayment {
  import opened PulsarTypes
  import opened ClaimRule
  import opened CancelRule
  import opened Creation

  /** Why an endpoint call reverts. */
  datatype CallError =
    | CreateRejected(createError: CreateError)
    | InvalidPaymentToken
    | InvalidCancellationToken
    | CancelRejected(cancelError: CancelError)

  /** A missing cancel_list entry reads as 0: not cancelled. */
  function CancelDateIn(cancelList: map<nat, U64>, id: nat): U64 {
    if id in cancelList then cancelList[id] else 0
  }

  /** What claim_payment asks of the host for one presented title: the payouts,
      the burn of the presented quantity, and a reissued title holding the
      surviving releases, if any. */
  function ClaimEffects(paymentTokenId: TokenIdentifier, cancelList: map<nat, U64>, transfer: EsdtTransfer,
                        payment: Payment, now: U64, caller: Address): seq<Effect>
    requires forall r <- payment.releases :: Claimable(r)
  {
    var s := ClaimAll(payment.releases, transfer.amount, CancelDateIn(cancelList, payment.identifier), now);
    PayAll(payment.releaseToken, payment.releaseNonce, caller, s.payouts)
    + [Burn(transfer.token, transfer.nonce, transfer.amount)]
    + (if s.survivors != []
       then [SendPaymentTitle(paymentTokenId, transfer.amount, payment.(releases := s.survivors), caller)]
       else [])
  }

  /** claim_payment over every presented title, in order. */
  function ClaimBatchEffects(paymentTokenId: TokenIdentifier, cancelList: map<nat, U64>, transfers: seq<EsdtTransfer>,
                             titles: seq<Payment>, now: U64, caller: Address): seq<Effect>
    requires |titles| == |transfers|
    requires forall p <- titles :: forall r <- p.releases :: Claimable(r)
  {
    if transfers == [] then []
    else
      var n := |transfers|;
      assert titles[n - 1] in titles;
      ClaimBatchEffects(paymentTokenId, cancelList, transfers[..n - 1], titles[..n - 1], now, caller)
      + ClaimEffects(paymentTokenId, cancelList, transfers[n - 1], titles[n - 1], now, caller)
  }

  /** What cancel_internal asks of the host once every refund is computed: the
      refunds, then the burn of the cancellation title. */
  function CancelEffects(transfer: EsdtTransfer, cancellation: Cancellation, refunds: seq<nat>, caller: Address): seq<Effect>
  {
    PayAll(cancellation.releaseToken, cancellation.releaseNonce, caller, refunds)
    + [Burn(transfer.token, transfer.nonce, transfer.amount)]
  }

  /** The snapshot can be cancelled at `now` without an underflow. */
  predicate Cancellable(c: Cancellation, now: U64)
    requires forall r <- c.releases :: Claimable(r)
  {
    RefundsAsWritten(c.releases, now).Ok?
  }

  /** cancel_internal over every presented cancellation title, in order. */
  function CancelBatchEffects(transfers: seq<EsdtTransfer>, cancellations: seq<Cancellation>, now: U64, caller: Address): seq<Effect>
    requires |cancellations| == |transfers|
    requires forall c <- cancellations :: forall r <- c.releases :: Claimable(r)
    requires forall c <- cancellations :: Cancellable(c, now)
  {
    if transfers == [] then []
    else
      var n := |transfers|;
      var c := cancellations[n - 1];
      assert c in cancellations && Cancellable(c, now);
      CancelBatchEffects(transfers[..n - 1], cancellations[..n - 1], now, caller)
      + CancelEffects(transfers[n - 1], c, RefundsAsWritten(c.releases, now).value, caller)
  }

  /** cancel_list after a batch of cancellations at `now`. */
  function CancelListAfter(cancelList: map<nat, U64>, cancellations: seq<Cancellation>, now: U64): (m: map<nat, U64>)
    ensures forall c <- cancellations :: c.paymentIdentifier in m && m[c.paymentIdentifier] == now
    ensures forall id :: id in m ==> id in cancelList || exists c <- cancellations :: c.paymentIdentifier == id
    ensures forall id :: id in cancelList && (forall c <- cancellations :: c.paymentIdentifier != id) ==>
              id in m && m[id] == cancelList[id]
  {
    if cancellations == [] then cancelList
    else
      var n := |cancellations|;
      assert forall c <- cancellations[..n - 1] :: c in cancellations;
      CancelListAfter(cancelList, cancellations[..n - 1], now)[cancellations[n - 1].paymentIdentifier := now]
  }

  lemma ClaimBatchStep(paymentTokenId: TokenIdentifier, cancelList: map<nat, U64>, transfers: seq<EsdtTransfer>,
                       titles: seq<Payment>, now: U64, caller: Address, k: nat)
    requires |titles| == |transfers| && k < |transfers|
    requires forall p <- titles :: forall r <- p.releases :: Claimable(r)
    ensures forall p <- titles[..k] :: forall r <- p.releases :: Claimable(r)
    ensures forall r <- titles[k].releases :: Claimable(r)
    ensures ClaimBatchEffects(paymentTokenId, cancelList, transfers[..k + 1], titles[..k + 1], now, caller)
            == ClaimBatchEffects(paymentTokenId, cancelList, transfers[..k], titles[..k], now, caller)
               + ClaimEffects(paymentTokenId, cancelList, transfers[k], titles[k], now, caller)
  {
    assert titles[k] in titles;
    assert forall p <- titles[..k + 1] :: p in titles;
    assert transfers[..k + 1][..k] == transfers[..k];
    assert titles[..k + 1][..k] == titles[..k];
  }

  lemma CancelBatchStep(transfers: seq<EsdtTransfer>, cancellations: seq<Cancellation>, cancelList: map<nat, U64>,
                        now: U64, caller: Address, k: nat)
    requires |cancellations| == |transfers| && k < |transfers|
    requires forall c <- cancellations :: forall r <- c.releases :: Claimable(r)
    requires forall c <- cancellations[..k] :: Cancellable(c, now)
    requires Cancellable(cancellations[k], now)
    ensures forall c <- cancellations[..k + 1] :: Cancellable(c, now)
    ensures CancelBatchEffects(transfers[..k + 1], cancellations[..k + 1], now, caller)
            == CancelBatchEffects(transfers[..k], cancellations[..k], now, caller)
               + CancelEffects(transfers[k], cancellations[k], RefundsAsWritten(cancellations[k].releases, now).value, caller)
    ensures CancelListAfter(cancelList, cancellations[..k + 1], now)
            == CancelListAfter(cancelList, cancellations[..k], now)[cancellations[k].paymentIdentifier := now]
  {
    assert cancellations[k] in cancellations;
    assert forall c <- cancellations[..k + 1] :: c in cancellations;
    assert cancellations[..k + 1] == cancellations[..k] + [cancellations[k]];
    assert transfers[..k + 1][..k] == transfers[..k];
    assert cancellations[..k + 1][..k] == cancellations[..k];
  }

  /** The burn and the reissued title move no funds. */
  lemma ClaimTailPaysNothing(paymentTokenId: TokenIdentifier, transfer: EsdtTransfer, payment: Payment,
                             survivors: seq<Release>, caller: Address, who: Address)
    ensures PaidTo([Burn(transfer.token, transfer.nonce, transfer.amount)]
                   + (if survivors != [] then [SendPaymentTitle(paymentTokenId, transfer.amount, payment.(releases := survivors), caller)] else []),
                   who) == 0
  {
    NoTransferPaysNothing([Burn(transfer.token, transfer.nonce, transfer.amount)]
                          + (if survivors != [] then [SendPaymentTitle(paymentTokenId, transfer.amount, payment.(releases := survivors), caller)] else []),
                          who);
  }

  /** claim_payment pays the caller the sum of the release claims, and nobody else anything. */
  lemma ClaimPaysCaller(paymentTokenId: TokenIdentifier, cancelList: map<nat, U64>, transfer: EsdtTransfer,
                        payment: Payment, now: U64, caller: Address, other: Address)
    requires forall r <- payment.releases :: Claimable(r)
    requires other != caller
    ensures PaidTo(ClaimEffects(paymentTokenId, cancelList, transfer, payment, now, caller), caller)
            == Sum(ClaimAll(payment.releases, transfer.amount, CancelDateIn(cancelList, payment.identifier), now).payouts)
    ensures PaidTo(ClaimEffects(paymentTokenId, cancelList, transfer, payment, now, caller), other) == 0
  {
    var s := ClaimAll(payment.releases, transfer.amount, CancelDateIn(cancelList, payment.identifier), now);
    var paid := PayAll(payment.releaseToken, payment.releaseNonce, caller, s.payouts);
    var tail := [Burn(transfer.token, transfer.nonce, transfer.amount)]
                + (if s.survivors != [] then [SendPaymentTitle(paymentTokenId, transfer.amount, payment.(releases := s.survivors), caller)] else []);
    AppendAssoc(paid, [Burn(transfer.token, transfer.nonce, transfer.amount)],
                if s.survivors != [] then [SendPaymentTitle(paymentTokenId, transfer.amount, payment.(releases := s.survivors), caller)] else []);
    assert ClaimEffects(paymentTokenId, cancelList, transfer, payment, now, caller) == paid + tail;
    PayAllPaysSum(payment.releaseToken, payment.releaseNonce, caller, s.payouts);
    ClaimTailPaysNothing(paymentTokenId, transfer, payment, s.survivors, caller, caller);
    ClaimTailPaysNothing(paymentTokenId, transfer, payment, s.survivors, caller, other);
    PaidToAppend(paid, tail, caller);
    PaidToAppend(paid, tail, other);
    NoTransferPaysNothing(paid, other);
  }

  /** A full title claimed on a payment that was never cancelled splits its
      value exactly: what the caller is paid plus what the reissued title holds
      is what the presented title held. */
  lemma FullTitleClaimConservesValue(paymentTokenId: TokenIdentifier, cancelList: map<nat, U64>, transfer: EsdtTransfer,
                                     payment: Payment, now: U64, caller: Address)
    requires forall r <- payment.releases :: WellFormed(r)
    requires transfer.amount == ONE_PAYMENT_TOKEN && payment.identifier !in cancelList
    ensures forall r <- payment.releases :: Claimable(r)
    ensures var s := ClaimAll(payment.releases, ONE_PAYMENT_TOKEN, 0, now);
      PaidTo(ClaimEffects(paymentTokenId, cancelList, transfer, payment, now, caller), caller) + TitleValue(s.survivors)
      == TitleValue(payment.releases)
  {
    ClaimAllConservesValue(payment.releases, now);
    ClaimPaysCaller(paymentTokenId, cancelList, transfer, payment, now, caller, caller + [0]);
  }

  /** A claim before any release starts pays nothing: it burns the presented
      title and reissues it unchanged. */
  lemma ClaimBeforeStartReissues(paymentTokenId: TokenIdentifier, cancelList: map<nat, U64>, transfer: EsdtTransfer,
                                 payment: Payment, now: U64, caller: Address)
    requires payment.releases != []
    requires forall r <- payment.releases :: Claimable(r)
    requires forall r <- payment.releases ::
               now <= r.startDate && !CancelledBeforeStart(r, CancelDateIn(cancelList, payment.identifier))
    ensures ClaimEffects(paymentTokenId, cancelList, transfer, payment, now, caller)
            == [Burn(transfer.token, transfer.nonce, transfer.amount), SendPaymentTitle(paymentTokenId, transfer.amount, payment, caller)]
  {
    var s := ClaimAll(payment.releases, transfer.amount, CancelDateIn(cancelList, payment.identifier), now);
    ClaimAllBeforeStart(payment.releases, transfer.amount, CancelDateIn(cancelList, payment.identifier), now);
    PayAllOfZeros(payment.releaseToken, payment.releaseNonce, caller, s.payouts);
    var burn := Burn(transfer.token, transfer.nonce, transfer.amount);
    var reissue := SendPaymentTitle(paymentTokenId, transfer.amount, payment.(releases := s.survivors), caller);
    assert ClaimEffects(paymentTokenId, cancelList, transfer, payment, now, caller) == [] + [burn] + [reissue];
    assert payment.(releases := s.survivors) == payment;
  }

  /** cancel_internal pays the caller exactly the refunds. */
  lemma CancelPaysRefunds(transfer: EsdtTransfer, cancellation: Cancellation, refunds: seq<nat>, caller: Address)
    ensures PaidTo(CancelEffects(transfer, cancellation, refunds, caller), caller) == Sum(refunds)
  {
    var paid := PayAll(cancellation.releaseToken, cancellation.releaseNonce, caller, refunds);
    var burn := [Burn(transfer.token, transfer.nonce, transfer.amount)];
    PayAllPaysSum(cancellation.releaseToken, cancellation.releaseNonce, caller, refunds);
    PaidToAppend(paid, burn, caller);
    NoTransferPaysNothing(burn, caller);
  }

  /** verify_payment_token_payments and verify_cancellation_token_payments: every
      transfer attached to the call carries the expected token. */
  method VerifyTokenPayments(transfers: seq<EsdtTransfer>, expected: TokenIdentifier) returns (ok: bool)
    ensures ok <==> forall t <- transfers :: t.token == expected
  {
    var i := 0;
    while i < |transfers|
      invariant 0 <= i <= |transfers|
      invariant forall k :: 0 <= k < i ==> transfers[k].token == expected
    {
      if transfers[i].token != expected {
        return false;
      }
      i := i + 1;
    }
    return true;
  }

  /** The request loop of create (lines 55-80). */
  method CheckReleases(releases: seq<Release>, now: U64, fee: U64, receivers: nat, amount: nat)
    returns (res: Result<Batch, CreateError>)
    requires receivers > 0
    ensures res == BuildReleases(releases, now, fee, receivers, amount)
  {
    var paymentReleases: seq<Release> := [];
    var totalAmount: nat := 0;
    var totalAmountPostTax: nat := 0;
    var i := 0;
    while i < |releases|
      invariant 0 <= i <= |releases|
      invariant BuildReleases(releases[..i], now, fee, receivers, amount)
                == Ok(Batch(paymentReleases, totalAmount, totalAmountPostTax))
    {
      var checked := CheckRequest(releases[i], now, fee, receivers, amount);
      BuildReleasesStep(releases, i, now, fee, receivers, amount, Batch(paymentReleases, totalAmount, totalAmountPostTax));
      if checked.Err? {
        BuildReleasesRejectsEarly(releases, i + 1, now, fee, receivers, amount);
        return Err(checked.error);
      }
      totalAmount := totalAmount + releases[i].amount;
      totalAmountPostTax := totalAmountPostTax + checked.value.postTax;
      paymentReleases := paymentReleases + [checked.value.release];
      i := i + 1;
    }
    assert releases[..i] == releases;
    return Ok(Batch(paymentReleases, totalAmount, totalAmountPostTax));
  }

  class Contract {
    const paymentTokenId: TokenIdentifier
    const cancelTokenId: TokenIdentifier
    /** The owner of the contract, who receives the fee. */
    const owner: Address
    /** The fee in tenths of a percent. */
    var fee: U64
    /** The last payment id handed out. */
    var lastId: nat
    /** Payment id to the timestamp of its cancellation. */
    var cancelList: map<nat, U64>
    /** Everything asked of the host ledger so far. */
    var log: seq<Effect>

    /** init (lines 20-24). */
    constructor (paymentTokenId: TokenIdentifier, cancelTokenId: TokenIdentifier, fee: U64, owner: Address)
      ensures this.paymentTokenId == paymentTokenId && this.cancelTokenId == cancelTokenId
      ensures this.fee == fee && this.owner == owner
      ensures lastId == 0 && cancelList == map[] && log == []
    {
      this.paymentTokenId := paymentTokenId;
      this.cancelTokenId := cancelTokenId;
      this.fee := fee;
      this.owner := owner;
      lastId := 0;
      cancelList := map[];
      log := [];
    }

    /** increment_last_id (lines 114-119): a fresh id, above every id handed out before. */
    method IncrementLastId() returns (id: nat)
      modifies this`lastId
      ensures id == old(lastId) + 1 && lastId == id
    {
      lastId := lastId + 1;
      id := lastId;
    }

    /** create (lines 34-112): validate the requests, pay the fee to the owner,
        then mint a payment title for each receiver and, when cancelable, a
        cancellation title for the caller. */
    method Create(paymentType: PaymentType, name: seq<bv8>, cancelable: bool, receivers: seq<Address>,
                  releases: seq<Release>, token: ReleaseToken, nonce: U64, amount: nat,
                  now: U64, caller: Address) returns (outcome: Outcome<CallError>)
      modifies this`lastId, this`log
      ensures var check := CreateCheck(|receivers|, releases, now, fee, amount);
        && (outcome.Pass? <==> check.Ok?)
        && (check.Err? ==> outcome == Fail(CreateRejected(check.error)) && lastId == old(lastId) && log == old(log))
        && (check.Ok? ==>
              && lastId == old(lastId) + |receivers|
              && log == old(log) + CreateEffects(old(lastId), receivers,
                                                 TitleTemplate(paymentType, name, cancelable, releases, token, nonce, caller, check.value),
                                                 amount, owner, paymentTokenId, cancelTokenId, caller))
    {
      ghost var check := CreateCheck(|receivers|, releases, now, fee, amount);
      if |releases| == 0 {
        assert check == Err(NoReleases);
        return Fail(CreateRejected(NoReleases));
      }
      if |receivers| == 0 {
        assert check == Err(NoReceivers);
        return Fail(CreateRejected(NoReceivers));
      }
      var checked := CheckReleases(releases, now, fee, |receivers|, amount);
      if checked.Err? {
        assert check == Err(checked.error);
        return Fail(CreateRejected(checked.error));
      }
      if amount != checked.value.totalAmount {
        assert check == Err(AmountMismatch);
        return Fail(CreateRejected(AmountMismatch));
      }
      assert check == checked;
      var batch := checked.value;
      var startDate := MinStart(releases);
      var endDate := MaxEnd(releases);
      var template := Payment(2, paymentType, 0, name, startDate, endDate, token, nonce, caller,
                              batch.totalPostTax, cancelable, batch.releases);
      assert template == TitleTemplate(paymentType, name, cancelable, releases, token, nonce, caller, batch);
      PayFeeAndIssue(receivers, template, amount, caller);
      return Pass;
    }

    /** Lines 84-111: the fee to the owner, then the titles. */
    method PayFeeAndIssue(receivers: seq<Address>, template: Payment, amount: nat, caller: Address)
      requires template.amount <= amount
      modifies this`lastId, this`log
      ensures lastId == old(lastId) + |receivers|
      ensures log == old(log) + CreateEffects(old(lastId), receivers, template, amount, owner, paymentTokenId, cancelTokenId, caller)
    {
      var tax := amount - template.amount;
      log := log + PayEgldEsdt(template.releaseToken, template.releaseNonce, owner, tax);
      SendTitles(receivers, template, caller);
      AppendAssoc(old(log), PayEgldEsdt(template.releaseToken, template.releaseNonce, owner, tax),
                  IssueTitles(old(lastId), receivers, template, paymentTokenId, cancelTokenId, caller));
    }

    /** The receiver loop of create (lines 88-111): one fresh id per receiver. */
    method SendTitles(receivers: seq<Address>, template: Payment, caller: Address)
      modifies this`lastId, this`log
      ensures lastId == old(lastId) + |receivers|
      ensures log == old(log) + IssueTitles(old(lastId), receivers, template, paymentTokenId, cancelTokenId, caller)
    {
      var k := 0;
      while k < |receivers|
        invariant 0 <= k <= |receivers|
        invariant lastId == old(lastId) + k
        invariant log == old(log) + IssueTitles(old(lastId), receivers[..k], template, paymentTokenId, cancelTokenId, caller)
      {
        var identifier := IncrementLastId();
        var payment := template.(identifier := identifier);
        ghost var before := log;
        log := log + [SendPaymentTitle(paymentTokenId, ONE_PAYMENT_TOKEN, payment, receivers[k])];
        if template.cancelable {
          var cancellation := Cancellation(identifier, template.releaseToken, template.releaseNonce, template.releases);
          log := log + [SendCancellationTitle(cancelTokenId, 1, cancellation, caller)];
        }
        ghost var issued := ReceiverEffects(identifier, receivers[k], template, paymentTokenId, cancelTokenId, caller);
        assert log == before + issued;
        assert receivers[..k + 1][..k] == receivers[..k];
        AppendAssoc(old(log), IssueTitles(old(lastId), receivers[..k], template, paymentTokenId, cancelTokenId, caller), issued);
        k := k + 1;
      }
      assert receivers[..k] == receivers;
    }

    /** The release loop of claim_payment (lines 145-154): pay each release's
        claim and keep the releases that survive. */
    method ClaimReleases(releases: seq<Release>, quantity: nat, cancelDate: U64, now: U64,
                         token: ReleaseToken, nonce: U64, caller: Address) returns (settlement: Settlement)
      requires forall r <- releases :: Claimable(r)
      modifies this`log
      ensures settlement == ClaimAll(releases, quantity, cancelDate, now)
      ensures log == old(log) + PayAll(token, nonce, caller, settlement.payouts)
    {
      var survivors: seq<Release> := [];
      var payouts: seq<nat> := [];
      var i := 0;
      while i < |releases|
        invariant 0 <= i <= |releases|
        invariant ClaimAll(releases[..i], quantity, cancelDate, now) == Settlement(survivors, payouts)
        invariant log == old(log) + PayAll(token, nonce, caller, payouts)
      {
        ClaimAllStep(releases, i, quantity, cancelDate, now);
        var claimed := ClaimRelease(releases[i], quantity, cancelDate, now);
        PayAllSnoc(token, nonce, caller, payouts, claimed.payout);
        var pay := PayEgldEsdt(token, nonce, caller, claimed.payout);
        AppendAssoc(old(log), PayAll(token, nonce, caller, payouts), pay);
        log := log + pay;
        if claimed.survivor.Some? {
          survivors := survivors + [claimed.survivor.value];
        }
        payouts := payouts + [claimed.payout];
        i := i + 1;
      }
      assert releases[..i] == releases;
      settlement := Settlement(survivors, payouts);
    }

    /** claim_payment (lines 140-176) for one presented title whose decoded
        attributes are `payment`. */
    method ClaimPayment(transfer: EsdtTransfer, payment: Payment, now: U64, caller: Address) returns (settlement: Settlement)
      requires forall r <- payment.releases :: Claimable(r)
      modifies this`log
      ensures settlement == ClaimAll(payment.releases, transfer.amount, CancelDateIn(cancelList, payment.identifier), now)
      ensures log == old(log) + ClaimEffects(paymentTokenId, cancelList, transfer, payment, now, caller)
    {
      var cancelDate := CancelDateIn(cancelList, payment.identifier);
      settlement := ClaimReleases(payment.releases, transfer.amount, cancelDate, now,
                                  payment.releaseToken, payment.releaseNonce, caller);
      var paid := PayAll(payment.releaseToken, payment.releaseNonce, caller, settlement.payouts);
      var burn := [Burn(transfer.token, transfer.nonce, transfer.amount)];
      log := log + burn;
      AppendAssoc(old(log), paid, burn);
      var reissue := if settlement.survivors != []
                     then [SendPaymentTitle(paymentTokenId, transfer.amount, payment.(releases := settlement.survivors), caller)]
                     else [];
      log := log + reissue;
      AppendAssoc(old(log), paid + burn, reissue);
    }

    /** claim (lines 123-130): every attached transfer must be a payment title;
        `titles[k]` is the decoded attributes of `transfers[k]`. */
    method Claim(transfers: seq<EsdtTransfer>, titles: seq<Payment>, now: U64, caller: Address) returns (outcome: Outcome<CallError>)
      requires |titles| == |transfers|
      requires forall p <- titles :: forall r <- p.releases :: Claimable(r)
      modifies this`log
      ensures outcome.Pass? <==> forall t <- transfers :: t.token == paymentTokenId
      ensures outcome.Fail? ==> outcome == Fail(InvalidPaymentToken) && log == old(log)
      ensures outcome.Pass? ==> log == old(log) + ClaimBatchEffects(paymentTokenId, cancelList, transfers, titles, now, caller)
    {
      var ok := VerifyTokenPayments(transfers, paymentTokenId);
      if !ok {
        return Fail(InvalidPaymentToken);
      }
      ClaimPayments(transfers, titles, now, caller);
      return Pass;
    }

    /** The loop of claim (lines 127-129). */
    method ClaimPayments(transfers: seq<EsdtTransfer>, titles: seq<Payment>, now: U64, caller: Address)
      requires |titles| == |transfers|
      requires forall p <- titles :: forall r <- p.releases :: Claimable(r)
      modifies this`log
      ensures log == old(log) + ClaimBatchEffects(paymentTokenId, cancelList, transfers, titles, now, caller)
    {
      var k := 0;
      while k < |transfers|
        invariant 0 <= k <= |transfers|
        invariant log == old(log) + ClaimBatchEffects(paymentTokenId, cancelList, transfers[..k], titles[..k], now, caller)
      {
        ClaimBatchStep(paymentTokenId, cancelList, transfers, titles, now, caller, k);
        AppendAssoc(old(log), ClaimBatchEffects(paymentTokenId, cancelList, transfers[..k], titles[..k], now, caller),
                    ClaimEffects(paymentTokenId, cancelList, transfers[k], titles[k], now, caller));
        var _ := ClaimPayment(transfers[k], titles[k], now, caller);
        k := k + 1;
      }
      assert transfers[..k] == transfers && titles[..k] == titles;
    }

    /** The release loop of cancel_internal (lines 247-255): refund the unvested
        part of each release still running. A release that has not started yet
        makes the subtraction on line 249 underflow. */
    method RefundReleases(releases: seq<Release>, now: U64, token: ReleaseToken, nonce: U64, caller: Address)
      returns (refunds: Result<seq<nat>, CancelError>)
      requires forall r <- releases :: Claimable(r)
      modifies this`log
      ensures refunds == RefundsAsWritten(releases, now)
      ensures refunds.Ok? ==> log == old(log) + PayAll(token, nonce, caller, refunds.value)
    {
      var paid: seq<nat> := [];
      var i := 0;
      while i < |releases|
        invariant 0 <= i <= |releases|
        invariant RefundsAsWritten(releases[..i], now) == Ok(paid)
        invariant log == old(log) + PayAll(token, nonce, caller, paid)
      {
        var release := releases[i];
        assert release in releases;
        RefundsStep(releases, i, now);
        var result := CancelRefundAsWritten(release, now);
        if result.Err? {
          RefundsAbort(releases, i, now);
          return Err(StartUnderflow);
        }
        var refund := result.value;
        log := log + PayEgldEsdt(token, nonce, caller, refund);
        AppendAssoc(old(log), PayAll(token, nonce, caller, paid), PayEgldEsdt(token, nonce, caller, refund));
        PayAllSnoc(token, nonce, caller, paid, refund);
        paid := paid + [refund];
        i := i + 1;
      }
      assert releases[..i] == releases;
      return Ok(paid);
    }

    /** cancel_internal (lines 241-258) for one presented cancellation title
        whose decoded attributes are `cancellation`. The date is recorded
        first; an underflow reverts the call, record included. */
    method CancelInternal(transfer: EsdtTransfer, cancellation: Cancellation, now: U64, caller: Address)
      returns (outcome: Outcome<CancelError>)
      requires forall r <- cancellation.releases :: Claimable(r)
      modifies this`cancelList, this`log
      ensures var refunds := RefundsAsWritten(cancellation.releases, now);
        && (outcome.Pass? <==> refunds.Ok?)
        && (refunds.Err? ==> outcome == Fail(refunds.error) && cancelList == old(cancelList) && log == old(log))
        && (refunds.Ok? ==>
              && cancelList == old(cancelList)[cancellation.paymentIdentifier := now]
              && log == old(log) + CancelEffects(transfer, cancellation, refunds.value, caller))
    {
      var savedList := cancelList;
      var savedLog := log;
      cancelList := cancelList[cancellation.paymentIdentifier := now];
      var refunds := RefundReleases(cancellation.releases, now, cancellation.releaseToken, cancellation.releaseNonce, caller);
      if refunds.Err? {
        cancelList := savedList;
        log := savedLog;
        return Fail(refunds.error);
      }
      log := log + [Burn(transfer.token, transfer.nonce, transfer.amount)];
      AppendAssoc(savedLog, PayAll(cancellation.releaseToken, cancellation.releaseNonce, caller, refunds.value),
                  [Burn(transfer.token, transfer.nonce, transfer.amount)]);
      return Pass;
    }

    /** cancel (lines 224-231): every attached transfer must be a cancellation
        title; `cancellations[k]` is the decoded attributes of `transfers[k]`.
        One underflow reverts the whole call. */
    method Cancel(transfers: seq<EsdtTransfer>, cancellations: seq<Cancellation>, now: U64, caller: Address)
      returns (outcome: Outcome<CallError>)
      requires |cancellations| == |transfers|
      requires forall c <- cancellations :: forall r <- c.releases :: Claimable(r)
      modifies this`cancelList, this`log
      ensures outcome.Pass? <==>
        (forall t <- transfers :: t.token == cancelTokenId) && (forall c <- cancellations :: Cancellable(c, now))
      ensures !(forall t <- transfers :: t.token == cancelTokenId) ==> outcome == Fail(InvalidCancellationToken)
      ensures outcome.Fail? ==> cancelList == old(cancelList) && log == old(log)
      ensures outcome.Pass? ==>
        && cancelList == CancelListAfter(old(cancelList), cancellations, now)
        && log == old(log) + CancelBatchEffects(transfers, cancellations, now, caller)
    {
      var ok := VerifyTokenPayments(transfers, cancelTokenId);
      if !ok {
        return Fail(InvalidCancellationToken);
      }
      var savedList := cancelList;
      var savedLog := log;
      var k := 0;
      while k < |transfers|
        invariant 0 <= k <= |transfers|
        invariant forall c <- cancellations[..k] :: Cancellable(c, now)
        invariant cancelList == CancelListAfter(savedList, cancellations[..k], now)
        invariant log == savedLog + CancelBatchEffects(transfers[..k], cancellations[..k], now, caller)
      {
        var c := cancellations[k];
        assert c in cancellations;
        var result := CancelInternal(transfers[k], c, now, caller);
        if result.Fail? {
          assert !Cancellable(c, now);
          cancelList := savedList;
          log := savedLog;
          return Fail(CancelRejected(result.error));
        }
        CancelBatchStep(transfers, cancellations, savedList, now, caller, k);
        AppendAssoc(savedLog, CancelBatchEffects(transfers[..k], cancellations[..k], now, caller),
                    CancelEffects(transfers[k], c, RefundsAsWritten(c.releases, now).value, caller));
        k := k + 1;
      }
      assert transfers[..k] == transfers && cancellations[..k] == cancellations;
      return Pass;
    }
  }
}
