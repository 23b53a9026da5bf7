# Pulsar payment: a verified model of the vesting engine

This project models the accounting core of the Pulsar payment contract
(`src/pulsar_payment.rs`), a MultiversX smart contract for vesting and
streaming payments, and proves properties of it in Dafny.

A creator locks an amount of the native coin or of a token and describes one
or more **releases**. A release pays `amount` per whole interval of
`interval_seconds` between `start_date` and `end_date`. `create` takes a fee
(in tenths of a percent) for the contract owner. It then mints one **payment
title** per receiver, with quantity 1000. When the payment is cancelable, it
also mints a **cancellation title** per receiver, sent to the creator.

- `claim` burns the presented payment titles. It pays the holder, pro rata to
  the quantity presented, for every whole interval that has elapsed. It then
  reissues a title that carries only the releases still running, with their
  start moved forward to the last interval boundary.
- `cancel` burns cancellation titles. It records the cancel date of the
  payment in `cancel_list` and refunds the caller, the holder of the
  (transferable) cancellation titles, the unvested rest of each release that
  is still running.

Modules, one per concern of the contract:

| file | module | what it holds |
|---|---|---|
| `types.dfy` | `PulsarTypes` | The records the tokens carry: `Release`, `Payment`, `Cancellation`, `PaymentType`. The constants. The effects the contract asks of the ledger. `pay_egld_esdt`. |
| `arith.dfy` | `Arith` | Floor-division facts used by the interval arithmetic. |
| `claim_rule.dfy` | `ClaimRule` | `claim_release` as a function, and the claim over all releases of a title. |
| `cancel_rule.dfy` | `CancelRule` | The refund of `cancel_internal`: as written with overflow checks on, as a build that wraps computes it, and as evidently intended. |
| `conservation.dfy` | `Conservation` | What one release pays over its whole life, with and without a cancellation. |
| `creation.dfy` | `Creation` | The validation and arithmetic of `create`, and the titles it mints. |
| `pulsar_payment.dfy` | `PulsarPayment` | The contract: class `Contract` holds the storage (`fee`, `last_id`, `cancel_list`) and the endpoints `create`, `claim` and `cancel`. |

How the host environment appears in the model:

- Transfers, mints and burns are appended, in order, to the field
  `Contract.log`. A `require!` that fails, or a `u64` subtraction that
  underflows, aborts the call. The endpoint then returns `Fail` and leaves
  every field as it was, as a reverted transaction does.
- The block timestamp (`now`), the caller and the owner are parameters.
- The attributes decoded from a presented title are parameters too.
- Amounts are unbounded (`nat`), as `BigUint` is. Dates and intervals are
  the subset type `U64`.

## Model

| member | source | states |
|---|---|---|
| PulsarTypes.PayEgldEsdt | src/pulsar_payment.rs:276-286 | A zero amount emits nothing. Any other amount emits exactly one transfer of that amount to the receiver: a native-coin transfer when the token is EGLD, otherwise a token transfer with the token id and nonce. |
| PulsarTypes.PayEgldEsdtPays | src/pulsar_payment.rs:276-286 | The receiver is paid exactly the amount. |
| PulsarTypes.PayAllPaysSum | src/pulsar_payment.rs:276-286 | A run of payments pays the receiver the sum of the amounts. Every effect it emits is a positive transfer to that receiver. |
| PulsarTypes.PayAllOfZeros | src/pulsar_payment.rs:276-279 | Amounts that sum to zero emit no effect at all. |
| ClaimRule.Horizon | src/pulsar_payment.rs:197 | The end of counted time is the smallest positive value among now, the end date and the cancel date. It is one of the three, positive, and no later than any nonzero one. |
| ClaimRule.AlignedBoundary | src/pulsar_payment.rs:211 | `now - (now - start) % interval` is the last interval boundary at or before now. It lies between start and now, a whole number of intervals after start, and less than one interval before now. |
| ClaimRule.Advance | src/pulsar_payment.rs:208-216 | The reissued release starts later than the old start and no later than now, and now is before the end. End, interval and amount are unchanged, and the end is still a whole number of intervals after the new start. |
| ClaimRule.ClaimRelease | src/pulsar_payment.rs:178-220 | The payout is `q * units * amount / 1000`. The release survives exactly when it was not cancelled before its start and either no interval is counted or (there is no cancel date and now is before the end). A survivor with no counted interval is the release unchanged; otherwise it is the release advanced to the last boundary. Well-formedness is kept. |
| ClaimRule.VestedUnitsBounded | src/pulsar_payment.rs:197-198 | Counted intervals never exceed the release's intervals and never reach past the horizon. |
| ClaimRule.ClaimIgnoresTimePastCap | src/pulsar_payment.rs:197 | Two claims made at any moments after the earlier of the end date and a nonzero cancel date have the same outcome. |
| ClaimRule.FullTitlePayout | src/pulsar_payment.rs:204 | A full title (quantity 1000) is paid the per-interval amount times the counted intervals. |
| ClaimRule.ClaimAfterEndExhausts | src/pulsar_payment.rs:197-219 | After the end date, with no cancellation, a claim counts every interval (at least one), drops the release and pays `q * intervals * amount / 1000`. |
| ClaimRule.ClaimConservesValue | src/pulsar_payment.rs:178-220 | On a full title that was never cancelled, the payout plus the value of the surviving release is the value the release held. |
| ClaimRule.AdvancedValue | src/pulsar_payment.rs:208-216 | The advanced release holds exactly the intervals the claim did not count. |
| ClaimRule.SplitTitleLosesAtMostOneUnit | src/pulsar_payment.rs:204 | Two holders of parts of a full title together receive what the full title would, less at most one unit of rounding. |
| ClaimRule.ClaimAll | src/pulsar_payment.rs:145-154 | The claim over a title's releases makes one payout per release, in order, each equal to that release's claim. The survivors are well-formed when the releases were. |
| ClaimRule.ClaimAllKept | src/pulsar_payment.rs:145-154 | The survivors are exactly the present outcomes of the per-release claims, in the order of the releases. |
| ClaimRule.ClaimAllSurvivors | src/pulsar_payment.rs:145-154 | There is an increasing list of positions, one per survivor, such that the j-th survivor is what the claim of the release at the j-th position leaves, and a position is listed exactly when the claim of that release leaves a survivor. So the reissued title keeps the surviving releases in their original order and no dropped release. |
| ClaimRule.ClaimAllBeforeStart | src/pulsar_payment.rs:145-154 | Before any release starts (and with no cancellation before a start), every release survives unchanged and the payouts sum to zero. |
| ClaimRule.ClaimAllConservesValue | src/pulsar_payment.rs:145-154 | For a full title never cancelled, the payouts plus the value of the surviving releases equal the value of the title. |
| CancelRule.CancelRefundAsWritten | src/pulsar_payment.rs:247-254 | The refund aborts exactly when now is before the release's start (the underflow on line 249). An ended release refunds 0. Otherwise it is the intended refund. |
| CancelRule.CancelRefund | src/pulsar_payment.rs:248-252 | The refund with the guard the code lacks: an ended release refunds nothing. |
| CancelRule.CancelRefundIsUnvested | src/pulsar_payment.rs:248-252 | The refund is the per-interval amount times the intervals a claim at the same moment would not yet count. |
| CancelRule.CancelBeforeStartAborts | src/pulsar_payment.rs:249 | Before a release starts, the refund as written aborts, while the intended refund is the release's whole value (at least one interval). |
| CancelRule.CancelBeforeStartExample | src/pulsar_payment.rs:249 | Release 100..200, interval 10, amount 5, cancelled at 50: the code aborts, and the intended refund is 50. |
| CancelRule.WrappingSub | src/pulsar_payment.rs:249 | The wrapped difference is the true difference modulo 2^64, and equals `a - b` when that does not underflow. |
| CancelRule.CancelRefundWrappingAgrees | src/pulsar_payment.rs:248-252 | Without overflow checks, the refund equals the intended one once the release has started, and before its start whenever the wrapped remainder on line 249 does not exceed the clock. |
| CancelRule.CancelRefundWrappingNearZero | src/pulsar_payment.rs:248-252 | Without overflow checks and with a clock near zero, the refund differs from the intended one: 103 instead of 50 for release 100..200, interval 10, amount 5, cancelled at 1. |
| CancelRule.RefundsAsWritten | src/pulsar_payment.rs:247-255 | The refunds of the snapshot succeed exactly when every release has started by now. They then give one refund per release, in order, each the intended refund. |
| Conservation.TraceConservesValue | src/pulsar_payment.rs:178-220 | Any sequence of full-title claims without a cancellation pays, together with what the title still holds, exactly the release's value; the claims never pay more than it. |
| Conservation.CancelSettlesRemainder | src/pulsar_payment.rs:178-258 | After a cancellation, the holder's next claim plus the refund to the holder of the cancellation title is exactly what the title still held. |
| Conservation.LifetimeWithCancel | src/pulsar_payment.rs:178-258 | The claims before a cancellation, the refund, and the claim after it together pay exactly the release's value, whenever the cancellation comes. This uses the intended refund. |
| Conservation.SettledAfterCancel | src/pulsar_payment.rs:189-201 | Once a claim after a cancellation has left the release in place, the release is unchanged and later claims pay nothing. |
| Creation.PostTax | src/pulsar_payment.rs:61 | The amount net of the fee never exceeds the requested amount. |
| Creation.RecomputedPostTaxExact | src/pulsar_payment.rs:61-69 | The recomputed net amount equals the inner floor quotient times the span times the receivers, because the interval divides out. It never exceeds the net amount. |
| Creation.CheckRequest | src/pulsar_payment.rs:56-69 | A request is accepted exactly when its end is after its start, its interval is in 1..31 536 000 seconds, its start is not in the past, its span is a multiple of the interval, the fee is at most 1000 (otherwise line 61 underflows), and the payment amount is 1 or the per-interval amount exceeds 100 000. |
| Creation.AcceptedRequest | src/pulsar_payment.rs:61-79 | The accepted release is the request with the per-interval amount of one receiver, and it is well-formed. The receivers' full titles together hold the recomputed net amount, which never exceeds the requested amount. |
| Creation.BuildReleases | src/pulsar_payment.rs:55-80 | The request loop succeeds exactly when every request is accepted. |
| Creation.BuildReleasesBatch | src/pulsar_payment.rs:55-80 | After the loop, the releases are the accepted requests in order, the totals are the sum of the requested amounts and of the recomputed net amounts, and the receivers' full titles hold the net total. |
| Creation.BuildReleasesRejectsEarly | src/pulsar_payment.rs:55-80 | The first rejected request decides the outcome of the whole loop. |
| Creation.CreateCheck | src/pulsar_payment.rs:49-82 | Create passes its checks exactly when there are releases and receivers, every request is accepted, and the requested amounts sum to the payment. The releases are then well-formed, and the receivers' titles hold the net total, which never exceeds the payment, so the tax subtraction on line 84 cannot underflow. |
| Creation.CreateRejects | src/pulsar_payment.rs:49-82 | Create is rejected when there are no receivers, when any request is malformed or starts in the past, when the fee exceeds 1000, when a divisible payment's rate is at or below 100 000, and when the amounts do not sum to the payment. |
| Creation.MinStart | src/pulsar_payment.rs:52 | The window opens at the start of some request, no later than any request's start. |
| Creation.MaxEnd | src/pulsar_payment.rs:53 | The window closes at the end of some request, no earlier than any request's end. |
| Creation.IssuedPaymentTitles | src/pulsar_payment.rs:88-105 | The payment titles minted are exactly one per receiver, in order, numbered on from the last id. |
| Creation.IssuedIdsIncrease | src/pulsar_payment.rs:88-119 | The k-th receiver gets a full title with id `last_id + k + 1` and otherwise the shared attributes (same releases, net total and window). The ids are above the old last id and strictly increasing. |
| Creation.IssuedCancellationTitles | src/pulsar_payment.rs:107-110 | The cancellation titles minted are one per new id when the payment is cancelable, and none otherwise. |
| Creation.CancellationTitlesIffCancelable | src/pulsar_payment.rs:107-110 | There are as many cancellation titles as receivers exactly when the payment is cancelable, otherwise none. The k-th goes to the caller with id `last_id + k + 1` and the title's releases. |
| Creation.IssueTitlesPaysNothing | src/pulsar_payment.rs:88-111 | The receiver loop mints titles and moves no funds. |
| Creation.CreateConservesValue | src/pulsar_payment.rs:82-111 | The fee paid to the owner plus the value of all the full titles is exactly the payment. |
| PulsarPayment.CancelListAfter | src/pulsar_payment.rs:245 | After a batch of cancellations, every presented payment id maps to now. Other ids keep their entries, and no other id is added. |
| PulsarPayment.ClaimPaysCaller | src/pulsar_payment.rs:140-176 | One claim pays the caller the sum of the release claims, and nobody else anything. |
| PulsarPayment.FullTitleClaimConservesValue | src/pulsar_payment.rs:140-176 | A claim of a full title on a payment never cancelled pays the caller exactly the value that the reissued title no longer holds. |
| PulsarPayment.ClaimBeforeStartReissues | src/pulsar_payment.rs:140-176 | A claim before any release starts pays nothing. It burns the presented quantity and reissues the same quantity with identical attributes. |
| PulsarPayment.CancelPaysRefunds | src/pulsar_payment.rs:247-257 | One cancellation pays the caller exactly the sum of the refunds, whatever quantity was presented. |
| PulsarPayment.VerifyTokenPayments | src/pulsar_payment.rs:132-138 | The check passes exactly when every attached transfer carries the expected token; lines 233-239 are the same check for cancellation titles. |
| PulsarPayment.CheckReleases | src/pulsar_payment.rs:45-80 | The request loop, with its running totals, computes what BuildReleases specifies. |
| PulsarPayment.Contract.constructor | src/pulsar_payment.rs:20-24 | init stores the token ids and the fee; no payment exists, nothing is cancelled, nothing has happened. |
| PulsarPayment.Contract.IncrementLastId | src/pulsar_payment.rs:114-119 | Returns the stored id plus one and stores it. |
| PulsarPayment.Contract.Create | src/pulsar_payment.rs:34-112 | Create runs the checks of lines 49-82, with the request loop in CheckReleases, and succeeds exactly when CreateCheck does. On failure nothing changes. On success the last id grows by the number of receivers, and the log gains the fee to the owner followed by the titles. |
| PulsarPayment.Contract.PayFeeAndIssue | src/pulsar_payment.rs:84-111 | Pays the payment minus the net total to the owner, then mints the titles. |
| PulsarPayment.Contract.SendTitles | src/pulsar_payment.rs:88-111 | One fresh id per receiver. The log gains, per receiver, its payment title and, when cancelable, a cancellation title for the caller. |
| PulsarPayment.Contract.ClaimReleases | src/pulsar_payment.rs:145-154 | The release loop settles as ClaimAll specifies and pays each payout in order. |
| PulsarPayment.Contract.ClaimPayment | src/pulsar_payment.rs:140-176 | Claims each release with the payment's cancel date. The log gains the payouts, the burn of the presented quantity, and a reissued title carrying exactly the surviving releases, if there are any. |
| PulsarPayment.Contract.Claim | src/pulsar_payment.rs:122-130 | Claim passes exactly when every transfer is a payment title. On failure nothing changes; on success each title is claimed in order. |
| PulsarPayment.Contract.ClaimPayments | src/pulsar_payment.rs:126-129 | The log gains the effects of claiming each presented title, in order. |
| PulsarPayment.Contract.RefundReleases | src/pulsar_payment.rs:247-256 | The refunds are those RefundsAsWritten specifies. When none aborts, each is paid to the caller in order. |
| PulsarPayment.Contract.CancelInternal | src/pulsar_payment.rs:241-258 | When every release has started, it records now as the cancel date, pays the refunds and burns the title. Otherwise the call reverts and nothing changes. |
| PulsarPayment.Contract.Cancel | src/pulsar_payment.rs:224-231 | Cancel passes exactly when every transfer is a cancellation title and every snapshot can be cancelled now. On failure nothing changes. On success the cancel list and the log are those of the cancellations done in order. |

## Left out

- Host calls are abstracted: minting (`esdt_nft_create_compact`), transfers, burns, reading token data, the block timestamp, and the caller and owner. They are inputs, or effects appended to the log. The nonce a mint returns is not modelled.
- The attribute codec (TopEncode/TopDecode) is left out. Decoded attributes are parameters, so a title whose attributes this contract did not write is out of scope.
- PulsarPayment.Contract.Claim, ClaimPayment, ClaimReleases, CancelInternal, Cancel and RefundReleases require the decoded releases to be `Claimable` (start before end, positive interval). The contract only mints titles whose releases are well-formed (`Creation.CreateCheck`), and claims keep them so (`ClaimRule.ClaimAll`). A title with other attributes would make the source divide by zero or underflow; that case is not modelled.
- `set_fee`, the storage views and the `schedule*` files are left out. They are plain setters and getters, or types that `src/pulsar_payment.rs` does not use.
- `last_id` is an unbounded `nat`; the `u64` counter's wrap after 2^64 payments is not modelled.
- The build profile that decides whether `u64` underflow panics or wraps is not part of this model. Every `u64` underflow is modelled as an abort, as Rust does with overflow checks on (the default of debug builds; release builds wrap unless the profile turns the checks on). This covers the fee above 1000 on line 61 and the cancel before a release starts on line 249. For line 249 the wrapping behaviour is modelled as well, by `CancelRule.CancelRefundWrapping`.
- PulsarPayment.Contract.Create computes the window (`MinStart`, `MaxEnd`) after validation, where the source computes it before the request loop (lines 52-53). Both are pure, so the titles are the same whenever create succeeds.
- Creation.CheckRequest reports a fee above 1000 as a rejection at the point where line 61 is evaluated, that is after the request's date checks. With no build profile, the model does not distinguish a panic from a `require!` failure.

## Findings

| source | as written | input that shows it | evidently intended | confidence | as-written member | corrected member |
|---|---|---|---|---|---|---|
| src/pulsar_payment.rs:249 | `current_date - release.start_date` with no guard, for a release that has not ended | A cancelable payment with a release from 100 to 200 in intervals of 10 paying 5, cancelled at 50: with overflow checks on, the `u64` subtraction underflows and the whole cancel reverts | Before a release starts, cancelling refunds its whole unvested value (50 here), as the `start_date` clamp on line 250 already expects | not executed; depends on the build profile: with overflow checks off the subtraction wraps and the code refunds 50 here by accident | CancelRule.CancelBeforeStartExample | CancelRule.CancelRefund |

The discrepancy exists only in a build with overflow checks on. Without them
the subtraction wraps, and `CancelRule.CancelRefundWrappingAgrees` proves that
the code then refunds the intended amount whenever the wrapped remainder does
not exceed the clock, which holds whenever the clock reads at least one interval; `CancelRule.CancelRefundWrappingNearZero` shows a clock near zero
where it does not.

The as-written refund is `CancelRule.CancelRefundAsWritten`, and
`CancelRule.CancelBeforeStartAborts` proves that it aborts for every release
cancelled before its start. The contract methods (`Contract.CancelInternal`,
`Contract.Cancel`) model the code as written. The corrected refund
`CancelRule.CancelRefund` refunds the whole value before the start
(`CancelRule.CancelRefundIsUnvested`). With it, `Conservation.LifetimeWithCancel`
proves that claims, refund and final claim together pay exactly the release's
value, whenever the cancellation comes.
