/** Record types carried in the attributes of the contract's tokens, the
    constants of the contract, and the effects it asks of the host ledger. */
module PulsarTypes {

  /** Block timestamps, dates and interval lengths are `u64` in the contract. */
  const U64_LIMIT: int := 0x1_0000_0000_0000_0000
  type U64 = x: int | 0 <= x < U64_LIMIT

  /** A freshly minted payment title has this quantity; claims are paid pro rata to it. */
  const ONE_PAYMENT_TOKEN: nat := 1000
  /** Longest allowed release interval: one year of seconds. */
  const MAX_INTERVAL_SECONDS: nat := 365 * 24 * 60 * 60
  /** Smallest per-interval amount accepted for a divisible payment. */
  const MINIMUM_RATE: nat := 100_000
  /** The fee is in tenths of a percent. */
  const FEE_BASE: nat := 1000

  datatype Option<T> = None | Some(value: T)

  datatype Result<T, E> = Ok(value: T) | Err(error: E)

  datatype Outcome<E> = Pass | Fail(error: E)

  /** One interval release schedule: `amount` is paid per whole interval. */
  datatype Release = Release(startDate: U64, endDate: U64, intervalSeconds: U64, amount: nat)

  datatype PaymentType = Vault | PulsarPayment | Vesting

  /** Host identities and byte strings are opaque to the engine. */
  type Address = seq<bv8>
  type TokenIdentifier = seq<char>

  /** The asset locked by a payment: the native coin or a token. */
  datatype ReleaseToken = Egld | Esdt(tokenId: TokenIdentifier)

  /** Attributes of a payment title (the entitlement). */
  datatype Payment = Payment(
    version: bv8,
    paymentType: PaymentType,
    identifier: nat,
    name: seq<bv8>,
    startDate: U64,
    endDate: U64,
    releaseToken: ReleaseToken,
    releaseNonce: U64,
    creator: Address,
    amount: nat,
    cancelable: bool,
    releases: seq<Release>)

  /** Attributes of a cancellation title: a snapshot of the releases at issuance. */
  datatype Cancellation = Cancellation(
    paymentIdentifier: nat,
    releaseToken: ReleaseToken,
    releaseNonce: U64,
    releases: seq<Release>)

  /** A token transfer attached to a call. */
  datatype EsdtTransfer = EsdtTransfer(token: TokenIdentifier, nonce: U64, amount: nat)

  /** What the contract asks of the host ledger, in order. */
  datatype Effect =
    | DirectEgld(to: Address, amount: nat)
    | DirectEsdt(to: Address, token: TokenIdentifier, nonce: U64, amount: nat)
      /** Mint a payment title with these attributes and send it. */
    | SendPaymentTitle(token: TokenIdentifier, quantity: nat, attributes: Payment, to: Address)
      /** Mint a cancellation title with these attributes and send it. */
    | SendCancellationTitle(token: TokenIdentifier, quantity: nat, cancellation: Cancellation, to: Address)
    | Burn(token: TokenIdentifier, nonce: U64, quantity: nat)

  predicate IsTransfer(e: Effect) {
    e.DirectEgld? || e.DirectEsdt?
  }

  /** What claim_release needs of a release: no u64 subtraction underflows, no division by zero. */
  predicate Claimable(r: Release) {
    r.startDate < r.endDate && r.intervalSeconds > 0
  }

  /** The shape every release on a title has: what create validates, minus the start-date check. */
  predicate WellFormed(r: Release) {
    && Claimable(r)
    && r.intervalSeconds <= MAX_INTERVAL_SECONDS
    && (r.endDate - r.startDate) % r.intervalSeconds == 0
  }

  /** Whole intervals between the start and the end of a release. */
  function TotalUnits(r: Release): nat
    requires Claimable(r)
  {
    (r.endDate - r.startDate) / r.intervalSeconds
  }

  /** What a full title (quantity ONE_PAYMENT_TOKEN) still holds in one release. */
  function FullValue(r: Release): nat
    requires Claimable(r)
  {
    r.amount * TotalUnits(r)
  }

  /** FullValue summed over a title's releases. */
  function TitleValue(rs: seq<Release>): nat
    requires forall r <- rs :: Claimable(r)
  {
    if rs == [] then 0 else TitleValue(rs[..|rs| - 1]) + FullValue(rs[|rs| - 1])
  }

  /** A payment to `receiver`; a zero amount sends nothing. */
  function PayEgldEsdt(token: ReleaseToken, nonce: U64, receiver: Address, amount: nat): (e: seq<Effect>)
    ensures amount == 0 <==> e == []
    ensures e != [] ==> |e| == 1 && IsTransfer(e[0]) && e[0].to == receiver && e[0].amount == amount
    ensures e != [] ==> (e[0].DirectEgld? <==> token.Egld?)
    ensures e != [] && token.Esdt? ==> e[0] == DirectEsdt(receiver, token.tokenId, nonce, amount)
  {
    if amount == 0 then []
    else if token.Egld? then [DirectEgld(receiver, amount)]
    else [DirectEsdt(receiver, token.tokenId, nonce, amount)]
  }

  /** One payment per amount, in order, zero amounts skipped. */
  function PayAll(token: ReleaseToken, nonce: U64, receiver: Address, amounts: seq<nat>): seq<Effect>
  {
    if amounts == [] then []
    else PayAll(token, nonce, receiver, amounts[..|amounts| - 1])
         + PayEgldEsdt(token, nonce, receiver, amounts[|amounts| - 1])
  }

  function Sum(xs: seq<nat>): nat
  {
    if xs == [] then 0 else Sum(xs[..|xs| - 1]) + xs[|xs| - 1]
  }

  /** Total moved to `receiver` by a list of effects. */
  function PaidTo(effects: seq<Effect>, receiver: Address): nat
  {
    if effects == [] then 0
    else
      var e := effects[|effects| - 1];
      PaidTo(effects[..|effects| - 1], receiver)
      + (if IsTransfer(e) && e.to == receiver then e.amount else 0)
  }

  lemma {:induction false} PaidToAppend(a: seq<Effect>, b: seq<Effect>, receiver: Address)
    ensures PaidTo(a + b, receiver) == PaidTo(a, receiver) + PaidTo(b, receiver)
    decreases |b|
  {
    if b == [] {
      assert a + b == a;
    } else {
      assert (a + b)[..|a + b| - 1] == a + b[..|b| - 1];
      PaidToAppend(a, b[..|b| - 1], receiver);
    }
  }

  lemma AppendAssoc<T>(a: seq<T>, b: seq<T>, c: seq<T>)
    ensures a + (b + c) == (a + b) + c
  {
  }

  lemma PrefixSnoc<T>(s: seq<T>)
    requires s != []
    ensures s[..|s| - 1] + [s[|s| - 1]] == s
  {
  }

  lemma PayAllSnoc(token: ReleaseToken, nonce: U64, receiver: Address, amounts: seq<nat>, x: nat)
    ensures PayAll(token, nonce, receiver, amounts + [x])
            == PayAll(token, nonce, receiver, amounts) + PayEgldEsdt(token, nonce, receiver, x)
  {
    assert (amounts + [x])[..|amounts|] == amounts;
  }

  lemma PaidToSingle(e: Effect, receiver: Address)
    ensures PaidTo([e], receiver) == if IsTransfer(e) && e.to == receiver then e.amount else 0
  {
    assert [e][..0] == [];
  }

  /** Effects that move no funds to `receiver` pay it nothing. */
  lemma {:induction false} NoTransferPaysNothing(effects: seq<Effect>, receiver: Address)
    requires forall e <- effects :: !IsTransfer(e) || e.to != receiver
    ensures PaidTo(effects, receiver) == 0
    decreases |effects|
  {
    if effects != [] {
      var init := effects[..|effects| - 1];
      assert forall e <- init :: e in effects;
      assert effects[|effects| - 1] in effects;
      NoTransferPaysNothing(init, receiver);
    }
  }

  /** PayEgldEsdt moves exactly its amount to its receiver. */
  lemma PayEgldEsdtPays(token: ReleaseToken, nonce: U64, receiver: Address, amount: nat)
    ensures PaidTo(PayEgldEsdt(token, nonce, receiver, amount), receiver) == amount
  {
    var p := PayEgldEsdt(token, nonce, receiver, amount);
    if p != [] {
      assert p == [p[0]];
      PaidToSingle(p[0], receiver);
    }
  }

  /** Every payment in PayAll goes to the receiver, and together they pay the sum of the amounts. */
  lemma {:induction false} PayAllPaysSum(token: ReleaseToken, nonce: U64, receiver: Address, amounts: seq<nat>)
    ensures PaidTo(PayAll(token, nonce, receiver, amounts), receiver) == Sum(amounts)
    ensures forall e <- PayAll(token, nonce, receiver, amounts) :: IsTransfer(e) && e.to == receiver && e.amount > 0
    decreases |amounts|
  {
    if amounts != [] {
      var init := amounts[..|amounts| - 1];
      var last := amounts[|amounts| - 1];
      PayAllPaysSum(token, nonce, receiver, init);
      var p := PayEgldEsdt(token, nonce, receiver, last);
      PaidToAppend(PayAll(token, nonce, receiver, init), p, receiver);
      if p != [] {
        assert p[..0] == [];
      }
    }
  }

  /** Amounts that sum to nothing send nothing. */
  lemma {:induction false} PayAllOfZeros(token: ReleaseToken, nonce: U64, receiver: Address, amounts: seq<nat>)
    requires Sum(amounts) == 0
    ensures PayAll(token, nonce, receiver, amounts) == []
    decreases |amounts|
  {
    if amounts != [] {
      PayAllOfZeros(token, nonce, receiver, amounts[..|amounts| - 1]);
    }
  }
}
