/** The `GtwFees1` payment-splitter contract: a deposit in the accepted token
    that is larger than the configured minimum is split into a fee share,
    `amount * fees_in_percent / 100` rounded down, sent to the fees address,
    and the rest of the deposit, sent to the rest address.

    Amounts and percentages are `BigUint` in the contract, so they are `nat`
    here. Addresses and token identifiers are compared only for equality. */
module Gateway {
  import opened Wrappers

  /** An account address (`ManagedAddress`); only its identity matters. */
  datatype Address = Address(bytes: seq<bv8>)

  /** A token identifier (`TokenIdentifier`), such as "EGLD" or an ESDT ticker. */
  datatype TokenId = TokenId(name: string)

  /** The chain's native token, the default accepted token. */
  const Egld: TokenId := TokenId("EGLD")

  /** Memos attached to the two outbound transfers. */
  const FeesMemo: string := "fees from gtw sc"
  const PaymentMemo: string := "payment from gtw sc"

  /** The reasons a call aborts. */
  datatype Error =
    | MinAmountNegative       // init guard on min_amount; cannot fire for an unsigned value
    | FeesPercentNotPositive  // init guard on fees_in_percent
    | InvalidPaymentToken     // sendToken: the deposit is in another token
    | PaymentNotAboveMin      // sendToken: the deposit is not above min_amount
    | SubtractionUnderflow    // sendToken: the BigUint subtraction of the fees would go negative
  {
    function Message(): string {
      match this
      case MinAmountNegative => "Min amount must be greater than or equal to zero"
      case FeesPercentNotPositive => "Fees in percent must be greater than zero"
      case InvalidPaymentToken => "Invalid payment token"
      case PaymentNotAboveMin => "The payment must be greater than the min_amount"
      case SubtractionUnderflow => "BigUint subtraction result would be negative"
    }
  }

  /** The five values the contract keeps in storage. */
  datatype Config = Config(
    minAmount: nat,
    feesInPercent: nat,
    feesAddr: Address,
    restAddr: Address,
    tokenId: TokenId)

  /** How an accepted deposit is divided. */
  datatype Split = Split(fees: nat, rest: nat)

  /** One outbound `send().direct` instruction: destination, token, nonce,
      amount and memo. */
  datatype Transfer = Transfer(dest: Address, token: TokenId, nonce: nat, amount: nat, memo: string)

  // ---------------------------------------------------------------------
  // Deployment

  /** The configuration deployment stores, or the reason deployment aborts.
      Of the two guards only the one on the fee percentage can fail. */
  function Configure(minAmount: nat, feesInPercent: nat, feesAddr: Address, restAddr: Address,
                     optTokenId: Option<TokenId>): (r: Result<Config, Error>)
    ensures r.Success? <==> feesInPercent > 0
    ensures r.Failure? ==> r.error == FeesPercentNotPositive
    ensures r.Success? ==>
      r.value.minAmount == minAmount && r.value.feesInPercent == feesInPercent &&
      r.value.feesAddr == feesAddr && r.value.restAddr == restAddr
    ensures r.Success? && optTokenId.Some? ==> r.value.tokenId == optTokenId.value
    ensures r.Success? && optTokenId.None? ==> r.value.tokenId == Egld
  {
    if !(minAmount >= 0) then Failure(MinAmountNegative)
    else if !(feesInPercent > 0) then Failure(FeesPercentNotPositive)
    else Success(Config(minAmount, feesInPercent, feesAddr, restAddr, optTokenId.GetOr(Egld)))
  }

  // ---------------------------------------------------------------------
  // The fee split

  /** The fee share of a deposit: `amount * pct / 100`, rounded down. */
  function FeesOf(amount: nat, pct: nat): (fees: nat)
    ensures fees * 100 <= amount * pct < fees * 100 + 100
  {
    amount * pct / 100
  }

  /** Splits a deposit into the fee share and the rest. The rest is computed
      by an unsigned subtraction, which aborts when the fee share is larger
      than the deposit (possible only when the percentage exceeds 100). */
  function SplitPayment(amount: nat, pct: nat): (r: Result<Split, Error>)
    ensures r.Success? ==> r.value.fees == FeesOf(amount, pct) && r.value.fees + r.value.rest == amount
    ensures r.Failure? ==> r.error == SubtractionUnderflow
    ensures pct <= 100 ==> r.Success?
  {
    var fees := FeesOf(amount, pct);
    assert pct <= 100 ==> fees <= amount by {
      if pct <= 100 { FeesAtMostAmount(amount, pct); }
    }
    if fees > amount then Failure(SubtractionUnderflow) else Success(Split(fees, amount - fees))
  }

  /** With a percentage of at most 100 the fee share never exceeds the deposit. */
  lemma FeesAtMostAmount(amount: nat, pct: nat)
    requires pct <= 100
    ensures FeesOf(amount, pct) <= amount
  {
    assert amount * 100 - amount * pct == amount * (100 - pct);
    assert amount * (100 - pct) >= 0;
  }

  /** The split aborts exactly when the fee share exceeds the deposit, that is
      when `amount * (pct - 100) >= 100`; no percentage up to 100 can cause it. */
  lemma SplitUnderflowIff(amount: nat, pct: nat)
    ensures SplitPayment(amount, pct).Failure? <==> amount * (pct - 100) >= 100
  {
    var fees := FeesOf(amount, pct);
    assert amount * (pct - 100) == amount * pct - amount * 100;
    if fees > amount {
      assert (amount + 1) * 100 <= fees * 100;
    } else {
      assert fees * 100 <= amount * 100;
    }
  }

  /** A larger deposit never yields a smaller fee share. */
  lemma FeesMonotoneInAmount(a: nat, b: nat, pct: nat)
    requires a <= b
    ensures FeesOf(a, pct) <= FeesOf(b, pct)
  {
    assert b * pct - a * pct == (b - a) * pct;
    assert (b - a) * pct >= 0;
  }

  /** A larger percentage never yields a smaller fee share. */
  lemma FeesMonotoneInPercent(amount: nat, p: nat, q: nat)
    requires p <= q
    ensures FeesOf(amount, p) <= FeesOf(amount, q)
  {
    assert amount * q - amount * p == amount * (q - p);
    assert amount * (q - p) >= 0;
  }

  /** The rounding remainder goes to the rest address: with a percentage of
      at most 100 the rest is `amount * (100 - pct) / 100` rounded up. */
  lemma RestRoundsUp(amount: nat, pct: nat)
    requires pct <= 100
    ensures var rest := amount - FeesOf(amount, pct);
      amount * (100 - pct) <= rest * 100 < amount * (100 - pct) + 100
  {
    FeesAtMostAmount(amount, pct);
    var fees := FeesOf(amount, pct);
    assert (amount - fees) * 100 == amount * 100 - fees * 100;
    assert amount * (100 - pct) == amount * 100 - amount * pct;
  }

  // ---------------------------------------------------------------------
  // Accepting a deposit

  /** The outcome of `sendToken` for a deposit of `amount` in `token` under the
      stored configuration `c`: the token check first, then the strict lower
      bound, then the split. */
  function Accept(c: Config, token: TokenId, amount: nat): (r: Result<Split, Error>)
    ensures token != c.tokenId ==> r == Failure(InvalidPaymentToken)
    ensures token == c.tokenId && amount <= c.minAmount ==> r == Failure(PaymentNotAboveMin)
    ensures r.Success? ==>
      token == c.tokenId && amount > c.minAmount &&
      r.value.fees * 100 <= amount * c.feesInPercent < r.value.fees * 100 + 100 &&
      r.value.fees + r.value.rest == amount
    ensures token == c.tokenId && amount > c.minAmount && c.feesInPercent <= 100 ==> r.Success?
    ensures token == c.tokenId && amount > c.minAmount ==>
      (r.Failure? <==> amount * (c.feesInPercent - 100) >= 100) &&
      (r.Failure? ==> r.error == SubtractionUnderflow)
  {
    SplitUnderflowIff(amount, c.feesInPercent);
    if !(token == c.tokenId) then Failure(InvalidPaymentToken)
    else if !(amount > c.minAmount) then Failure(PaymentNotAboveMin)
    else SplitPayment(amount, c.feesInPercent)
  }

  /** The two transfers an accepted deposit produces, fees first. */
  function Payouts(c: Config, token: TokenId, s: Split): (r: seq<Transfer>)
    ensures |r| == 2
    ensures r[0].dest == c.feesAddr && r[0].amount == s.fees && r[0].memo == FeesMemo
    ensures r[1].dest == c.restAddr && r[1].amount == s.rest && r[1].memo == PaymentMemo
    ensures forall i :: 0 <= i < |r| ==> r[i].token == token && r[i].nonce == 0
  {
    [Transfer(c.feesAddr, token, 0, s.fees, FeesMemo),
     Transfer(c.restAddr, token, 0, s.rest, PaymentMemo)]
  }

  /** The total amount of `token` moved by the transfers `ts`. */
  function Sent(ts: seq<Transfer>, token: TokenId): nat {
    if ts == [] then 0
    else (if ts[0].token == token then ts[0].amount else 0) + Sent(ts[1..], token)
  }

  lemma {:induction false} SentAppend(a: seq<Transfer>, b: seq<Transfer>, token: TokenId)
    ensures Sent(a + b, token) == Sent(a, token) + Sent(b, token)
  {
    if a == [] {
      assert a + b == b;
    } else {
      assert (a + b)[0] == a[0];
      assert (a + b)[1..] == a[1..] + b;
      SentAppend(a[1..], b, token);
    }
  }

  /** Conservation: the payouts of an accepted deposit move exactly the
      deposit, in the deposit's token and in no other. */
  lemma PayoutsConserve(c: Config, token: TokenId, amount: nat, other: TokenId)
    requires Accept(c, token, amount).Success?
    ensures Sent(Payouts(c, token, Accept(c, token, amount).value), other) ==
      if other == token then amount else 0
  {
    var p := Payouts(c, token, Accept(c, token, amount).value);
    var s := Accept(c, token, amount).value;
    assert p[1..][1..] == [];
    assert Sent(p[1..], other) == if other == token then s.rest else 0;
    assert Sent(p, other) == if other == token then s.fees + s.rest else 0;
  }

  /** A non-zero percentage, as deployment guarantees, gives the fees address
      a non-zero share of every deposit of at least 100 units; in general the
      share is non-zero exactly when `amount * pct >= 100`. */
  lemma FeesPositive(amount: nat, pct: nat)
    ensures FeesOf(amount, pct) > 0 <==> amount * pct >= 100
    ensures pct > 0 && amount >= 100 ==> FeesOf(amount, pct) > 0
  {
    if pct > 0 && amount >= 100 {
      assert amount * pct >= amount * 1;
    }
  }

  /** The lower bound is strict: a deposit equal to the minimum is refused and
      one unit more passes (and is split when the percentage is at most 100). */
  lemma MinimumIsStrict(c: Config)
    ensures Accept(c, c.tokenId, c.minAmount) == Failure(PaymentNotAboveMin)
    ensures c.feesInPercent <= 100 ==> Accept(c, c.tokenId, c.minAmount + 1).Success?
  {
  }

  /** The worked example: a 12% fee on 1000 EGLD above a minimum of 100. */
  lemma WorkedExample(a: Address, b: Address)
    ensures Configure(100, 12, a, b, Some(Egld)).Success?
    ensures var c := Configure(100, 12, a, b, Some(Egld)).value;
      Accept(c, Egld, 1000) == Success(Split(120, 880)) &&
      Accept(c, Egld, 100) == Failure(PaymentNotAboveMin) &&
      Accept(c, TokenId("USDC"), 1000) == Failure(InvalidPaymentToken)
  {
  }

  // ---------------------------------------------------------------------
  // The contract

  /** The deployed contract: its five storage values and the transfers it has
      issued through the host. */
  class GtwFees1 {
    var minAmount: nat
    var feesInPercent: nat
    var acceptedFeesAddrId: Address
    var acceptedRestAddrId: Address
    var acceptedPaymentTokenId: TokenId
    /** The outbound transfers issued so far, oldest first. */
    var sent: seq<Transfer>

    /** Deployment never stores a zero percentage. */
    ghost predicate Valid()
      reads this
    {
      feesInPercent > 0
    }

    /** The stored configuration. */
    function Stored(): Config
      reads this
    {
      Config(minAmount, feesInPercent, acceptedFeesAddrId, acceptedRestAddrId, acceptedPaymentTokenId)
    }

    // The five read-only views.
    function GetAcceptedPaymentToken(): TokenId reads this { acceptedPaymentTokenId }
    function GetAcceptedFeesAddr(): Address reads this { acceptedFeesAddrId }
    function GetAcceptedRestAddr(): Address reads this { acceptedRestAddrId }
    function GetMinAmount(): nat reads this { minAmount }
    function FeesInPercent(): nat reads this { feesInPercent }

    /** Stores a configuration that deployment has validated. */
    constructor FromConfig(c: Config)
      requires c.feesInPercent > 0
      ensures Valid() && Stored() == c && sent == []
    {
      minAmount := c.minAmount;
      feesInPercent := c.feesInPercent;
      acceptedFeesAddrId := c.feesAddr;
      acceptedRestAddrId := c.restAddr;
      acceptedPaymentTokenId := c.tokenId;
      sent := [];
    }

    /** `init`: validates the parameters and stores them; on failure no
        contract exists, since a failed init aborts the deployment. */
    static method Deploy(minAmount: nat, feesInPercent: nat, feesAddr: Address, restAddr: Address,
                         optTokenId: Option<TokenId>) returns (r: Result<GtwFees1, Error>)
      ensures r.Success? <==> Configure(minAmount, feesInPercent, feesAddr, restAddr, optTokenId).Success?
      ensures r.Failure? ==> r.error == Configure(minAmount, feesInPercent, feesAddr, restAddr, optTokenId).error
      ensures r.Success? ==>
        fresh(r.value) && r.value.Valid() && r.value.sent == [] &&
        r.value.Stored() == Configure(minAmount, feesInPercent, feesAddr, restAddr, optTokenId).value
    {
      if !(minAmount >= 0) {
        return Failure(MinAmountNegative);
      }
      if !(feesInPercent > 0) {
        return Failure(FeesPercentNotPositive);
      }
      var tokenId := match optTokenId
        case Some(t) => t
        case None => Egld;
      var contract := new GtwFees1.FromConfig(Config(minAmount, feesInPercent, feesAddr, restAddr, tokenId));
      return Success(contract);
    }

    /** The host's `send().direct`: records one outbound transfer. */
    method Direct(dest: Address, token: TokenId, nonce: nat, amount: nat, memo: string)
      modifies this`sent
      ensures sent == old(sent) + [Transfer(dest, token, nonce, amount, memo)]
    {
      sent := sent + [Transfer(dest, token, nonce, amount, memo)];
    }

    /** `sendToken`: checks the deposit, splits it and forwards both shares.
        The configuration is never changed; a refused deposit issues no
        transfer; an accepted one issues exactly the two payouts and moves
        exactly the deposit. */
    method SendToken(paymentToken: TokenId, paymentAmount: nat) returns (r: Result<(), Error>)
      requires Valid()
      modifies this`sent
      ensures Valid() && Stored() == old(Stored())
      ensures r.Success? <==> Accept(Stored(), paymentToken, paymentAmount).Success?
      ensures r.Failure? ==>
        r.error == Accept(Stored(), paymentToken, paymentAmount).error && sent == old(sent)
      ensures r.Success? ==>
        sent == old(sent) + Payouts(Stored(), paymentToken, Accept(Stored(), paymentToken, paymentAmount).value)
      ensures r.Success? ==> Sent(sent, paymentToken) == old(Sent(sent, paymentToken)) + paymentAmount
      ensures r.Success? && paymentAmount >= 100 ==> sent[|old(sent)|].amount > 0
    {
      if !(paymentToken == acceptedPaymentTokenId) {
        return Failure(InvalidPaymentToken);
      }
      if !(paymentAmount > minAmount) {
        return Failure(PaymentNotAboveMin);
      }
      var amountFees := paymentAmount * feesInPercent / 100;
      if amountFees > paymentAmount {
        return Failure(SubtractionUnderflow);
      }
      var amountRest := paymentAmount - amountFees;
      Direct(acceptedFeesAddrId, paymentToken, 0, amountFees, FeesMemo);
      Direct(acceptedRestAddrId, paymentToken, 0, amountRest, PaymentMemo);
      ghost var payouts := Payouts(Stored(), paymentToken, Split(amountFees, amountRest));
      assert sent == old(sent) + payouts;
      SentAppend(old(sent), payouts, paymentToken);
      PayoutsConserve(Stored(), paymentToken, paymentAmount, paymentToken);
      FeesPositive(paymentAmount, feesInPercent);
      return Success(());
    }
  }
}
