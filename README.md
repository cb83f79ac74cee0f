# GtwFees1 payment splitter, modelled in Dafny

`GtwFees1` is a MultiversX (Elrond) smart contract that forwards deposits. At
deployment (`init`) it stores five values: a minimum amount, a fee
percentage, a fees address, a rest address and the accepted token (EGLD when
none is given). Its one payable endpoint, `sendToken`, takes a deposit. It
refuses a deposit in another token, then one that is not strictly above the
minimum. Otherwise it computes `fees = amount * fees_in_percent / 100`,
rounded down, and `rest = amount - fees`. It sends `fees` to the fees address
with memo "fees from gtw sc" and then `rest` to the rest address with memo
"payment from gtw sc".

The project has two modules:

- `Wrappers` (`wrappers.dfy`): `Option` for the optional token argument and
  `Result` for the contract's `SCResult` returns.
- `Gateway` (`gateway.dfy`): the contract itself.
  - Specification functions `Configure` (what `init` stores or why it aborts)
    and `Accept` (what `sendToken` does with a deposit). The fee arithmetic is
    in `FeesOf` and `SplitPayment`.
  - Lemmas about the arithmetic and the payouts.
  - The class `GtwFees1`. Its fields are the five storage values plus `sent`,
    the log of outbound transfers issued through the host. `Deploy` models
    `init`. `SendToken` models `sendToken`. `Direct` models the host's
    `send().direct`. The five view getters (`GetAcceptedPaymentToken`,
    `GetAcceptedFeesAddr`, `GetAcceptedRestAddr`, `GetMinAmount`,
    `FeesInPercent`) are one-line reads of the fields.

Amounts and percentages are `BigUint` in the contract and `nat` here.
Addresses and token identifiers are plain datatypes compared only for
equality.

Three points where the code differs from its own documentation:

- The guard `min_amount >= 0` (gtwfees1.rs:29) can never fail on an unsigned
  value. `Deploy` keeps it as written. `Configure` states that deployment
  succeeds exactly when `fees_in_percent > 0`. A documented requirement that a
  negative minimum be refused therefore has nothing to act on.
- Nothing caps `fees_in_percent` at 100 (gtwfees1.rs:16, 31). With a larger
  percentage the fee share can exceed the deposit. The `BigUint` subtraction
  at gtwfees1.rs:66 then aborts the call before any transfer. The model makes
  this an explicit error, `SubtractionUnderflow`. `SplitUnderflowIff` states
  exactly when it happens: `amount * (pct - 100) >= 100`. Conservation is
  proved for every deposit that is accepted, not assumed.
- The doc comment says only a fixed amount can be sent and that a refund
  ("pong") exists (gtwfees1.rs:7-11). The code accepts any amount above the
  minimum and has no refund. The model follows the code.

## Model

| member | source | states |
|---|---|---|
| `Gateway.Configure` | gtwfees1.rs:29-39 | deployment succeeds iff `fees_in_percent > 0`, since the minimum guard cannot fail; otherwise the error is the fee-percentage one; on success the minimum, percentage and both addresses are stored as given, and the token is the given one or EGLD when absent |
| `Gateway.GtwFees1.Deploy` | gtwfees1.rs:20-42 | `init` succeeds or fails exactly as `Configure` does; on success a fresh contract holds `Configure`'s configuration, satisfies the invariant `fees_in_percent > 0`, and has issued no transfer |
| `Gateway.GtwFees1.FromConfig` | gtwfees1.rs:30-39 | the five storage writes of a validated configuration (non-zero percentage): the stored configuration is exactly the one given, the invariant `fees_in_percent > 0` holds, and the transfer log is empty |
| `Gateway.FeesOf` | gtwfees1.rs:64 | the fee share is the truncated quotient: `fees * 100 <= amount * pct < fees * 100 + 100` |
| `Gateway.SplitPayment` | gtwfees1.rs:64-66 | an accepted split has fee share `FeesOf(amount, pct)` and `fees + rest == amount`; the only failure is the subtraction underflow; with `pct <= 100` it always succeeds |
| `Gateway.FeesAtMostAmount` | gtwfees1.rs:64-66 | with `pct <= 100` the fee share never exceeds the deposit, so the subtraction cannot go negative |
| `Gateway.SplitUnderflowIff` | gtwfees1.rs:64-66 | the subtraction aborts if and only if `amount * (pct - 100) >= 100`, so never when `pct <= 100` |
| `Gateway.FeesMonotoneInAmount` | gtwfees1.rs:64 | a larger deposit never yields a smaller fee share |
| `Gateway.FeesMonotoneInPercent` | gtwfees1.rs:64 | a larger percentage never yields a smaller fee share |
| `Gateway.RestRoundsUp` | gtwfees1.rs:64-66 | with `pct <= 100` the rest is `amount * (100 - pct) / 100` rounded up, so the rounding remainder goes to the rest address |
| `Gateway.Accept` | gtwfees1.rs:55-66 | a deposit in another token fails with "Invalid payment token" whatever its amount; in the right token, an amount at or below the minimum fails with the minimum error; an accepted deposit is in the right token, strictly above the minimum, and split into a truncated fee share and a rest summing to the deposit; with `pct <= 100` every such deposit is accepted; past both checks the call fails if and only if `amount * (pct - 100) >= 100`, and then with the subtraction underflow |
| `Gateway.FeesPositive` | gtwfees1.rs:31 | the fee share is non-zero exactly when `amount * pct >= 100`, so with the non-zero percentage deployment demands every deposit of at least 100 units yields a fee |
| `Gateway.MinimumIsStrict` | gtwfees1.rs:59-62 | a deposit equal to the minimum is refused; one unit more is accepted when `pct <= 100` |
| `Gateway.Payouts` | gtwfees1.rs:68-71 | exactly two transfers, both in the deposit's token with nonce 0: first the fee share to the fees address with memo "fees from gtw sc", then the rest to the rest address with memo "payment from gtw sc" |
| `Gateway.SentAppend` | gtwfees1.rs:68-71 | the amount of a token moved by a log is additive over concatenation |
| `Gateway.PayoutsConserve` | gtwfees1.rs:64-71 | the two payouts of an accepted deposit move exactly the deposit in its own token and nothing in any other token |
| `Gateway.WorkedExample` | gtwfees1.rs:29-71 | with minimum 100 and 12% in EGLD: 1000 EGLD splits into 120 and 880, 100 EGLD is refused as not above the minimum, 1000 of another token is refused as the wrong token |
| `Gateway.Error.Message` | gtwfees1.rs:29-61 | the `require!` messages of the two init guards and the two sendToken guards, word for word |
| `Gateway.GtwFees1.Stored` | gtwfees1.rs:56-71 | the five storage `.get()` reads, gathered into one configuration value |
| `Gateway.GtwFees1.Direct` | gtwfees1.rs:68-71 | the host transfer appends exactly one record (destination, token, nonce, amount, memo) to the log |
| `Gateway.GtwFees1.GetAcceptedPaymentToken` | gtwfees1.rs:78-80 | view: the stored accepted token |
| `Gateway.GtwFees1.GetAcceptedFeesAddr` | gtwfees1.rs:82-84 | view: the stored fees address |
| `Gateway.GtwFees1.GetAcceptedRestAddr` | gtwfees1.rs:86-88 | view: the stored rest address |
| `Gateway.GtwFees1.GetMinAmount` | gtwfees1.rs:90-92 | view: the stored minimum amount |
| `Gateway.GtwFees1.FeesInPercent` | gtwfees1.rs:95-97 | view: the stored fee percentage |
| `Gateway.GtwFees1.SendToken` | gtwfees1.rs:50-74 | the configuration is unchanged; the call succeeds or fails exactly as `Accept` does, with the same error; a refused deposit issues no transfer; an accepted one appends exactly the fee transfer and then the rest transfer, and the log's total in the deposit's token grows by exactly the deposit; the object invariant `fees_in_percent > 0` is kept, and with it an accepted deposit of at least 100 units sends a non-zero fee |

## Left out

- Ledger effects of `send().direct` (gtwfees1.rs:68-71): it is a host call with no visible semantics. It is modelled only as a record appended to the `sent` log.
- Framework plumbing: the `elrond_wasm` macros and annotations, `SingleValueMapper` persistence, and `OptionalArg`/`#[var_args]` decoding. They are replaced by plain fields and an `Option` parameter.
- Transaction rollback. `init` writes `min_amount` (gtwfees1.rs:30) before its second guard. A failed `init` aborts the deployment and the host discards that write. The model therefore creates no contract object on failure.
- The message of `SubtractionUnderflow` is the model's own wording. The framework's `BigUint` subtraction, which raises that error, is not part of this model.
- The internal representations of `BigUint`, `ManagedAddress` and `TokenIdentifier`.
- The commented-out alternative fee formula at gtwfees1.rs:65.
- The "pong" refund path named only in the doc comment (gtwfees1.rs:7, 11): the code does not implement it.
