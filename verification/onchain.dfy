/** The checks and the gas policy of `executePaymentOnChain`: deadline normalisation and
    its guards, the NUSD balance check, simulation, gas-limit computation, sending, and the
    classification of thrown errors. Every chain call is an oracle answer in `Chain`. */
module Onchain {
  import opened Wrappers
  import opened Text

  /** Deadlines above this are taken to be in milliseconds. */
  const MillisecondThreshold: int := 10000000000
  /** The least time left, in seconds, for a payment to be attempted. */
  const MinRemainingSec: int := 60
  const DefaultGasLimit: nat := 500000
  const MinGasLimit: nat := 300000

  /** A call that returns a value or throws with a message (`shortMessage || reason ||
      message`, as the catch block reads it). */
  datatype Rpc<T> = Done(value: T) | Threw(message: string)

  datatype Receipt = Receipt(status: int, hash: string)

  /** The payment data from the API: the deadline as `BigInt(paymentData.deadline)` would
      read it (`None` when that conversion throws), and the conversion of `totalAmount`. */
  datatype PaymentData = PaymentData(deadline: Option<int>, totalAmount: Rpc<int>)

  /** The answers of the clock and the chain for one payment:
      `permit` is `Some(msg)` when signing the permit throws;
      `params` is `Some(msg)` when converting one of the call parameters throws;
      `simulation` is `Some(reason)` when the static call reverts;
      `send` covers sending the transaction and waiting for its receipt;
      `formatEther` renders an amount in wei for a message. */
  datatype Chain = Chain(
    nowMs: nat,
    balance: Rpc<int>,
    permit: Option<string>,
    params: Option<string>,
    simulation: Option<string>,
    estimate: Rpc<nat>,
    send: Rpc<Receipt>,
    formatEther: int -> string)

  datatype PayResult = Paid(txHash: string) | PayFailed(error: string)

  /** What one call does: its result, the deadline handed to the permit signature when
      signing was attempted, whether the transaction was simulated, and the gas limit it
      was sent with. */
  datatype Payment = Payment(result: PayResult, permitDeadline: Option<int>, simulated: bool, gasLimit: Option<nat>)

  /** `deadline > 10000000000n ? deadline / 1000n : deadline` */
  function NormalizeDeadline(deadline: int): (sec: int)
    ensures deadline > MillisecondThreshold ==> sec * 1000 <= deadline < sec * 1000 + 1000
    ensures deadline <= MillisecondThreshold ==> sec == deadline
    ensures sec <= deadline
  {
    if deadline > MillisecondThreshold then deadline / 1000 else deadline
  }

  /** Seconds left before the deadline, against the clock read in whole seconds. */
  function RemainingSec(deadline: int, nowMs: nat): int {
    NormalizeDeadline(deadline) - nowMs / 1000
  }

  /** A deadline of this century reads the same whether the shop sends it in seconds or in
      milliseconds. */
  lemma RemainingInEitherUnit(sec: int, ms: int, nowMs: nat)
    requires MillisecondThreshold / 1000 < sec <= MillisecondThreshold && 0 <= ms < 1000
    ensures RemainingSec(sec * 1000 + ms, nowMs) == RemainingSec(sec, nowMs)
  {
  }

  /** The time left never grows as the clock advances. */
  lemma RemainingShrinks(deadline: int, nowMs: nat, laterMs: nat)
    requires nowMs <= laterMs
    ensures RemainingSec(deadline, laterMs) <= RemainingSec(deadline, nowMs)
  {
  }

  /** Gas limit: half again the estimate, at least 300000; 500000 when estimation throws. */
  function GasLimit(estimate: Rpc<nat>): (g: nat)
    ensures g >= MinGasLimit
    ensures estimate.Threw? ==> g == DefaultGasLimit
    ensures estimate.Done? ==> g >= estimate.value && g >= estimate.value * 150 / 100
    ensures estimate.Done? && g > MinGasLimit ==> g * 100 <= estimate.value * 150
  {
    match estimate
    case Threw(_) => DefaultGasLimit
    case Done(e) => if e * 150 / 100 < MinGasLimit then MinGasLimit else e * 150 / 100
  }

  /** The outer catch: an empty message reads `Unknown error`; insufficient funds and
      nonce errors are reworded. */
  function ClassifyThrown(message: string): (error: string)
    ensures Contains(message, "insufficient funds") ==> error == "Insufficient Sepolia ETH for gas fees"
    ensures !Contains(message, "insufficient funds") && Contains(message, "nonce") ==> error == "Nonce conflict: " + message
    ensures message != "" && !Contains(message, "insufficient funds") && !Contains(message, "nonce") ==> error == message
    ensures message == "" ==> error == "Unknown error"
  {
    // "Unknown error" mentions neither phrase, so the fallback is tested first.
    if message == "" then "Unknown error"
    else if Contains(message, "insufficient funds") then "Insufficient Sepolia ETH for gas fees"
    else if Contains(message, "nonce") then "Nonce conflict: " + message
    else message
  }

  function Failed(error: string): Payment {
    Payment(PayFailed(error), None, false, None)
  }

  /** Every check before the permit passes: the deadline converts and leaves at least a
      minute, the total and the balance are read, and the balance covers the total. */
  predicate ReadyToSign(data: PaymentData, chain: Chain) {
    data.deadline.Some? && RemainingSec(data.deadline.value, chain.nowMs) >= MinRemainingSec
    && data.totalAmount.Done? && chain.balance.Done? && chain.balance.value >= data.totalAmount.value
  }

  /** Every step after the checks succeeds: the permit is signed, the parameters convert,
      the simulation does not revert, and the receipt arrives with a non-zero status. */
  predicate ChainAccepts(chain: Chain) {
    chain.permit.None? && chain.params.None? && chain.simulation.None?
    && chain.send.Done? && chain.send.value.status != 0
  }

  /** `executePaymentOnChain`, step by step. */
  function ExecutePayment(data: PaymentData, chain: Chain): (p: Payment)
    ensures data.deadline.None? ==> p == Failed("Invalid deadline in payment data")
    ensures p.permitDeadline.Some? ==> p.permitDeadline == data.deadline
    ensures p.simulated ==> (data.deadline.Some? && RemainingSec(data.deadline.value, chain.nowMs) >= MinRemainingSec
      && data.totalAmount.Done? && chain.balance.Done? && chain.balance.value >= data.totalAmount.value
      && p.permitDeadline.Some?)
    ensures p.gasLimit.Some? ==> p.simulated && chain.simulation.None? && p.gasLimit.value == GasLimit(chain.estimate)
    ensures p.result.Paid? ==> (p.gasLimit.Some? && chain.send.Done?
      && chain.send.value.status != 0 && p.result.txHash == chain.send.value.hash)
    ensures p.result.Paid? <==> ReadyToSign(data, chain) && ChainAccepts(chain)
  {
    match data.deadline
    case None => Failed("Invalid deadline in payment data")
    case Some(deadline) =>
      var remaining := RemainingSec(deadline, chain.nowMs);
      if remaining <= 0 then Failed("Deadline already expired (" + NatToString(-remaining) + "s ago)")
      else if remaining < MinRemainingSec then Failed("Deadline too close (" + NatToString(remaining) + "s left, need >60s)")
      else match data.totalAmount
      case Threw(m) => Failed(ClassifyThrown(m))
      case Done(total) =>
        match chain.balance
        case Threw(m) => Failed(ClassifyThrown(m))
        case Done(balance) =>
          if balance < total then
            Failed("Insufficient NUSD: have " + chain.formatEther(balance) + ", need " + chain.formatEther(total))
          else if chain.permit.Some? then
            Payment(PayFailed(ClassifyThrown(chain.permit.value)), Some(deadline), false, None)
          else if chain.params.Some? then
            Payment(PayFailed(ClassifyThrown(chain.params.value)), Some(deadline), false, None)
          else if chain.simulation.Some? then
            Payment(PayFailed("Simulation failed: " + chain.simulation.value), Some(deadline), true, None)
          else
            var gas := GasLimit(chain.estimate);
            match chain.send
            case Threw(m) => Payment(PayFailed(ClassifyThrown(m)), Some(deadline), true, Some(gas))
            case Done(receipt) =>
              if receipt.status == 0 then Payment(PayFailed("Transaction reverted on-chain"), Some(deadline), true, Some(gas))
              else Payment(Paid(receipt.hash), Some(deadline), true, Some(gas))
  }

  /** When every check and every chain step succeeds, the call pays with the receipt's
      hash, after signing the permit with the deadline as given and simulating, at the
      gas limit of the estimate. */
  lemma PaidWhenAllSucceed(data: PaymentData, chain: Chain)
    requires ReadyToSign(data, chain) && ChainAccepts(chain)
    ensures ExecutePayment(data, chain)
      == Payment(Paid(chain.send.value.hash), data.deadline, true, Some(GasLimit(chain.estimate)))
  {
  }

  /** Once the checks pass, the first chain step that fails decides the error: a thrown
      permit, parameter conversion or send is classified, a revert in simulation carries
      its reason, and a receipt with status 0 is a revert on chain. A thrown amount or
      balance read, before that, is classified too. */
  lemma ChainFailureTexts(data: PaymentData, chain: Chain)
    ensures (data.deadline.Some? && RemainingSec(data.deadline.value, chain.nowMs) >= MinRemainingSec
             && data.totalAmount.Threw?)
      ==> ExecutePayment(data, chain) == Failed(ClassifyThrown(data.totalAmount.message))
    ensures (data.deadline.Some? && RemainingSec(data.deadline.value, chain.nowMs) >= MinRemainingSec
             && data.totalAmount.Done? && chain.balance.Threw?)
      ==> ExecutePayment(data, chain) == Failed(ClassifyThrown(chain.balance.message))
    ensures ReadyToSign(data, chain) && chain.permit.Some? ==>
      ExecutePayment(data, chain).result == PayFailed(ClassifyThrown(chain.permit.value))
    ensures ReadyToSign(data, chain) && chain.permit.None? && chain.params.Some? ==>
      ExecutePayment(data, chain).result == PayFailed(ClassifyThrown(chain.params.value))
    ensures ReadyToSign(data, chain) && chain.permit.None? && chain.params.None? && chain.simulation.Some? ==>
      ExecutePayment(data, chain).result == PayFailed("Simulation failed: " + chain.simulation.value)
    ensures (ReadyToSign(data, chain) && chain.permit.None? && chain.params.None? && chain.simulation.None?
             && chain.send.Threw?)
      ==> ExecutePayment(data, chain).result == PayFailed(ClassifyThrown(chain.send.message))
    ensures (ReadyToSign(data, chain) && chain.permit.None? && chain.params.None? && chain.simulation.None?
             && chain.send.Done? && chain.send.value.status == 0)
      ==> ExecutePayment(data, chain).result == PayFailed("Transaction reverted on-chain")
  {
  }

  lemma {:induction false} PrefixedContains(p: string, rest: string, s: string)
    requires s == p + rest
    ensures Contains(s, p)
  {
    PrefixContained(p, rest);
  }

  /** A deadline at or before the current second is rejected as expired, with a message
      the purchase loop recognises, and nothing reaches the chain. */
  lemma ExpiredRejected(data: PaymentData, chain: Chain)
    requires data.deadline.Some? && RemainingSec(data.deadline.value, chain.nowMs) <= 0
    ensures var p := ExecutePayment(data, chain);
      p.result.PayFailed? && Contains(p.result.error, "Deadline already expired")
      && p.permitDeadline.None? && !p.simulated
  {
    var n := NatToString(-RemainingSec(data.deadline.value, chain.nowMs));
    PrefixedContains("Deadline already expired", " (" + n + "s ago)",
                     "Deadline already expired (" + n + "s ago)");
  }

  /** Less than a minute left (but some) is rejected as too close, before any chain call. */
  lemma TooCloseRejected(data: PaymentData, chain: Chain)
    requires data.deadline.Some?
    requires 0 < RemainingSec(data.deadline.value, chain.nowMs) < MinRemainingSec
    ensures var p := ExecutePayment(data, chain);
      p.result.PayFailed? && Contains(p.result.error, "Deadline too close")
      && p.permitDeadline.None? && !p.simulated
  {
    var n := NatToString(RemainingSec(data.deadline.value, chain.nowMs));
    PrefixedContains("Deadline too close", " (" + n + "s left, need >60s)",
                     "Deadline too close (" + n + "s left, need >60s)");
  }

  /** A balance below the total is rejected with an `Insufficient NUSD` message, before
      the permit is signed. */
  lemma ShortBalanceRejected(data: PaymentData, chain: Chain)
    requires data.deadline.Some? && RemainingSec(data.deadline.value, chain.nowMs) >= MinRemainingSec
    requires data.totalAmount.Done? && chain.balance.Done? && chain.balance.value < data.totalAmount.value
    ensures var p := ExecutePayment(data, chain);
      p.result.PayFailed? && Contains(p.result.error, "Insufficient NUSD") && p.permitDeadline.None?
  {
    var have, need := chain.formatEther(chain.balance.value), chain.formatEther(data.totalAmount.value);
    PrefixedContains("Insufficient NUSD", ": have " + have + ", need " + need,
                     "Insufficient NUSD: have " + have + ", need " + need);
  }

  /** A thrown error that mentions insufficient funds becomes the message the purchase
      loop treats as fatal for the whole run. */
  lemma {:induction false} InsufficientFundsReworded(message: string)
    requires Contains(message, "insufficient funds")
    ensures Contains(ClassifyThrown(message), "Insufficient Sepolia ETH")
  {
    PrefixedContains("Insufficient Sepolia ETH", " for gas fees", "Insufficient Sepolia ETH for gas fees");
  }
}
