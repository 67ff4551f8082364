/** `performPurchase`: the balance and product pre-checks, then the control loop over at
    most five candidates, each with at most two payment attempts, a run-wide breaker on
    on-chain failures, and the errors that end one candidate or the whole run. The shop's
    API calls and the chain are oracles indexed by the candidate's position in the try
    order and the attempt number. */
module Purchase {
  import opened Wrappers
  import opened Text
  import opened JsonValue
  import opened Onchain
  import opened Catalog
  import opened Seqs

  /** `MAX_CONSECUTIVE_ONCHAIN_FAILS` */
  const MaxOnChainFails: nat := 5
  /** On-chain payment attempts per candidate. */
  const MaxPayAttempts: nat := 2
  /** `ethers.parseEther('0.0005')` */
  const MinGasWei: nat := 500000000000000

  /** The answers of the shop API and the chain for the candidate at position `i` of the try
      order: `detail(i)` its SKU, `order(i)` the order created for it, and `pay(i, a)` the
      payment attempt `a`: `Err` when `getPaymentData` fails, else the result of
      `executePaymentOnChain`. `ChainShop` builds `pay` from the payment data and the chain. */
  datatype Shop = Shop(
    detail: nat -> Result<int>,
    order: nat -> Result<int>,
    pay: (nat, nat) -> Result<PayResult>)

  /** One payment attempt: fetch the payment data, then run `executePaymentOnChain` on it. */
  function Attempt(payData: Result<PaymentData>, chain: Chain): Result<PayResult> {
    match payData
    case Err(e) => Err(e)
    case Ok(data) => Ok(ExecutePayment(data, chain).result)
  }

  /** The shop whose attempt `a` for candidate `i` reads `payData(i, a)` and pays on
      `chain(i, a)`. */
  function ChainShop(detail: nat -> Result<int>, order: nat -> Result<int>,
                     payData: (nat, nat) -> Result<PaymentData>, chain: (nat, nat) -> Chain): (shop: Shop)
    ensures forall i, a :: shop.pay(i, a) == Attempt(payData(i, a), chain(i, a))
  {
    Shop(detail, order, (i: nat, a: nat) => Attempt(payData(i, a), chain(i, a)))
  }

  /** Why a purchase did not happen; `Message` gives the text the source returns. */
  datatype FailReason =
    | NoBalance
    | LowGas(ethFormatted: string)
    | ListFailed(error: string)
    | NoProducts
    | CantAfford(cheapest: nat)
    | Breaker(count: nat, lastError: string)
    | Fatal(error: string)
    | AllFailed(tried: nat, lastError: string)

  datatype PurchaseResult = Bought(product: Product, orderId: int, txHash: string)
                          | Failed(reason: FailReason)

  function Message(reason: FailReason): string {
    match reason
    case NoBalance => "No NUSD balance"
    case LowGas(eth) => "Insufficient Sepolia ETH for gas: " + eth + " ETH"
    case ListFailed(e) => "Product list failed: " + e
    case NoProducts => "No products available"
    case CantAfford(price) => "Can't afford any product. Cheapest: " + NatToString(price) + " NUSD"
    case Breaker(count, e) => NatToString(count) + " consecutive on-chain failures. Last: " + e
    case Fatal(e) => e
    case AllFailed(n, e) => "All " + NatToString(n) + " products failed. Last: " + e
  }

  /** The errors after which a candidate gets no second payment attempt. */
  predicate StopsRetry(error: string) {
    Contains(error, "Insufficient NUSD") || Contains(error, "Insufficient Sepolia ETH")
    || Contains(error, "Deadline already expired") || Contains(error, "Invalid deadline")
  }

  /** The errors after which no further candidate is tried. */
  predicate Aborts(error: string) {
    Contains(error, "Insufficient NUSD") || Contains(error, "Insufficient Sepolia ETH")
  }

  /** The payment attempts of one candidate: the transaction hash or the last error, and
      how many attempts (payment-data requests) were made. */
  datatype PayLoop = PaidOnChain(txHash: string, attempts: nat) | NotPaid(error: string, attempts: nat)

  function Later(r: PayLoop, k: nat): PayLoop {
    match r
    case PaidOnChain(tx, n) => PaidOnChain(tx, n + k)
    case NotPaid(e, n) => NotPaid(e, n + k)
  }

  /** The inner `for (attempt ...)` loop from `attempt` on, `lastError` holding the error of
      the attempt before. */
  function PayFrom(shop: Shop, i: nat, attempt: nat, lastError: string): (r: PayLoop)
    requires attempt <= MaxPayAttempts
    ensures attempt == MaxPayAttempts ==> r == NotPaid(lastError, 0)
    ensures attempt < MaxPayAttempts ==> 1 <= r.attempts <= MaxPayAttempts - attempt
    decreases MaxPayAttempts - attempt
  {
    if attempt == MaxPayAttempts then NotPaid(lastError, 0)
    else match shop.pay(i, attempt)
      case Err(e) => NotPaid(e, 1)
      case Ok(result) =>
        if result.Paid? then PaidOnChain(result.txHash, 1)
        else if StopsRetry(result.error) then NotPaid(result.error, 1)
        else Later(PayFrom(shop, i, attempt + 1, result.error), 1)
  }

  /** What happened to one candidate: skipped before any payment (detail or order failed),
      not paid after its payment attempts, or paid. */
  datatype Outcome = Skipped(error: string) | Unpaid(error: string) | Confirmed(orderId: int, txHash: string)

  function CandidateOutcome(shop: Shop, i: nat): (o: Outcome)
    ensures o.Skipped? <==> shop.detail(i).Err? || shop.order(i).Err?
    ensures o.Skipped? ==> o.error == (if shop.detail(i).Err? then shop.detail(i).error else shop.order(i).error)
    ensures o.Confirmed? <==> !o.Skipped? && PayFrom(shop, i, 0, "").PaidOnChain?
    ensures o.Confirmed? ==> o.orderId == shop.order(i).value && o.txHash == PayFrom(shop, i, 0, "").txHash
    ensures o.Unpaid? ==> o.error == PayFrom(shop, i, 0, "").error
  {
    match shop.detail(i)
    case Err(e) => Skipped(e)
    case Ok(_) =>
      match shop.order(i)
      case Err(e) => Skipped(e)
      case Ok(orderId) =>
        match PayFrom(shop, i, 0, "")
        case PaidOnChain(tx, _) => Confirmed(orderId, tx)
        case NotPaid(e, _) => Unpaid(e)
  }

  /** The outer loop from candidate `i` on, with the breaker count and the last error. */
  function RunFrom(tryOrder: seq<Product>, shop: Shop, i: nat, fails: nat, lastError: string): (r: PurchaseResult)
    requires i <= |tryOrder|
    ensures r.Failed? ==> r.reason.AllFailed? || r.reason.Breaker? || r.reason.Fatal?
    ensures r.Failed? && r.reason.AllFailed? ==> r.reason.tried == |tryOrder|
    ensures r.Failed? && r.reason.Breaker? ==> r.reason.count > fails && r.reason.count >= MaxOnChainFails
    ensures r.Failed? && r.reason.Fatal? ==> Aborts(r.reason.error)
    decreases |tryOrder| - i
  {
    if i == |tryOrder| then Failed(AllFailed(|tryOrder|, lastError))
    else match CandidateOutcome(shop, i)
      case Skipped(e) => RunFrom(tryOrder, shop, i + 1, fails, e)
      case Confirmed(orderId, tx) => Bought(tryOrder[i], orderId, tx)
      case Unpaid(e) =>
        if fails + 1 >= MaxOnChainFails then Failed(Breaker(fails + 1, e))
        else if Aborts(e) then Failed(Fatal(e))
        else RunFrom(tryOrder, shop, i + 1, fails + 1, e)
  }

  /** A second payment attempt is made exactly when the first got its payment data and
      failed on chain with an error that is not one of the stop phrases. */
  lemma SecondAttemptOnlyAfterRetryableFailure(shop: Shop, i: nat)
    ensures PayFrom(shop, i, 0, "").attempts == MaxPayAttempts <==>
      (shop.pay(i, 0).Ok? && shop.pay(i, 0).value.PayFailed? && !StopsRetry(shop.pay(i, 0).value.error))
  {
  }

  /** An invalid deadline in the payment data ends the candidate's attempts at once. */
  lemma InvalidDeadlineNotRetried(detail: nat -> Result<int>, order: nat -> Result<int>,
                                  payData: (nat, nat) -> Result<PaymentData>, chain: (nat, nat) -> Chain, i: nat)
    requires payData(i, 0).Ok? && payData(i, 0).value.deadline.None?
    ensures PayFrom(ChainShop(detail, order, payData, chain), i, 0, "") == NotPaid("Invalid deadline in payment data", 1)
  {
    var e := "Invalid deadline in payment data";
    var shop := ChainShop(detail, order, payData, chain);
    assert shop.pay(i, 0) == Ok(PayFailed(e));
    PrefixedContains("Invalid deadline", " in payment data", e);
    assert StopsRetry(e);
  }

  /** An expired deadline ends the candidate's attempts at once. */
  lemma ExpiredDeadlineNotRetried(detail: nat -> Result<int>, order: nat -> Result<int>,
                                  payData: (nat, nat) -> Result<PaymentData>, chain: (nat, nat) -> Chain, i: nat)
    requires payData(i, 0).Ok? && payData(i, 0).value.deadline.Some?
    requires RemainingSec(payData(i, 0).value.deadline.value, chain(i, 0).nowMs) <= 0
    ensures var r := PayFrom(ChainShop(detail, order, payData, chain), i, 0, "");
      r.NotPaid? && r.attempts == 1 && Contains(r.error, "Deadline already expired")
  {
    ExpiredRejected(payData(i, 0).value, chain(i, 0));
  }

  /** A balance below the order total ends the candidate's attempts at once, with an error
      that ends the whole run. */
  lemma ShortBalanceNotRetried(detail: nat -> Result<int>, order: nat -> Result<int>,
                               payData: (nat, nat) -> Result<PaymentData>, chain: (nat, nat) -> Chain, i: nat)
    requires payData(i, 0).Ok? && payData(i, 0).value.deadline.Some?
    requires RemainingSec(payData(i, 0).value.deadline.value, chain(i, 0).nowMs) >= MinRemainingSec
    requires payData(i, 0).value.totalAmount.Done? && chain(i, 0).balance.Done?
    requires chain(i, 0).balance.value < payData(i, 0).value.totalAmount.value
    ensures var r := PayFrom(ChainShop(detail, order, payData, chain), i, 0, "");
      r.NotPaid? && r.attempts == 1 && Aborts(r.error)
  {
    ShortBalanceRejected(payData(i, 0).value, chain(i, 0));
  }

  /** A candidate whose detail and order load, and whose first payment attempt gets its data
      and passes every check and chain step, is confirmed with that order and the receipt's
      hash. */
  lemma FirstAttemptConfirms(detail: nat -> Result<int>, order: nat -> Result<int>,
                             payData: (nat, nat) -> Result<PaymentData>, chain: (nat, nat) -> Chain, i: nat)
    requires detail(i).Ok? && order(i).Ok? && payData(i, 0).Ok?
    requires ReadyToSign(payData(i, 0).value, chain(i, 0)) && ChainAccepts(chain(i, 0))
    ensures CandidateOutcome(ChainShop(detail, order, payData, chain), i)
      == Confirmed(order(i).value, chain(i, 0).send.value.hash)
  {
    PaidWhenAllSucceed(payData(i, 0).value, chain(i, 0));
  }

  /** A candidate that lets the run go on: skipped, or unpaid with an error that does not
      end the run. */
  predicate Passes(o: Outcome) {
    o.Skipped? || (o.Unpaid? && !Aborts(o.error))
  }

  /** The candidates in `[i, k)` that reached payment and were not paid. */
  function CountUnpaid(shop: Shop, i: nat, k: nat): nat
    decreases k - i
  {
    if i >= k then 0 else (if CandidateOutcome(shop, i).Unpaid? then 1 else 0) + CountUnpaid(shop, i + 1, k)
  }

  /** The run started at `i` with `fails` on-chain failures gets to candidate `k`: every
      candidate before it lets the run go on, and the breaker has not fired. */
  predicate Reaches(shop: Shop, i: nat, fails: nat, k: nat) {
    (forall j :: i <= j < k ==> Passes(CandidateOutcome(shop, j)))
    && fails + CountUnpaid(shop, i, k) < MaxOnChainFails
  }

  /** A confirmed candidate that the run reaches is bought. */
  lemma {:induction false} ReachedConfirmedIsBought(tryOrder: seq<Product>, shop: Shop, i: nat, fails: nat,
                                                    lastError: string, k: nat)
    requires i <= k < |tryOrder| && Reaches(shop, i, fails, k) && CandidateOutcome(shop, k).Confirmed?
    ensures RunFrom(tryOrder, shop, i, fails, lastError)
      == Bought(tryOrder[k], CandidateOutcome(shop, k).orderId, CandidateOutcome(shop, k).txHash)
    decreases k - i
  {
    if i < k {
      var o := CandidateOutcome(shop, i);
      assert Passes(o);
      var fails' := if o.Unpaid? then fails + 1 else fails;
      assert Reaches(shop, i + 1, fails', k);
      ReachedConfirmedIsBought(tryOrder, shop, i + 1, fails', o.error, k);
    }
  }

  /** Only a reached, confirmed candidate is bought: at most one purchase, the first
      confirmation. */
  lemma {:induction false} BoughtOnlyIfReached(tryOrder: seq<Product>, shop: Shop, i: nat, fails: nat, lastError: string)
    requires i <= |tryOrder| && fails < MaxOnChainFails
    requires RunFrom(tryOrder, shop, i, fails, lastError).Bought?
    ensures exists k :: (i <= k < |tryOrder| && Reaches(shop, i, fails, k) && CandidateOutcome(shop, k).Confirmed?
      && RunFrom(tryOrder, shop, i, fails, lastError)
         == Bought(tryOrder[k], CandidateOutcome(shop, k).orderId, CandidateOutcome(shop, k).txHash))
  {
    var k := BoughtCandidate(tryOrder, shop, i, fails, lastError);
  }

  /** The position of the candidate a buying run bought. */
  lemma {:induction false} BoughtCandidate(tryOrder: seq<Product>, shop: Shop, i: nat, fails: nat, lastError: string)
    returns (k: nat)
    requires i <= |tryOrder| && fails < MaxOnChainFails
    requires RunFrom(tryOrder, shop, i, fails, lastError).Bought?
    ensures i <= k < |tryOrder| && Reaches(shop, i, fails, k) && CandidateOutcome(shop, k).Confirmed?
    ensures RunFrom(tryOrder, shop, i, fails, lastError)
      == Bought(tryOrder[k], CandidateOutcome(shop, k).orderId, CandidateOutcome(shop, k).txHash)
    decreases |tryOrder| - i
  {
    var o := CandidateOutcome(shop, i);
    if o.Confirmed? {
      k := i;
      assert Reaches(shop, i, fails, i);
    } else {
      var fails' := if o.Unpaid? then fails + 1 else fails;
      BoughtPasses(tryOrder, shop, i, fails, lastError);
      k := BoughtCandidate(tryOrder, shop, i + 1, fails', o.error);
      ReachesBack(shop, i, fails, k);
    }
  }

  /** A run that buys passes every candidate before the bought one. */
  lemma {:induction false} BoughtPasses(tryOrder: seq<Product>, shop: Shop, i: nat, fails: nat, lastError: string)
    requires i <= |tryOrder| && fails < MaxOnChainFails && RunFrom(tryOrder, shop, i, fails, lastError).Bought?
    requires !CandidateOutcome(shop, i).Confirmed?
    ensures var o := CandidateOutcome(shop, i);
      var fails' := if o.Unpaid? then fails + 1 else fails;
      Passes(o) && fails' < MaxOnChainFails && i < |tryOrder|
      && RunFrom(tryOrder, shop, i, fails, lastError) == RunFrom(tryOrder, shop, i + 1, fails', o.error)
  {
  }

  /** A candidate that lets the run go on extends the reach of the run after it back to it. */
  lemma {:induction false} ReachesBack(shop: Shop, i: nat, fails: nat, k: nat)
    requires i < k && Passes(CandidateOutcome(shop, i))
    requires Reaches(shop, i + 1, fails + (if CandidateOutcome(shop, i).Unpaid? then 1 else 0), k)
    ensures Reaches(shop, i, fails, k)
  {
    assert CountUnpaid(shop, i, k) == (if CandidateOutcome(shop, i).Unpaid? then 1 else 0) + CountUnpaid(shop, i + 1, k);
  }

  /** A reached candidate left unpaid with an insufficient-funds error ends the run with
      that error, unless it is the failure that trips the breaker. */
  lemma {:induction false} AbortEndsRun(tryOrder: seq<Product>, shop: Shop, i: nat, fails: nat, lastError: string, k: nat)
    requires i <= k < |tryOrder| && Reaches(shop, i, fails, k)
    requires CandidateOutcome(shop, k).Unpaid? && Aborts(CandidateOutcome(shop, k).error)
    requires fails + CountUnpaid(shop, i, k) + 1 < MaxOnChainFails
    ensures RunFrom(tryOrder, shop, i, fails, lastError) == Failed(Fatal(CandidateOutcome(shop, k).error))
    decreases k - i
  {
    if i < k {
      var o := CandidateOutcome(shop, i);
      assert Passes(o);
      var fails' := if o.Unpaid? then fails + 1 else fails;
      assert Reaches(shop, i + 1, fails', k);
      AbortEndsRun(tryOrder, shop, i + 1, fails', o.error, k);
    }
  }

  /** The breaker fires only on the fifth on-chain failure of the run: with at most five
      candidates, only when all five reached payment and failed. */
  lemma {:induction false} BreakerNeedsFiveFailures(tryOrder: seq<Product>, shop: Shop, i: nat, fails: nat,
                                                    lastError: string)
    requires i <= |tryOrder| && fails < MaxOnChainFails
    requires RunFrom(tryOrder, shop, i, fails, lastError).Failed?
    requires RunFrom(tryOrder, shop, i, fails, lastError).reason.Breaker?
    ensures RunFrom(tryOrder, shop, i, fails, lastError).reason.count == MaxOnChainFails
    ensures fails + CountUnpaid(shop, i, |tryOrder|) >= MaxOnChainFails
    decreases |tryOrder| - i
  {
    var o := CandidateOutcome(shop, i);
    if o.Skipped? {
      BreakerNeedsFiveFailures(tryOrder, shop, i + 1, fails, o.error);
    } else if fails + 1 < MaxOnChainFails {
      BreakerNeedsFiveFailures(tryOrder, shop, i + 1, fails + 1, o.error);
    } else {
      CountUnpaidAtLeastFirst(shop, i, |tryOrder|);
    }
  }

  lemma CountUnpaidAtLeastFirst(shop: Shop, i: nat, k: nat)
    requires i < k && CandidateOutcome(shop, i).Unpaid?
    ensures CountUnpaid(shop, i, k) >= 1
  {
  }

  /** When every candidate lets the run go on, the run ends with `All N products failed`
      and the error of the last candidate. */
  lemma {:induction false} AllFailedWhenNoneBought(tryOrder: seq<Product>, shop: Shop, i: nat, fails: nat,
                                                   lastError: string)
    requires i <= |tryOrder| && Reaches(shop, i, fails, |tryOrder|)
    ensures RunFrom(tryOrder, shop, i, fails, lastError) == Failed(AllFailed(|tryOrder|,
      if i < |tryOrder| then CandidateOutcome(shop, |tryOrder| - 1).error else lastError))
    decreases |tryOrder| - i
  {
    if i < |tryOrder| {
      var o := CandidateOutcome(shop, i);
      assert Passes(o);
      var fails' := if o.Unpaid? then fails + 1 else fails;
      assert Reaches(shop, i + 1, fails', |tryOrder|);
      AllFailedWhenNoneBought(tryOrder, shop, i + 1, fails', o.error);
    }
  }

  /** The inner loop of `performPurchase` for the candidate at position `i`: the
      transaction hash when a payment was confirmed, else the last error. */
  method PayCandidate(shop: Shop, i: nat) returns (paid: bool, txHash: string, lastError: string)
    ensures paid <==> PayFrom(shop, i, 0, "").PaidOnChain?
    ensures paid ==> txHash == PayFrom(shop, i, 0, "").txHash
    ensures !paid ==> lastError == PayFrom(shop, i, 0, "").error
  {
    paid, txHash, lastError := false, "", "";
    var attempt := 0;
    while attempt < MaxPayAttempts
      invariant 0 <= attempt <= MaxPayAttempts && !paid
      invariant PayFrom(shop, i, 0, "") == Later(PayFrom(shop, i, attempt, lastError), attempt)
    {
      var payment := shop.pay(i, attempt);
      if payment.Err? {
        lastError := payment.error;
        return;
      }
      if payment.value.Paid? {
        paid, txHash := true, payment.value.txHash;
        return;
      }
      lastError := payment.value.error;
      if StopsRetry(lastError) {
        return;
      }
      attempt := attempt + 1;
    }
  }

  /** The control loop of `performPurchase`. */
  method TryCandidates(tryOrder: seq<Product>, shop: Shop) returns (r: PurchaseResult)
    ensures r == RunFrom(tryOrder, shop, 0, 0, "")
  {
    var lastError := "";
    var fails := 0;
    var i := 0;
    while i < |tryOrder|
      invariant 0 <= i <= |tryOrder| && fails < MaxOnChainFails
      invariant RunFrom(tryOrder, shop, i, fails, lastError) == RunFrom(tryOrder, shop, 0, 0, "")
    {
      RunFromStep(tryOrder, shop, i, fails, lastError);
      var detail := shop.detail(i);
      if detail.Err? {
        lastError := detail.error;
        i := i + 1;
        continue;
      }
      var order := shop.order(i);
      if order.Err? {
        lastError := order.error;
        i := i + 1;
        continue;
      }
      var paid, txHash, error := PayCandidate(shop, i);
      if paid {
        return Bought(tryOrder[i], order.value, txHash);
      }
      lastError := error;
      fails := fails + 1;
      if fails >= MaxOnChainFails {
        return Failed(Breaker(fails, lastError));
      }
      if Aborts(lastError) {
        return Failed(Fatal(lastError));
      }
      i := i + 1;
    }
    r := Failed(AllFailed(|tryOrder|, lastError));
  }

  /** One step of the outer loop, in the terms the loop reads: the detail and order
      answers, then the payment attempts. */
  lemma {:induction false} RunFromStep(tryOrder: seq<Product>, shop: Shop, i: nat, fails: nat, lastError: string)
    requires i < |tryOrder|
    ensures shop.detail(i).Err? ==>
      RunFrom(tryOrder, shop, i, fails, lastError) == RunFrom(tryOrder, shop, i + 1, fails, shop.detail(i).error)
    ensures shop.detail(i).Ok? && shop.order(i).Err? ==>
      RunFrom(tryOrder, shop, i, fails, lastError) == RunFrom(tryOrder, shop, i + 1, fails, shop.order(i).error)
    ensures shop.detail(i).Ok? && shop.order(i).Ok? && PayFrom(shop, i, 0, "").PaidOnChain? ==>
      RunFrom(tryOrder, shop, i, fails, lastError)
      == Bought(tryOrder[i], shop.order(i).value, PayFrom(shop, i, 0, "").txHash)
    ensures shop.detail(i).Ok? && shop.order(i).Ok? && PayFrom(shop, i, 0, "").NotPaid? ==>
      var e := PayFrom(shop, i, 0, "").error;
      RunFrom(tryOrder, shop, i, fails, lastError)
      == if fails + 1 >= MaxOnChainFails then Failed(Breaker(fails + 1, e))
         else if Aborts(e) then Failed(Fatal(e))
         else RunFrom(tryOrder, shop, i + 1, fails + 1, e)
  {
  }

  /** `getNusdBalance`, in wei: its catch block reads a failed balance call as 0. */
  function BalanceWei(nusd: Rpc<nat>): nat {
    match nusd
    case Done(v) => v
    case Threw(_) => 0
  }

  /** Where the pre-checks leave `performPurchase`: stopped with a reason, or going on with
      the affordable products in price order. */
  datatype Gate = Blocked(reason: FailReason) | Proceed(affordable: seq<Product>)

  /** The checks before any candidate is tried: the NUSD balance, the Sepolia ETH balance
      for gas (a failed ETH balance call only logs a warning), the product list, and what
      the balance affords. `formatEth` renders the ETH balance as `toFixed(4)` does. */
  function PreChecks(nusd: Rpc<nat>, eth: Rpc<nat>, formatEth: nat -> string, list: ListAnswer): (g: Gate)
    ensures g == Blocked(NoBalance) <==> BalanceWei(nusd) == 0
    ensures BalanceWei(nusd) > 0 && eth.Done? && eth.value < MinGasWei ==> g == Blocked(LowGas(formatEth(eth.value)))
    ensures g.Proceed? <==> (BalanceWei(nusd) > 0 && !(eth.Done? && eth.value < MinGasWei)
      && FetchProductList(list).Ok? && AffordableProducts(FetchProductList(list).value, BalanceWei(nusd)) != [])
    ensures g.Proceed? ==>
      g.affordable == AffordableProducts(FetchProductList(list).value, BalanceWei(nusd)) && PriceSorted(g.affordable)
    ensures g.Blocked? && g.reason.ListFailed? ==> FetchProductList(list) == Err(g.reason.error)
    ensures g.Blocked? && g.reason.CantAfford? ==> (FetchProductList(list).Ok?
      && (forall p :: p in FetchProductList(list).value ==> !Affordable(p, BalanceWei(nusd)))
      && (forall p :: p in FetchProductList(list).value ==> g.reason.cheapest <= p.price)
      && |FetchProductList(list).value| > 0 && g.reason.cheapest == FetchProductList(list).value[0].price)
  {
    var balance := BalanceWei(nusd);
    if balance == 0 then Blocked(NoBalance)
    else if eth.Done? && eth.value < MinGasWei then Blocked(LowGas(formatEth(eth.value)))
    else match FetchProductList(list)
      case Err(e) => Blocked(ListFailed(e))
      case Ok(products) =>
        if products == [] then Blocked(NoProducts)
        else
          var affordable := AffordableProducts(products, balance);
          FilterKeepsSorted(products, p => Affordable(p, balance));
          if affordable == [] then
            forall p | p in products
              ensures !Affordable(p, balance) && products[0].price <= p.price
            {
              FilterMembers(products, q => Affordable(q, balance), p);
              var i :| 0 <= i < |products| && products[i] == p;
              if i > 0 {
                SortedHeadIsCheapest(products, i);
              }
            }
            Blocked(CantAfford(products[0].price))
          else Proceed(affordable)
  }

  function Min(a: nat, b: nat): nat {
    if a < b then a else b
  }

  /** The purchase once the pre-checks pass: the try order built from the affordable
      products, and the control loop over it. `full` is the whole shuffled list the try
      order is cut from: a permutation of the affordable products that moves none of the
      upper half. */
  method BuyFrom(affordable: seq<Product>, pick: nat -> nat, shop: Shop)
    returns (r: PurchaseResult, full: seq<Product>, tryOrder: seq<Product>)
    requires affordable != []
    ensures multiset(full) == multiset(affordable)
    ensures var k := Min(HalfIndex(|affordable|), |affordable|);
      |full| == |affordable| && multiset(full[..k]) == multiset(affordable[..k]) && full[k..] == affordable[k..]
    ensures tryOrder == full[..Min(|full|, MaxTries)]
    ensures |tryOrder| == Min(|affordable|, MaxTries) && |tryOrder| >= 1
    ensures forall i :: 0 <= i < |tryOrder| ==> tryOrder[i] in affordable
    ensures forall i :: HalfIndex(|affordable|) <= i < |tryOrder| ==> tryOrder[i] == affordable[i]
    ensures r == RunFrom(tryOrder, shop, 0, 0, "")
    ensures r.Bought? ==> r.product in tryOrder
  {
    full, tryOrder := BuildTryOrder(affordable, pick);
    var k := Min(HalfIndex(|affordable|), |affordable|);
    assert full == full[..k] + full[k..] && affordable == affordable[..k] + affordable[k..];
    r := TryCandidates(tryOrder, shop);
    if r.Bought? {
      BoughtOnlyIfReached(tryOrder, shop, 0, 0, "");
    }
  }

  /** `performPurchase` after the wallet is opened: the pre-checks, then `BuyFrom`. The
      shuffled list and the try order are returned beside the result. */
  method PerformPurchase(nusd: Rpc<nat>, eth: Rpc<nat>, formatEth: nat -> string, list: ListAnswer,
                         pick: nat -> nat, shop: Shop)
    returns (r: PurchaseResult, full: seq<Product>, tryOrder: seq<Product>)
    ensures PreChecks(nusd, eth, formatEth, list).Blocked? ==>
      r == Failed(PreChecks(nusd, eth, formatEth, list).reason) && full == [] && tryOrder == []
    ensures PreChecks(nusd, eth, formatEth, list).Proceed? ==>
      var affordable := PreChecks(nusd, eth, formatEth, list).affordable;
      var k := Min(HalfIndex(|affordable|), |affordable|);
      multiset(full) == multiset(affordable)
      && |full| == |affordable| && multiset(full[..k]) == multiset(affordable[..k]) && full[k..] == affordable[k..]
      && tryOrder == full[..Min(|full|, MaxTries)] && |tryOrder| == Min(|affordable|, MaxTries) && |tryOrder| >= 1
      && (forall i :: 0 <= i < |tryOrder| ==> tryOrder[i] in affordable)
      && (forall i :: HalfIndex(|affordable|) <= i < |tryOrder| ==> tryOrder[i] == affordable[i])
      && r == RunFrom(tryOrder, shop, 0, 0, "")
    ensures r.Bought? ==> r.product in tryOrder && Affordable(r.product, BalanceWei(nusd))
  {
    var gate := PreChecks(nusd, eth, formatEth, list);
    if gate.Blocked? {
      return Failed(gate.reason), [], [];
    }
    r, full, tryOrder := BuyFrom(gate.affordable, pick, shop);
  }
}
