/**
 * The order/payment lifecycle: `start_payment` opens a pending transaction
 * against a deposit address, `check_payment_callback` asks the payment
 * gateway whether the address was paid and, if so, marks the transaction
 * completed and takes one unit off the product's stock, and the
 * admin-only `refund_transaction` moves a completed transaction to
 * refunded.
 *
 * The payment gateway is an oracle passed in as two functions, both called
 * with the gateway's coin name ("btc" or "ltc"): a `WalletIssuer` gives
 * the new deposit address, or None when issuance raises (a response other
 * than 201, or a failed request); a `BalanceCheck` answers "was this
 * address paid" with Some(final_balance > 0) on a 200 response and
 * Some(false) on any other status, or None when the request or the
 * decoding of its body raises.
 */
module Payments {
  import opened Wrappers
  import opened Database
  import opened CommandArgs
  import opened Admin

  type WalletIssuer = string -> Option<string>
  type BalanceCheck = (string, string) -> Option<bool>

  // ---------------------------------------------------------------------
  // start_payment <product id>
  // ---------------------------------------------------------------------

  /**
   * `PayFailed` is the reply of the handler's error branch, reached both
   * when the product id does not parse and when address issuance fails.
   */
  datatype PayReply = PayFailed | Unavailable | Invoice(transactionId: int, amount: Units, currency: Currency, address: string)

  /**
   * What start_payment did: the tables after it, the currency it asked the
   * gateway for a deposit address in (None when it asked for none), and
   * its reply.
   */
  datatype PaymentStart = PaymentStart(tables: Tables, requested: Option<Currency>, reply: PayReply)

  /** The product exists and has at least one unit in stock. */
  ghost predicate Available(t: Tables, productId: int)
  {
    productId in t.products && t.products[productId].stock >= 1
  }

  function StartPaymentStep(t: Tables, userId: int, args: seq<Token>, issue: WalletIssuer, now: int)
    : (r: PaymentStart)
    requires WellFormed(t)
    ensures WellFormed(r.tables)
    ensures r.tables.products == t.products
    ensures r.tables.nextProductId == t.nextProductId
    // rejected before the gateway is asked anything
    ensures IntArg(args, 0).None? ==> r == PaymentStart(t, None, PayFailed)
    ensures IntArg(args, 0).Some? && !Available(t, IntArg(args, 0).value) ==> r == PaymentStart(t, None, Unavailable)
    // an available product: the charge currency is BTC exactly when the BTC price is positive
    ensures IntArg(args, 0).Some? && Available(t, IntArg(args, 0).value) ==>
              var p := t.products[IntArg(args, 0).value];
              && r.requested.Some?
              && (r.requested.value == BTC <==> p.priceBtc > 0)
    // nothing is written unless an address was issued
    ensures r.requested.None? || issue(GatewayCoin(r.requested.value)).None? ==> r.tables == t && !r.reply.Invoice?
    ensures r.requested.Some? && issue(GatewayCoin(r.requested.value)).None? ==> r.reply == PayFailed
    ensures r.requested.Some? && issue(GatewayCoin(r.requested.value)).Some? ==> r.reply.Invoice?
    // a created transaction
    ensures r.reply.Invoice? ==>
              && IntArg(args, 0).Some? && Available(t, IntArg(args, 0).value)
              && r.requested == Some(r.reply.currency)
              && issue(GatewayCoin(r.reply.currency)) == Some(r.reply.address)
              && var p := t.products[IntArg(args, 0).value];
                 var id := r.reply.transactionId;
                 && r.reply.amount == (if r.reply.currency == BTC then p.priceBtc else p.priceLtc)
                 && id !in t.transactions
                 && r.tables.transactions == t.transactions[id := Transaction(id, userId, p.id, r.reply.address,
                                                                               r.reply.amount, r.reply.currency,
                                                                               Pending, now)]
  {
    var productId := IntArg(args, 0);
    if productId.None? then PaymentStart(t, None, PayFailed)
    else
      var pid := productId.value;
      if pid !in t.products || t.products[pid].stock < 1 then PaymentStart(t, None, Unavailable)
      else
        var product := t.products[pid];
        var currency := if product.priceBtc > 0 then BTC else LTC;
        var wallet := issue(GatewayCoin(currency));
        if wallet.None? then PaymentStart(t, Some(currency), PayFailed)
        else
          var amount := if currency == BTC then product.priceBtc else product.priceLtc;
          var row := NewTransaction(userId, product.id, wallet.value, amount, currency, Some(Pending), now);
          var inserted := InsertTransaction(t, row);
          PaymentStart(inserted.tables, Some(currency), Invoice(inserted.reply, amount, currency, wallet.value))
  }

  method StartPayment(store: Store, userId: int, args: seq<Token>, issue: WalletIssuer, now: int)
    returns (requested: Option<Currency>, reply: PayReply)
    requires store.Valid()
    modifies store
    ensures store.Valid()
    ensures PaymentStart(store.State(), requested, reply) == StartPaymentStep(old(store.State()), userId, args, issue, now)
  {
    requested := None;
    var productId := IntArg(args, 0);
    if productId.None? {
      reply := PayFailed;
      return;
    }
    var pid := productId.value;
    if pid !in store.products || store.products[pid].stock < 1 {
      reply := Unavailable;
      return;
    }
    var product := store.products[pid];
    var currency := if product.priceBtc > 0 then BTC else LTC;
    requested := Some(currency);
    var wallet := issue(GatewayCoin(currency));
    if wallet.None? {
      reply := PayFailed;
      return;
    }
    var amount := if currency == BTC then product.priceBtc else product.priceLtc;
    var row := NewTransaction(userId, product.id, wallet.value, amount, currency, Some(Pending), now);
    var id := store.AddTransaction(row);
    reply := Invoice(id, amount, currency, wallet.value);
  }

  // ---------------------------------------------------------------------
  // check_payment_callback (the "I have paid" button)
  // ---------------------------------------------------------------------

  /** `CheckFailed` is the reply of the handler's error branch, reached when the gateway request raises. */
  datatype CheckReply = TransactionNotFound | PaymentConfirmed | NotYetPaid | CheckFailed

  /** The gateway's answer for a transaction's address, asked in the transaction's lower-cased currency. */
  function GatewayAnswer(tx: Transaction, paid: BalanceCheck): Option<bool>
  {
    paid(tx.address, GatewayCoin(tx.currency))
  }

  /**
   * The prior status is not looked at and the stock is not checked before
   * it is decremented: every positive answer from the gateway completes
   * the transaction and takes one more unit off the stock.
   */
  function CheckPaymentStep(t: Tables, txId: int, paid: BalanceCheck): (r: Step<CheckReply>)
    requires WellFormed(t)
    ensures WellFormed(r.tables)
    ensures r.tables.nextProductId == t.nextProductId && r.tables.nextTransactionId == t.nextTransactionId
    ensures txId !in t.transactions ==> r.tables == t && r.reply == TransactionNotFound
    ensures txId in t.transactions && GatewayAnswer(t.transactions[txId], paid).None? ==>
              r.tables == t && r.reply == CheckFailed
    ensures txId in t.transactions && GatewayAnswer(t.transactions[txId], paid) == Some(false) ==>
              r.tables == t && r.reply == NotYetPaid
    ensures txId in t.transactions && GatewayAnswer(t.transactions[txId], paid) == Some(true) ==>
              var tx := t.transactions[txId];
              var pid := tx.productId;
              && r.reply == PaymentConfirmed
              && SameExcept(t.transactions, r.tables.transactions, txId)
              && r.tables.transactions[txId] == tx.(status := Completed)
              && pid in t.products
              && SameExcept(t.products, r.tables.products, pid)
              && r.tables.products[pid] == t.products[pid].(stock := t.products[pid].stock - 1)
  {
    if txId !in t.transactions then Step(t, TransactionNotFound)
    else
      var tx := t.transactions[txId];
      var answer := GatewayAnswer(tx, paid);
      if answer.None? then Step(t, CheckFailed)
      else if answer.value then
        var product := t.products[tx.productId];
        Step(t.(transactions := t.transactions[txId := tx.(status := Completed)],
                products := t.products[tx.productId := product.(stock := product.stock - 1)]),
             PaymentConfirmed)
      else
        Step(t, NotYetPaid)
  }

  method CheckPaymentCallback(store: Store, txId: int, paid: BalanceCheck) returns (reply: CheckReply)
    requires store.Valid()
    modifies store
    ensures store.Valid()
    ensures Step(store.State(), reply) == CheckPaymentStep(old(store.State()), txId, paid)
  {
    if txId !in store.transactions {
      return TransactionNotFound;
    }
    var tx := store.transactions[txId];
    var answer := GatewayAnswer(tx, paid);
    if answer.None? {
      return CheckFailed;
    }
    if answer.value {
      store.transactions := store.transactions[txId := tx.(status := Completed)];
      var product := store.products[tx.productId];
      store.products := store.products[tx.productId := product.(stock := product.stock - 1)];
      return PaymentConfirmed;
    } else {
      return NotYetPaid;
    }
  }

  // ---------------------------------------------------------------------
  // refund_transaction <transaction id> (admin only)
  // ---------------------------------------------------------------------

  datatype RefundReply = RefundDone | NotRefundable | RefundUsage

  /** The handler behind the gate. */
  function RefundHandler(t: Tables, args: seq<Token>): Step<RefundReply>
  {
    var txId := IntArg(args, 0);
    if txId.None? then Step(t, RefundUsage)
    else
      var id := txId.value;
      if id in t.transactions && t.transactions[id].status == Completed then
        Step(t.(transactions := t.transactions[id := t.transactions[id].(status := Refunded)]), RefundDone)
      else
        Step(t, NotRefundable)
  }

  /** The transaction id argument names a completed transaction. */
  ghost predicate Refundable(t: Tables, args: seq<Token>)
  {
    && IntArg(args, 0).Some?
    && IntArg(args, 0).value in t.transactions
    && t.transactions[IntArg(args, 0).value].status == Completed
  }

  function RefundStep(t: Tables, callerId: int, adminIds: seq<int>, args: seq<Token>): (r: Step<Gated<RefundReply>>)
    requires WellFormed(t)
    ensures WellFormed(r.tables)
    ensures r.tables.products == t.products
    ensures r.tables.nextProductId == t.nextProductId && r.tables.nextTransactionId == t.nextTransactionId
    ensures callerId !in adminIds ==> r.tables == t && r.reply == Denied
    ensures r.reply == Reached(RefundDone) <==> callerId in adminIds && Refundable(t, args)
    ensures r.reply != Reached(RefundDone) ==> r.tables == t
    ensures r.reply == Reached(RefundDone) && Refundable(t, args) ==>
              var id := IntArg(args, 0).value;
              && SameExcept(t.transactions, r.tables.transactions, id)
              && r.tables.transactions[id] == t.transactions[id].(status := Refunded)
  {
    AdminOnly(callerId, adminIds, t, RefundHandler(t, args))
  }

  method RefundTransaction(store: Store, callerId: int, adminIds: seq<int>, args: seq<Token>)
    returns (reply: Gated<RefundReply>)
    requires store.Valid()
    modifies store
    ensures store.Valid()
    ensures Step(store.State(), reply) == RefundStep(old(store.State()), callerId, adminIds, args)
  {
    if callerId !in adminIds {
      return Denied;
    }
    var txId := IntArg(args, 0);
    if txId.None? {
      return Reached(RefundUsage);
    }
    var id := txId.value;
    if id in store.transactions && store.transactions[id].status == Completed {
      store.transactions := store.transactions[id := store.transactions[id].(status := Refunded)];
      return Reached(RefundDone);
    } else {
      return Reached(NotRefundable);
    }
  }

  // ---------------------------------------------------------------------
  // What repeated checks, refunds and the reports add up to
  // ---------------------------------------------------------------------

  /** The tables after pressing "I have paid" once per gateway answer in `gateways`. */
  function CheckMany(t: Tables, txId: int, gateways: seq<BalanceCheck>): (r: Tables)
    requires WellFormed(t)
    ensures WellFormed(r)
    decreases |gateways|
  {
    if gateways == [] then t
    else CheckMany(CheckPaymentStep(t, txId, gateways[0]).tables, txId, gateways[1..])
  }

  /** How many of the gateway's answers for this address and currency say "paid". */
  function PaidCount(gateways: seq<BalanceCheck>, address: string, currency: Currency): (n: nat)
    ensures n <= |gateways|
  {
    if gateways == [] then 0
    else (if gateways[0](address, GatewayCoin(currency)) == Some(true) then 1 else 0)
         + PaidCount(gateways[1..], address, currency)
  }

  /**
   * Checking one transaction repeatedly takes one unit of stock per
   * positive gateway answer, not one per transaction; the transaction ends
   * completed as soon as one answer was positive, whatever its status was;
   * no other row changes.
   */
  lemma {:induction false} RepeatedChecks(t: Tables, txId: int, gateways: seq<BalanceCheck>)
    requires WellFormed(t) && txId in t.transactions
    ensures var r := CheckMany(t, txId, gateways);
            var tx := t.transactions[txId];
            var pid := tx.productId;
            var n := PaidCount(gateways, tx.address, tx.currency);
            && pid in t.products
            && SameExcept(t.products, r.products, pid)
            && r.products[pid] == t.products[pid].(stock := t.products[pid].stock - n)
            && SameExcept(t.transactions, r.transactions, txId)
            && r.transactions[txId] == tx.(status := if n > 0 then Completed else tx.status)
    decreases |gateways|
  {
    if gateways != [] {
      var s := CheckPaymentStep(t, txId, gateways[0]).tables;
      RepeatedChecks(s, txId, gateways[1..]);
    }
  }

  /**
   * Two buyers can both open a payment for the last unit (start_payment
   * checks the stock but does not reserve it), each against the address the
   * gateway issues to that call, and when both pay the stock ends at -1.
   */
  lemma LastUnitSoldTwice(t: Tables, pid: int, args: seq<Token>, buyer1: int, buyer2: int, now1: int, now2: int,
                          issue1: WalletIssuer, issue2: WalletIssuer, paid: BalanceCheck)
    requires WellFormed(t)
    requires pid in t.products && t.products[pid].stock == 1
    requires IntArg(args, 0) == Some(pid)
    requires forall c :: issue1(c).Some?
    requires forall c :: issue2(c).Some?
    requires forall a, c :: paid(a, c) == Some(true)
    ensures var s1 := StartPaymentStep(t, buyer1, args, issue1, now1);
            var s2 := StartPaymentStep(s1.tables, buyer2, args, issue2, now2);
            && s1.reply.Invoice? && s2.reply.Invoice?
            && s1.reply.address == issue1(GatewayCoin(s1.reply.currency)).value
            && s2.reply.address == issue2(GatewayCoin(s2.reply.currency)).value
            && s1.reply.transactionId != s2.reply.transactionId
            && var c1 := CheckPaymentStep(s2.tables, s1.reply.transactionId, paid);
               var c2 := CheckPaymentStep(c1.tables, s2.reply.transactionId, paid);
               && c2.reply == PaymentConfirmed
               && c2.tables.products[pid].stock == -1
  {
  }

  /**
   * A positive check moves the transaction into the sales count unless it
   * was already there: re-checking a completed transaction takes stock
   * without adding a sale, and re-checking a refunded one counts it as a
   * sale again.
   */
  lemma PaidCheckCounts(t: Tables, txId: int, paid: BalanceCheck)
    requires WellFormed(t) && txId in t.transactions
    requires GatewayAnswer(t.transactions[txId], paid) == Some(true)
    ensures var r := CheckPaymentStep(t, txId, paid).tables;
            var before := t.transactions[txId].status;
            var pid := t.transactions[txId].productId;
            && CountStatus(r.transactions, Completed)
                 == CountStatus(t.transactions, Completed) + (if before == Completed then 0 else 1)
            && CountStatus(r.transactions, Pending)
                 == CountStatus(t.transactions, Pending) - (if before == Pending then 1 else 0)
            && CountStatus(r.transactions, Refunded)
                 == CountStatus(t.transactions, Refunded) - (if before == Refunded then 1 else 0)
            && r.products[pid].stock == t.products[pid].stock - 1
  {
    var r := CheckPaymentStep(t, txId, paid).tables;
    assert r.transactions == t.transactions[txId := t.transactions[txId].(status := Completed)];
    CountAfterRestatus(t.transactions, txId, Completed, Completed);
    CountAfterRestatus(t.transactions, txId, Pending, Completed);
    CountAfterRestatus(t.transactions, txId, Refunded, Completed);
  }

  /** A refund moves one transaction out of the sales count and leaves stock alone. */
  lemma RefundCounts(t: Tables, callerId: int, adminIds: seq<int>, args: seq<Token>)
    requires WellFormed(t)
    requires RefundStep(t, callerId, adminIds, args).reply == Reached(RefundDone)
    ensures var r := RefundStep(t, callerId, adminIds, args).tables;
            && CountStatus(r.transactions, Completed) == CountStatus(t.transactions, Completed) - 1
            && CountStatus(r.transactions, Pending) == CountStatus(t.transactions, Pending)
            && CountStatus(r.transactions, Refunded) == CountStatus(t.transactions, Refunded) + 1
            && r.products == t.products
  {
    var id := IntArg(args, 0).value;
    var r := RefundStep(t, callerId, adminIds, args).tables;
    assert r.transactions == t.transactions[id := t.transactions[id].(status := Refunded)];
    CountAfterRestatus(t.transactions, id, Completed, Refunded);
    CountAfterRestatus(t.transactions, id, Pending, Refunded);
    CountAfterRestatus(t.transactions, id, Refunded, Refunded);
  }

  /** A new payment adds one transaction to the awaiting-payment count. */
  lemma StartPaymentCounts(t: Tables, userId: int, args: seq<Token>, issue: WalletIssuer, now: int)
    requires WellFormed(t)
    requires StartPaymentStep(t, userId, args, issue, now).reply.Invoice?
    ensures var r := StartPaymentStep(t, userId, args, issue, now).tables;
            && CountStatus(r.transactions, Pending) == CountStatus(t.transactions, Pending) + 1
            && CountStatus(r.transactions, Completed) == CountStatus(t.transactions, Completed)
            && CountStatus(r.transactions, Refunded) == CountStatus(t.transactions, Refunded)
  {
    var s := StartPaymentStep(t, userId, args, issue, now);
    var id := s.reply.transactionId;
    var row := s.tables.transactions[id];
    assert s.tables.transactions == t.transactions[id := row];
    CountAfterInsert(t.transactions, id, row, Pending);
    CountAfterInsert(t.transactions, id, row, Completed);
    CountAfterInsert(t.transactions, id, row, Refunded);
  }
}
