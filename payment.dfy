// PaymentService: the saved cards among a user's active payment methods,
// and processPayment, which takes an order from AWAITING_PAYMENT to
// CONFIRMED unless the mock declined card is used.
module Payments {
  import opened Wrappers
  import opened Strings

  /** OrderStatus, in declaration order. */
  datatype OrderStatus =
    PendingOptions | AwaitingPayment | Confirmed | PickedUp | InTransit | Delivered | Cancelled | Failed

  /**
   * The parts of an Order that processPayment reads and writes; the
   * delivery type is held by its enum constant's name (None for null).
   */
  datatype Order = Order(status: OrderStatus, deliveryType: Option<string>, assignedDeviceId: Option<string>)

  /** A saved PaymentMethod; a Java null is None. */
  datatype PaymentMethod = PaymentMethod(
    id: Option<int>, methodType: Option<string>, last4: Option<string>, brand: Option<string>, isDefault: bool)

  /** One entry of the "savedCards" list. */
  datatype SavedCard = SavedCard(methodId: string, last4: Option<string>, brand: Option<string>, isDefault: bool)

  const CreditCard: string := "credit_card"

  /** `"credit_card".equals(method.getType())`. */
  predicate IsCard(m: PaymentMethod)
  {
    m.methodType == Some(CreditCard)
  }

  /** "card_" + id, where a null id shows as "null". */
  function CardOf(m: PaymentMethod): (c: SavedCard)
    ensures IsPrefix("card_", c.methodId)
    ensures c.last4 == m.last4 && c.brand == m.brand && c.isDefault == m.isDefault
  {
    SavedCard("card_" + (if m.id.Some? then IntToString(m.id.value) else "null"), m.last4, m.brand, m.isDefault)
  }

  /** The saved cards of a list of methods: the credit cards, in order. */
  function SavedCards(methods: seq<PaymentMethod>): (cards: seq<SavedCard>)
    ensures |cards| <= |methods|
    ensures forall c :: c in cards ==> exists k :: 0 <= k < |methods| && IsCard(methods[k]) && c == CardOf(methods[k])
    decreases |methods|
  {
    if methods == [] then []
    else
      var init := methods[..|methods| - 1];
      var last := methods[|methods| - 1];
      var before := SavedCards(init);
      assert forall c :: c in before ==> exists k :: 0 <= k < |init| && IsCard(methods[k]) && c == CardOf(methods[k]);
      before + (if IsCard(last) then [CardOf(last)] else [])
  }

  /** Every credit card among the methods is listed. */
  lemma {:induction false} SavedCardsComplete(methods: seq<PaymentMethod>, k: int)
    requires 0 <= k < |methods| && IsCard(methods[k])
    ensures CardOf(methods[k]) in SavedCards(methods)
    decreases |methods|
  {
    if k < |methods| - 1 {
      var init := methods[..|methods| - 1];
      SavedCardsComplete(init, k);
      assert init[k] == methods[k];
    }
  }

  /** A list without credit cards has no saved cards. */
  lemma {:induction false} NoCardsNoneSaved(methods: seq<PaymentMethod>)
    requires forall k :: 0 <= k < |methods| ==> !IsCard(methods[k])
    ensures SavedCards(methods) == []
    decreases |methods|
  {
    if methods != [] {
      NoCardsNoneSaved(methods[..|methods| - 1]);
    }
  }

  /** The payment methods offered whatever is saved. */
  function AvailableMethods(): (r: seq<string>)
    ensures |r| == 3 && r[0] == CreditCard && r[1] == "paypal" && r[2] == "apple_pay"
  {
    [CreditCard, "paypal", "apple_pay"]
  }

  /**
   * `getPaymentMethods`: the loop over the user's active methods (the
   * repository's reply) collecting the credit cards, and the fixed list
   * of available methods.
   */
  method GetPaymentMethods(methods: seq<PaymentMethod>) returns (savedCards: seq<SavedCard>, available: seq<string>)
    ensures savedCards == SavedCards(methods)
    ensures available == AvailableMethods()
  {
    savedCards := [];
    var i := 0;
    while i < |methods|
      invariant 0 <= i <= |methods|
      invariant savedCards == SavedCards(methods[..i])
    {
      assert methods[..i + 1][..i] == methods[..i];
      if IsCard(methods[i]) {
        savedCards := savedCards + [CardOf(methods[i])];
      }
      i := i + 1;
    }
    assert methods[..i] == methods;
    available := AvailableMethods();
  }

  // ------------------------------------------------------------ processPayment

  const DeclinedCard: string := "4000000000000002"
  const ConfirmedDescription: string := "支付成功，订单已确认"

  /** The mock decline: payment info whose "cardNumber" is exactly the declined test card. */
  predicate Declines(paymentInfo: Option<map<string, string>>)
  {
    paymentInfo.Some? && "cardNumber" in paymentInfo.value && paymentInfo.value["cardNumber"] == DeclinedCard
  }

  /** The device assigned on payment: the lower-cased delivery type followed by "_r001". */
  function DeviceId(deliveryType: string): (d: string)
    ensures IsSuffix("_r001", d) && |d| == |deliveryType| + 5
    ensures d[..|deliveryType|] == ToLower(deliveryType)
  {
    ToLower(deliveryType) + "_r001"
  }

  /** The exceptions processPayment throws. */
  datatype PaymentError = IllegalArgument(message: string) | NullPointer

  /** What processPayment decides for the order the number finds (None when it finds none). */
  datatype Decision = Reject(error: PaymentError) | Decline | Accept(updated: Order)

  /**
   * The checks of processPayment in their order: a null amount fails on
   * unboxing, then "Order not found", then "Order is not awaiting
   * payment", then the declined card; a null delivery type fails when the
   * device id is built. Otherwise the order is CONFIRMED with its device.
   */
  function Decide(order: Option<Order>, paymentInfo: Option<map<string, string>>, amount: Option<real>)
    : (d: Decision)
    ensures d.Accept? <==>
      amount.Some? && order.Some? && order.value.status == AwaitingPayment && !Declines(paymentInfo)
      && order.value.deliveryType.Some?
    ensures d.Decline? <==>
      amount.Some? && order.Some? && order.value.status == AwaitingPayment && Declines(paymentInfo)
    ensures d.Accept? ==>
      d.updated == order.value.(status := Confirmed, assignedDeviceId := Some(DeviceId(order.value.deliveryType.value)))
    ensures amount.Some? && order.None? ==> d == Reject(IllegalArgument("Order not found"))
    ensures amount.Some? && order.Some? && order.value.status != AwaitingPayment ==>
      d == Reject(IllegalArgument("Order is not awaiting payment"))
  {
    if amount.None? then Reject(NullPointer)
    else if order.None? then Reject(IllegalArgument("Order not found"))
    else if order.value.status != AwaitingPayment then Reject(IllegalArgument("Order is not awaiting payment"))
    else if Declines(paymentInfo) then Decline
    else if order.value.deliveryType.None? then Reject(NullPointer)
    else Accept(order.value.(status := Confirmed, assignedDeviceId := Some(DeviceId(order.value.deliveryType.value))))
  }

  /** A paid order cannot be paid again: the second attempt is refused as not awaiting payment. */
  lemma PaidOnce(order: Order, paymentInfo: Option<map<string, string>>, amount: real,
                 again: Option<map<string, string>>, amount2: real)
    requires Decide(Some(order), paymentInfo, Some(amount)).Accept?
    ensures Decide(Some(Decide(Some(order), paymentInfo, Some(amount)).updated), again, Some(amount2))
         == Reject(IllegalArgument("Order is not awaiting payment"))
  {
  }

  /** The declined test card is declined for every order awaiting payment, whatever its delivery type. */
  lemma DeclineKeepsOrder(order: Order, amount: real)
    requires order.status == AwaitingPayment
    ensures Decide(Some(order), Some(map["cardNumber" := DeclinedCard]), Some(amount)) == Decline
  {
  }

  /** The saved Payment record. */
  datatype Payment = Payment(
    paymentId: string, orderNumber: string, amount: real, paymentMethod: string, status: string, gateway: string,
    transactionId: string)

  /** A saved OrderStatusHistory entry. */
  datatype HistoryEntry = HistoryEntry(orderNumber: string, status: OrderStatus, description: string)

  /** What processPayment answers. */
  datatype PaymentResult =
    | Declined(error: string, reason: string)
    | Succeeded(paymentId: string, orderNumber: string, amount: real, status: string, transactionId: string)

  /**
   * The payment record saved on success. The payment id and the gateway's
   * transaction id each read the clock on their own: `payAt` is the
   * reading behind "PAY…", `txnAt` the later one behind "txn_…".
   */
  function PaymentFor(orderNumber: string, amount: real, payAt: int, txnAt: int): (p: Payment)
    ensures p.status == "COMPLETED" && p.paymentMethod == "CREDIT_CARD" && p.gateway == "stripe"
    ensures p.orderNumber == orderNumber && p.amount == amount
    ensures IsPrefix("PAY", p.paymentId) && IsPrefix("txn_", p.transactionId)
  {
    Payment("PAY" + IntToString(payAt), orderNumber, amount, "CREDIT_CARD", "COMPLETED", "stripe",
            "txn_" + IntToString(txnAt))
  }

  /** Each id's digits after its prefix read back as the clock reading it was made from. */
  lemma PaymentIdsReadBack(orderNumber: string, amount: real, payAt: int, txnAt: int)
    requires LongMin <= payAt <= LongMax && LongMin <= txnAt <= LongMax
    ensures var p := PaymentFor(orderNumber, amount, payAt, txnAt);
      && ParseLong(p.paymentId[3..]) == Some(payAt) && ParseLong(p.transactionId[4..]) == Some(txnAt)
  {
    var p := PaymentFor(orderNumber, amount, payAt, txnAt);
    assert p.paymentId[3..] == IntToString(payAt);
    assert p.transactionId[4..] == IntToString(txnAt);
    ParseLongOfInt(payAt);
    ParseLongOfInt(txnAt);
  }

  /**
   * The service's state: orders by order number, saved payments and saved
   * status-history entries, in saving order.
   */
  class PaymentService {
    var orders: map<string, Order>
    var payments: seq<Payment>
    var history: seq<HistoryEntry>

    constructor (orders: map<string, Order>)
      ensures this.orders == orders && payments == [] && history == []
    {
      this.orders := orders;
      payments := [];
      history := [];
    }

    /**
     * `processPayment`: the order found by its number moves from
     * AWAITING_PAYMENT to CONFIRMED, with one COMPLETED payment and one
     * CONFIRMED history entry saved; `payAt` and `txnAt` are the two
     * clock readings behind the payment id and the transaction id. A
     * refusal, a decline or a failure changes nothing (the service is
     * transactional).
     */
    method ProcessPayment(orderNumber: string, paymentInfo: Option<map<string, string>>, amount: Option<real>,
                          payAt: int, txnAt: int)
      returns (r: Result<PaymentResult, PaymentError>)
      modifies this
      ensures var d := Decide(if orderNumber in old(orders) then Some(old(orders)[orderNumber]) else None,
                              paymentInfo, amount);
        && (d.Reject? ==> r == Err(d.error) && unchanged(this))
        && (d.Decline? ==> r == Ok(Declined("CARD_DECLINED", "insufficient_funds")) && unchanged(this))
        && (d.Accept? ==>
              && orders == old(orders)[orderNumber := d.updated]
              && payments == old(payments) + [PaymentFor(orderNumber, amount.value, payAt, txnAt)]
              && history == old(history) + [HistoryEntry(orderNumber, Confirmed, ConfirmedDescription)]
              && r == Ok(Succeeded(payments[|payments| - 1].paymentId, orderNumber, amount.value, "completed",
                                   payments[|payments| - 1].transactionId)))
    {
      if amount.None? {
        return Err(NullPointer);
      }
      if orderNumber !in orders {
        return Err(IllegalArgument("Order not found"));
      }
      var order := orders[orderNumber];
      if order.status != AwaitingPayment {
        return Err(IllegalArgument("Order is not awaiting payment"));
      }
      if Declines(paymentInfo) {
        return Ok(Declined("CARD_DECLINED", "insufficient_funds"));
      }
      if order.deliveryType.None? {
        return Err(NullPointer);
      }
      var payment := PaymentFor(orderNumber, amount.value, payAt, txnAt);
      payments := payments + [payment];
      orders := orders[orderNumber := order.(status := Confirmed,
                                             assignedDeviceId := Some(DeviceId(order.deliveryType.value)))];
      history := history + [HistoryEntry(orderNumber, Confirmed, ConfirmedDescription)];
      return Ok(Succeeded(payment.paymentId, orderNumber, amount.value, "completed", payment.transactionId));
    }
  }
}
