// The client's order store: the order being filled in step by step
// (a partial order) and the list of confirmed orders, newest first.
module OrderContext {
  import opened Wrappers
  import opened Strings

  datatype Address = Address(id: string, name: string, address: string, city: string, postalCode: string, phone: string)

  datatype Dimensions = Dimensions(length: real, width: real, height: real)

  datatype ParcelInfo = ParcelInfo(weight: real, dimensions: Dimensions, value: real, description: string, fragile: bool)

  datatype VehicleType = Robot | Drone

  datatype DeliveryOption = DeliveryOption(
    id: string, kind: VehicleType, name: string, estimatedTime: string,
    price: real, description: string, available: bool)

  datatype OrderStatus = Pending | Confirmed | PickedUp | InTransit | Delivered | Cancelled

  /** Dates are milliseconds since the epoch. */
  datatype Order = Order(
    id: string, sender: Address, recipient: Address, parcel: ParcelInfo,
    deliveryOption: DeliveryOption, status: OrderStatus,
    createdAt: int, estimatedDelivery: int)

  /** `Partial<Order>`: every field may be absent. */
  datatype Draft = Draft(
    id: Option<string>, sender: Option<Address>, recipient: Option<Address>,
    parcel: Option<ParcelInfo>, deliveryOption: Option<DeliveryOption>,
    status: Option<OrderStatus>, createdAt: Option<int>, estimatedDelivery: Option<int>)

  const EmptyDraft := Draft(None, None, None, None, None, None, None, None)

  /** Twenty-four hours in milliseconds. */
  const DayMillis := 24 * 60 * 60 * 1000

  /** A field of `{ ...prev, ...step }`: the step's value where it has one. */
  function Override<T>(prev: Option<T>, step: Option<T>): Option<T>
  {
    if step.Some? then step else prev
  }

  /** `{ ...prev, ...step }`. */
  function Merge(prev: Draft, step: Draft): Draft
  {
    Draft(
      Override(prev.id, step.id), Override(prev.sender, step.sender),
      Override(prev.recipient, step.recipient), Override(prev.parcel, step.parcel),
      Override(prev.deliveryOption, step.deliveryOption), Override(prev.status, step.status),
      Override(prev.createdAt, step.createdAt), Override(prev.estimatedDelivery, step.estimatedDelivery))
  }

  /** An empty step changes nothing, and a step applied to nothing is the step. */
  lemma MergeEmpty(d: Draft)
    ensures Merge(d, EmptyDraft) == d && Merge(EmptyDraft, d) == d
  {
  }

  /** Two steps in a row are one step made of both, the later winning. */
  lemma MergeAssociative(a: Draft, b: Draft, c: Draft)
    ensures Merge(Merge(a, b), c) == Merge(a, Merge(b, c))
  {
  }

  /** Applying the same step twice is applying it once. */
  lemma MergeIdempotent(a: Draft, b: Draft)
    ensures Merge(Merge(a, b), b) == Merge(a, b)
  {
  }

  /** The four parts `confirmOrder` needs are all present. */
  predicate Complete(d: Draft)
  {
    d.sender.Some? && d.recipient.Some? && d.parcel.Some? && d.deliveryOption.Some?
  }

  /**
   * The order `confirmOrder` builds. The source reads the clock three
   * times: `idAt` for the id (its decimal text), `createdAt` for the
   * creation date, and `dueFrom` for the due date a day later.
   */
  function NewOrder(d: Draft, idAt: nat, createdAt: nat, dueFrom: nat): (o: Order)
    requires Complete(d)
    ensures o.status == Confirmed
    ensures o.sender == d.sender.value && o.recipient == d.recipient.value
    ensures o.parcel == d.parcel.value && o.deliveryOption == d.deliveryOption.value
    ensures AllDigits(o.id) && ParseDigits(o.id) == idAt
    ensures o.createdAt == createdAt && o.estimatedDelivery == dueFrom + DayMillis
    ensures createdAt <= dueFrom ==> o.createdAt + DayMillis <= o.estimatedDelivery
    ensures createdAt == dueFrom ==> o.estimatedDelivery == o.createdAt + DayMillis
  {
    ParseNatToString(idAt);
    Order(NatToString(idAt), d.sender.value, d.recipient.value, d.parcel.value,
          d.deliveryOption.value, Confirmed, createdAt, dueFrom + DayMillis)
  }

  /** `orders.find(order => order.id === id)`. */
  function FindOrder(orders: seq<Order>, id: string): (r: Option<Order>)
    ensures r.Some? ==> r.value in orders && r.value.id == id
    ensures r.Some? ==>
      exists k :: 0 <= k < |orders| && orders[k] == r.value && (forall j :: 0 <= j < k ==> orders[j].id != id)
    ensures r.None? <==> forall k :: 0 <= k < |orders| ==> orders[k].id != id
  {
    if orders == [] then None
    else if orders[0].id == id then Some(orders[0])
    else
      var r := FindOrder(orders[1..], id);
      assert r.Some? ==> r.value in orders;
      r
  }

  /** A newly prepended order shadows every older order with the same id. */
  lemma {:induction false} FindPrepended(o: Order, orders: seq<Order>)
    ensures FindOrder([o] + orders, o.id) == Some(o)
  {
  }

  /** Prepending an order with another id leaves every other lookup as it was. */
  lemma {:induction false} FindPastPrepended(o: Order, orders: seq<Order>, id: string)
    requires o.id != id
    ensures FindOrder([o] + orders, id) == FindOrder(orders, id)
  {
    assert ([o] + orders)[1..] == orders;
  }

  class OrderProvider {
    var currentOrder: Draft
    var orders: seq<Order>

    constructor()
      ensures currentOrder == EmptyDraft && orders == []
    {
      currentOrder := EmptyDraft;
      orders := [];
    }

    /** `updateOrderStep`: the step's fields override the current ones. */
    method UpdateOrderStep(step: Draft)
      modifies this
      ensures currentOrder == Merge(old(currentOrder), step)
      ensures orders == old(orders)
    {
      currentOrder := Merge(currentOrder, step);
    }

    /**
     * `confirmOrder`, with the clock readings for the id, the creation date
     * and the due date: a complete draft becomes one confirmed order at the
     * head of the list and the draft is cleared; an incomplete draft
     * changes nothing.
     */
    method ConfirmOrder(idAt: nat, createdAt: nat, dueFrom: nat)
      modifies this
      ensures Complete(old(currentOrder)) ==>
        orders == [NewOrder(old(currentOrder), idAt, createdAt, dueFrom)] + old(orders) && currentOrder == EmptyDraft
      ensures !Complete(old(currentOrder)) ==>
        orders == old(orders) && currentOrder == old(currentOrder)
      ensures Complete(old(currentOrder)) ==>
        GetOrderById(NatToString(idAt)) == Some(NewOrder(old(currentOrder), idAt, createdAt, dueFrom))
    {
      if Complete(currentOrder) {
        var newOrder := NewOrder(currentOrder, idAt, createdAt, dueFrom);
        orders := [newOrder] + orders;
        currentOrder := EmptyDraft;
        FindPrepended(newOrder, old(orders));
      }
    }

    /** `clearCurrentOrder`: the draft is emptied and the orders kept. */
    method ClearCurrentOrder()
      modifies this
      ensures currentOrder == EmptyDraft && orders == old(orders)
    {
      currentOrder := EmptyDraft;
    }

    /** `getOrderById`: the first stored order with that id. */
    function GetOrderById(id: string): (r: Option<Order>)
      reads this
      ensures r.Some? ==> r.value in orders && r.value.id == id
      ensures r.None? <==> forall k :: 0 <= k < |orders| ==> orders[k].id != id
    {
      FindOrder(orders, id)
    }
  }
}
