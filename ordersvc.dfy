// OrderService: creating an order (with the find-or-create of its two
// addresses), the order-number text "ORD"+id and its lookup, the status
// filter of the order history, the fixed delivery options and the
// PENDING_PAYMENT -> PAID step of selecting an option.
module OrderServices {
  import opened Wrappers
  import opened Strings
  import opened AddressEntity
  import AddressServices

  /** DeliveryOrderStatus, in declaration order. */
  datatype DeliveryOrderStatus =
    PendingPayment | Paid | Dispatched | AtPickup | InTransit | Delivered | Completed | Cancelled | Failed

  /** The enum constant's name, as `name()`/`toString()` give it. */
  function StatusName(s: DeliveryOrderStatus): string
  {
    match s
    case PendingPayment => "PENDING_PAYMENT"
    case Paid => "PAID"
    case Dispatched => "DISPATCHED"
    case AtPickup => "AT_PICKUP"
    case InTransit => "IN_TRANSIT"
    case Delivered => "DELIVERED"
    case Completed => "COMPLETED"
    case Cancelled => "CANCELLED"
    case Failed => "FAILED"
  }

  /** `DeliveryOrderStatus.valueOf(name)`: None where Java throws IllegalArgumentException. */
  function ValueOf(name: string): (r: Option<DeliveryOrderStatus>)
    ensures r.Some? ==> StatusName(r.value) == name
  {
    if name == "PENDING_PAYMENT" then Some(PendingPayment)
    else if name == "PAID" then Some(Paid)
    else if name == "DISPATCHED" then Some(Dispatched)
    else if name == "AT_PICKUP" then Some(AtPickup)
    else if name == "IN_TRANSIT" then Some(InTransit)
    else if name == "DELIVERED" then Some(Delivered)
    else if name == "COMPLETED" then Some(Completed)
    else if name == "CANCELLED" then Some(Cancelled)
    else if name == "FAILED" then Some(Failed)
    else None
  }

  /** valueOf finds every constant by its name. */
  lemma ValueOfName(s: DeliveryOrderStatus)
    ensures ValueOf(StatusName(s)) == Some(s)
  {
  }

  /** The exceptions these operations end in. */
  datatype OrderError = IllegalArgument(message: string) | NullPointer | IndexOutOfBounds

  /** A saved DeliveryOrder: the fields createOrder and selectDeliveryOption set. */
  datatype DeliveryOrder = DeliveryOrder(
    userId: int, pickupAddressId: int, dropoffAddressId: int, itemDescription: Option<string>,
    itemWeightKg: real, status: DeliveryOrderStatus)

  /** The pickup or delivery part of a CreateOrderRequest; a Java null is None. */
  datatype ContactInfo = ContactInfo(address: Option<string>, contactName: Option<string>)

  /** The parts of a CreateOrderRequest that createOrder reads. */
  datatype CreateOrderRequest = CreateOrderRequest(
    pickupInfo: ContactInfo, deliveryInfo: ContactInfo, description: Option<string>, weight: real)

  // --------------------------------------------------- find or create an address

  /** `addressText.split(",")[0]`, with the exception it can throw. */
  function Segment(addressText: Option<string>): (r: Result<string, OrderError>)
    ensures addressText.None? ==> r == Err(NullPointer)
    ensures addressText.Some? && r.Ok? ==> IsPrefix(r.value, addressText.value) && ',' !in r.value
    ensures addressText.Some? ==>
      (r == Err(IndexOutOfBounds) <==> addressText.value != [] && forall i :: 0 <= i < |addressText.value| ==> addressText.value[i] == ',')
  {
    if addressText.None? then Err(NullPointer)
    else
      var head := SplitHead(addressText.value, ',');
      if head.None? then Err(IndexOutOfBounds) else Ok(head.value)
  }

  /** The saved address `id` holds the segment: `addr.getAddress().contains(segment)`. */
  predicate Holds(rows: AddressServices.Rows, id: int, segment: string)
    requires id in rows
  {
    rows[id].address.Some? && Contains(rows[id].address.value, segment)
  }

  /**
   * The search loop of findOrCreateAddress over the listing: each step
   * evaluates the segment (which may throw), then calls contains on the
   * address (which throws on a null address); the result is the index of
   * the first address holding the segment, or None after the whole listing.
   */
  function Scan(rows: AddressServices.Rows, listing: seq<int>, segment: Result<string, OrderError>)
    : (r: Result<Option<nat>, OrderError>)
    requires forall i :: 0 <= i < |listing| ==> listing[i] in rows
    ensures listing == [] ==> r == Ok(None)
    ensures listing != [] && segment.Err? ==> r == Err(segment.error)
    ensures r.Ok? && r.value.Some? ==>
      segment.Ok? && r.value.value < |listing| && Holds(rows, listing[r.value.value], segment.value)
      && forall j :: 0 <= j < r.value.value ==> !Holds(rows, listing[j], segment.value)
    ensures r == Ok(None) ==> forall j :: 0 <= j < |listing| ==>
      segment.Ok? && rows[listing[j]].address.Some? && !Holds(rows, listing[j], segment.value)
    ensures segment.Ok? ==> r != Err(IndexOutOfBounds)
    decreases |listing|
  {
    if listing == [] then Ok(None)
    else if segment.Err? then Err(segment.error)
    else if rows[listing[0]].address.None? then Err(NullPointer)
    else if Contains(rows[listing[0]].address.value, segment.value) then Ok(Some(0))
    else
      Shifted(Scan(rows, listing[1..], segment), 1)
  }

  /** A search result over a suffix, seen from i positions earlier. */
  function Shifted(r: Result<Option<nat>, OrderError>, i: nat): Result<Option<nat>, OrderError>
  {
    if r.Ok? && r.value.Some? then Ok(Some(r.value.value + i)) else r
  }

  /** Each of u's listed ids is a saved address. */
  lemma ListingInRows(rows: AddressServices.Rows, u: int, listing: seq<int>)
    requires AddressServices.IsListing(rows, u, listing)
    ensures forall k :: 0 <= k < |listing| ==> listing[k] in rows
  {
    forall k | 0 <= k < |listing| ensures listing[k] in rows {
      assert listing[k] in listing;
      assert AddressServices.OwnedBy(rows, listing[k], u);
    }
  }

  const DefaultCity: string := "Default City"
  const PlaceholderPostalCode: string := "00000"
  const PlaceholderPhone: string := "0000000000"

  /**
   * The address findOrCreateAddress saves when none matches: a blank
   * Address labelled with the contact's name, the whole text, placeholder
   * city, postal code and phone, the user when known, not the default.
   */
  function PlaceholderAddress(addressText: Option<string>, contactName: Option<string>, user: Option<int>, id: int, now: int)
    : (row: AddressFields)
    ensures row.labelText == Some(Shown(contactName) + "'s Address") && row.address == addressText
    ensures row.city == Some(DefaultCity) && row.postalCode == Some(PlaceholderPostalCode)
    ensures row.phone == Some(PlaceholderPhone) && row.user == user && !row.isDefault
    ensures row.country == Some(DefaultCountry) && row.id == Some(id) && row.createdAt == Some(now)
  {
    BlankFields().(labelText := Some(Shown(contactName) + "'s Address"), address := addressText,
                   city := Some(DefaultCity), postalCode := Some(PlaceholderPostalCode),
                   phone := Some(PlaceholderPhone), user := user, isDefault := false,
                   id := Some(id), createdAt := Some(now))
  }

  /** A text holds its own first segment, so a created address is found by the same text next time. */
  lemma SegmentOfOwnText(rows: AddressServices.Rows, id: int, addressText: Option<string>)
    requires id in rows && rows[id].address == addressText && Segment(addressText).Ok?
    ensures Holds(rows, id, Segment(addressText).value)
  {
    ContainsAt(addressText.value, Segment(addressText).value, 0);
  }

  /**
   * Once findOrCreateAddress has saved an address for a text, a later
   * search with that text over a listing that includes it never comes
   * back empty: it finds that address or an earlier one (or throws on an
   * earlier address without text), so no second placeholder is created.
   */
  lemma CreatedIsFound(rows: AddressServices.Rows, listing: seq<int>, id: int, addressText: Option<string>)
    requires forall i :: 0 <= i < |listing| ==> listing[i] in rows
    requires id in listing && rows[id].address == addressText && Segment(addressText).Ok?
    ensures Scan(rows, listing, Segment(addressText)) != Ok(None)
  {
    SegmentOfOwnText(rows, id, addressText);
    var k :| 0 <= k < |listing| && listing[k] == id;
    assert Holds(rows, listing[k], Segment(addressText).value);
  }

  /**
   * A user without saved addresses whose order creates one has an address
   * but no default: the placeholder address is never the default.
   */
  lemma CreatedLeavesNoDefault(rows: AddressServices.Rows, u: int, id: int, addressText: Option<string>,
                               contactName: Option<string>, now: int)
    requires !AddressServices.HasAddresses(rows, u) && id !in rows
    ensures var after := rows[id := PlaceholderAddress(addressText, contactName, Some(u), id, now)];
      AddressServices.HasAddresses(after, u) && !AddressServices.HasDefault(after, u)
  {
    var after := rows[id := PlaceholderAddress(addressText, contactName, Some(u), id, now)];
    assert AddressServices.OwnedBy(after, id, u);
    if AddressServices.HasDefault(after, u) {
      var j :| j in after && AddressServices.OwnedBy(after, j, u) && after[j].isDefault;
      assert j != id;
      assert AddressServices.OwnedBy(rows, j, u);
    }
  }

  /**
   * What findOrCreateAddress makes of the repository: the address id, the
   * rows afterwards, and whether a placeholder address was created under
   * nextId.
   */
  function FindOrCreate(rows: AddressServices.Rows, listing: seq<int>, addressText: Option<string>,
                        contactName: Option<string>, owner: Option<int>, nextId: int, now: int)
    : (r: Result<(int, AddressServices.Rows, bool), OrderError>)
    requires forall i :: 0 <= i < |listing| ==> listing[i] in rows
    ensures r.Ok? && !r.value.2 ==> r.value.0 in listing && r.value.1 == rows
    ensures r.Ok? && r.value.2 ==> r.value.0 == nextId && nextId in r.value.1 && r.value.1 - {nextId} == rows - {nextId}
  {
    match Scan(rows, listing, Segment(addressText))
    case Err(e) => Err(e)
    case Ok(None) => Ok((nextId, rows[nextId := PlaceholderAddress(addressText, contactName, owner, nextId, now)], true))
    case Ok(Some(k)) => Ok((listing[k], rows, false))
  }

  /** The ids the repository lists for u, each a saved address. */
  ghost function Listed(rows: AddressServices.Rows, query: (AddressServices.Rows, int) -> seq<int>, u: int)
    : (listing: seq<int>)
    requires ListsOwned(query)
    ensures listing == query(rows, u)
    ensures forall k :: 0 <= k < |listing| ==> listing[k] in rows
  {
    ListingInRows(rows, u, query(rows, u));
    query(rows, u)
  }

  /**
   * A search in which every listed address other than `id` has a text
   * without the segment, and `id` has one with it, finds `id`.
   */
  lemma {:induction false} ScanFindsOnly(rows: AddressServices.Rows, listing: seq<int>, segment: string, id: int)
    requires forall i :: 0 <= i < |listing| ==> listing[i] in rows
    requires id in listing && Holds(rows, id, segment)
    requires forall i :: 0 <= i < |listing| && listing[i] != id ==>
      rows[listing[i]].address.Some? && !Holds(rows, listing[i], segment)
    ensures var r := Scan(rows, listing, Ok(segment));
      r.Ok? && r.value.Some? && listing[r.value.value] == id
    decreases |listing|
  {
    if listing[0] != id {
      assert listing[1..][0..] == listing[1..];
      assert id in listing[1..];
      forall i | 0 <= i < |listing[1..]| && listing[1..][i] != id
        ensures rows[listing[1..][i]].address.Some? && !Holds(rows, listing[1..][i], segment)
      {
        assert listing[1..][i] == listing[i + 1];
      }
      ScanFindsOnly(rows, listing[1..], segment, id);
    }
  }

  /**
   * Finding or creating an address twice with the same text, as createOrder
   * does for a pickup and delivery at the same address, gives the same
   * address both times and creates at most one: the second search finds
   * what the first found or created.
   */
  lemma FindOrCreateTwice(rows: AddressServices.Rows, query: (AddressServices.Rows, int) -> seq<int>, u: int,
                          addressText: Option<string>, name1: Option<string>, name2: Option<string>,
                          nextId: int, now: int)
    requires ListsOwned(query) && nextId !in rows && Segment(addressText).Ok?
    requires FindOrCreate(rows, Listed(rows, query, u), addressText, name1, Some(u), nextId, now).Ok?
    ensures var p := FindOrCreate(rows, Listed(rows, query, u), addressText, name1, Some(u), nextId, now).value;
      var next := if p.2 then nextId + 1 else nextId;
      FindOrCreate(p.1, Listed(p.1, query, u), addressText, name2, Some(u), next, now) == Ok((p.0, p.1, false))
  {
    var listing := Listed(rows, query, u);
    var p := FindOrCreate(rows, listing, addressText, name1, Some(u), nextId, now).value;
    var segment := Segment(addressText).value;
    if p.2 {
      var after := p.1;
      var listing2 := Listed(after, query, u);
      assert after == rows[nextId := PlaceholderAddress(addressText, name1, Some(u), nextId, now)];
      assert Scan(rows, listing, Ok(segment)) == Ok(None);
      SegmentOfOwnText(after, nextId, addressText);
      assert AddressServices.OwnedBy(after, nextId, u);
      assert nextId in listing2;
      forall i | 0 <= i < |listing2| && listing2[i] != nextId
        ensures after[listing2[i]].address.Some? && !Holds(after, listing2[i], segment)
      {
        var j := listing2[i];
        assert j in listing2;
        assert AddressServices.OwnedBy(after, j, u);
        assert AddressServices.OwnedBy(rows, j, u);
        assert j in listing;
        var k :| 0 <= k < |listing| && listing[k] == j;
        assert !Holds(rows, listing[k], segment);
      }
      ScanFindsOnly(after, listing2, segment, nextId);
    }
  }

  // ------------------------------------------------------------ order numbers

  const OrderPrefix: string := "ORD"

  /** The order number shown to clients: "ORD" + id. */
  function OrderNumber(id: int): (n: string)
    ensures IsPrefix(OrderPrefix, n) && |n| > |OrderPrefix|
  {
    OrderPrefix + IntToString(id)
  }

  /** The id findByOrderNumber reads: every "ORD" removed, the rest parsed as a long. */
  function OrderIdOf(orderNumber: string): (r: Option<int>)
    ensures r.Some? ==> LongMin <= r.value <= LongMax
  {
    ParseLong(ReplaceAll(orderNumber, OrderPrefix, ""))
  }

  /** `findByOrderNumber`: None for an unparsable number or a missing order. */
  function FindByOrderNumber(orders: map<int, DeliveryOrder>, orderNumber: string): (r: Option<(int, DeliveryOrder)>)
    ensures r.Some? <==> OrderIdOf(orderNumber).Some? && OrderIdOf(orderNumber).value in orders
    ensures r.Some? ==> r.value.0 == OrderIdOf(orderNumber).value && r.value.1 == orders[r.value.0]
  {
    var id := OrderIdOf(orderNumber);
    if id.Some? && id.value in orders then Some((id.value, orders[id.value])) else None
  }

  /** An integer's decimal text has no letter O, so removing "ORD" leaves it alone. */
  lemma IntTextHasNoO(i: int)
    ensures 'O' !in IntToString(i)
  {
    var s := IntToString(i);
    if i >= 0 {
      assert AllDigits(s);
    } else {
      assert AllDigits(s[1..]);
      assert forall k :: 0 < k < |s| ==> s[k] == s[1..][k - 1];
    }
  }

  /** The order number of every long id reads back as that id. */
  lemma OrderNumberRoundTrip(id: int)
    requires LongMin <= id <= LongMax
    ensures OrderIdOf(OrderNumber(id)) == Some(id)
  {
    var digits := IntToString(id);
    var n := OrderNumber(id);
    assert IsPrefix(OrderPrefix, n);
    assert n[|OrderPrefix|..] == digits;
    assert ReplaceAll(n, OrderPrefix, "") == "" + ReplaceAll(digits, OrderPrefix, "");
    IntTextHasNoO(id);
    ReplaceAllAbsent(digits, OrderPrefix, "");
    assert "" + digits == digits;
    ParseLongOfInt(id);
  }

  /** So findByOrderNumber finds each saved order by the number shown for it. */
  lemma FindsByOwnNumber(orders: map<int, DeliveryOrder>, id: int)
    requires id in orders && LongMin <= id <= LongMax
    ensures FindByOrderNumber(orders, OrderNumber(id)) == Some((id, orders[id]))
  {
    OrderNumberRoundTrip(id);
  }

  /** The prefix is optional: the bare decimal id finds the order too. */
  lemma FindsByBareId(orders: map<int, DeliveryOrder>, id: int)
    requires id in orders && LongMin <= id <= LongMax
    ensures FindByOrderNumber(orders, IntToString(id)) == Some((id, orders[id]))
  {
    IntTextHasNoO(id);
    ReplaceAllAbsent(IntToString(id), OrderPrefix, "");
    ParseLongOfInt(id);
  }

  // ------------------------------------------------------------ order history

  /** The repository query getOrdersHistory runs. */
  datatype HistoryQuery = ByUser(userId: int) | ByUserAndStatus(userId: int, status: DeliveryOrderStatus)

  /** The status filter: a null or blank text, or one valueOf rejects after upper-casing, filters nothing. */
  function StatusFilter(status: Option<string>): (r: Option<DeliveryOrderStatus>)
    ensures r.Some? ==> status.Some? && ToUpper(status.value) == StatusName(r.value)
  {
    if status.None? || JavaBlank(status.value) then None else ValueOf(ToUpper(status.value))
  }

  /** `getOrdersHistory`'s choice of query. */
  function HistoryQueryFor(userId: int, status: Option<string>): (q: HistoryQuery)
    ensures q.userId == userId
    ensures q.ByUserAndStatus? <==> StatusFilter(status).Some?
    ensures q.ByUserAndStatus? ==> q.status == StatusFilter(status).value
  {
    var s := StatusFilter(status);
    if s.Some? then ByUserAndStatus(userId, s.value) else ByUser(userId)
  }

  /** The orders a query returns (before paging and ordering). */
  predicate Selects(q: HistoryQuery, order: DeliveryOrder)
  {
    order.userId == q.userId && (q.ByUserAndStatus? ==> order.status == q.status)
  }

  /** A status name's letters are upper case, so upper-casing leaves it alone. */
  lemma ToUpperName(s: DeliveryOrderStatus)
    ensures ToUpper(StatusName(s)) == StatusName(s)
  {
  }

  /** Upper-casing the lower-case form of a name gives the name back. */
  lemma ToUpperLowerName(s: DeliveryOrderStatus)
    ensures ToUpper(ToLower(StatusName(s))) == StatusName(s)
  {
    var n := StatusName(s);
    assert forall i :: 0 <= i < |n| ==> n[i] == '_' || 'A' <= n[i] <= 'Z';
    assert forall i :: 0 <= i < |n| ==> ToUpper(ToLower(n))[i] == n[i];
  }

  /**
   * The filter is case-insensitive: the upper- and lower-case names both
   * select exactly their status.
   */
  lemma StatusFilterCaseInsensitive(s: DeliveryOrderStatus)
    ensures StatusFilter(Some(StatusName(s))) == Some(s)
    ensures StatusFilter(Some(ToLower(StatusName(s)))) == Some(s)
  {
    var n := StatusName(s);
    ToUpperName(s);
    ToUpperLowerName(s);
    ValueOfName(s);
    assert n[0] != ' ' && !IsJavaSpace(n[0]);
    JavaTrimKeeps(n);
    var l := ToLower(n);
    assert l[0] == LowerChar(n[0]) && !IsJavaSpace(l[0]);
    JavaTrimKeeps(l);
  }

  /** A blank status text selects the same orders as no status. */
  lemma BlankStatusUnfiltered(userId: int, status: string, order: DeliveryOrder)
    requires JavaBlank(status)
    ensures Selects(HistoryQueryFor(userId, Some(status)), order) <==> order.userId == userId
  {
  }

  // ------------------------------------------------------- delivery options

  /** One of the fixed options getStandardDeliveryOptions lists. */
  datatype StandardOption = StandardOption(
    optionId: string, vehicleType: string, name: string, price: real, estimatedTime: string,
    description: string, availableCount: int, weatherDependent: Option<bool>)

  /** `getStandardDeliveryOptions`: the ground robot at 12.50, then the express drone at 18.00. */
  function StandardDeliveryOptions(): (r: seq<StandardOption>)
    ensures |r| == 2
    ensures r[0].optionId == "robot_standard" && r[0].vehicleType == "robot" && r[0].price == 12.50
    ensures r[1].optionId == "drone_express" && r[1].vehicleType == "drone" && r[1].price == 18.00
    ensures r[0].availableCount == 3 && r[1].availableCount == 2
    ensures r[0].weatherDependent.None? && r[1].weatherDependent == Some(true)
  {
    [StandardOption("robot_standard", "robot", "机器人配送", 12.50, "45分钟", "地面机器人配送，适合大部分物件", 3, None),
     StandardOption("drone_express", "drone", "无人机配送", 18.00, "20分钟", "空中无人机配送，快速直达", 2, Some(true))]
  }

  // ------------------------------------------------------------- the service

  /** Whether `query` answers each findByUserIdOrderByIsDefaultDescCreatedAtDesc with exactly the user's addresses. */
  ghost predicate ListsOwned(query: (AddressServices.Rows, int) -> seq<int>)
  {
    forall rows, u :: AddressServices.IsListing(rows, u, query(rows, u))
  }

  /**
   * The service's state: the saved orders and addresses, the registered
   * user ids, and the next ids the repositories assign.
   */
  class OrderService {
    var orders: map<int, DeliveryOrder>
    var addresses: AddressServices.Rows
    var users: set<int>
    var nextOrderId: int
    var nextAddressId: int

    /** Every saved order and address has an id below the next one. */
    ghost predicate Valid()
      reads this
    {
      (forall id :: id in orders ==> id < nextOrderId) && (forall id :: id in addresses ==> id < nextAddressId)
    }

    constructor (users: set<int>, addresses: AddressServices.Rows, nextAddressId: int)
      requires forall id :: id in addresses ==> id < nextAddressId
      ensures Valid() && orders == map[] && this.addresses == addresses && this.users == users
    {
      orders := map[];
      this.addresses := addresses;
      this.users := users;
      nextOrderId := 1;
      this.nextAddressId := nextAddressId;
    }

    /** The search loop of findOrCreateAddress over the listing, with its early returns. */
    method Search(listing: seq<int>, segment: Result<string, OrderError>) returns (found: Result<Option<nat>, OrderError>)
      requires forall k :: 0 <= k < |listing| ==> listing[k] in addresses
      ensures found == Scan(addresses, listing, segment)
    {
      var i := 0;
      while i < |listing|
        invariant 0 <= i <= |listing|
        invariant Scan(addresses, listing, segment) == Shifted(Scan(addresses, listing[i..], segment), i)
      {
        if segment.Err? {
          return Err(segment.error);
        }
        var text := addresses[listing[i]].address;
        if text.None? {
          return Err(NullPointer);
        }
        if Contains(text.value, segment.value) {
          return Ok(Some(i));
        }
        assert listing[i..][1..] == listing[i + 1..];
        i := i + 1;
      }
      return Ok(None);
    }

    /**
     * `findOrCreateAddress`: the id of the first listed address holding
     * the text's first comma-separated segment, or else the id of a newly
     * saved placeholder address; an exception from the search leaves the
     * repository as it was.
     */
    method FindOrCreateAddress(addressText: Option<string>, contactName: Option<string>, u: int,
                               listing: seq<int>, now: int)
      returns (r: Result<int, OrderError>)
      requires Valid() && AddressServices.IsListing(addresses, u, listing)
      requires forall k :: 0 <= k < |listing| ==> listing[k] in addresses
      modifies this`addresses, this`nextAddressId
      ensures Valid() && orders == old(orders) && users == old(users) && nextOrderId == old(nextOrderId)
      ensures old(addresses).Keys <= addresses.Keys && (r.Ok? ==> r.value in addresses)
      ensures var found := Scan(old(addresses), listing, Segment(addressText));
        && (found.Err? ==> r == Err(found.error) && addresses == old(addresses) && nextAddressId == old(nextAddressId))
        && (found.Ok? && found.value.Some? ==>
              r == Ok(listing[found.value.value]) && addresses == old(addresses) && nextAddressId == old(nextAddressId))
        && (found == Ok(None) ==>
              r == Ok(old(nextAddressId)) && nextAddressId == old(nextAddressId) + 1
              && addresses == old(addresses)[old(nextAddressId) :=
                   PlaceholderAddress(addressText, contactName, if u in users then Some(u) else None,
                                      old(nextAddressId), now)])
      ensures var f := FindOrCreate(old(addresses), listing, addressText, contactName,
                                    if u in users then Some(u) else None, old(nextAddressId), now);
        (f.Err? ==> r == Err(f.error))
        && (f.Ok? ==> r == Ok(f.value.0) && addresses == f.value.1
                      && nextAddressId == old(nextAddressId) + (if f.value.2 then 1 else 0))
    {
      var found := Search(listing, Segment(addressText));
      if found.Err? {
        return Err(found.error);
      }
      if found.value.Some? {
        return Ok(listing[found.value.value]);
      }
      var id := nextAddressId;
      addresses := addresses[id := PlaceholderAddress(addressText, contactName, if u in users then Some(u) else None,
                                                      id, now)];
      nextAddressId := nextAddressId + 1;
      return Ok(id);
    }

    /**
     * `createOrder`: "User not found" for an unknown user; otherwise the
     * pickup address is found or created, then the delivery address
     * (searched among the addresses after the first step), and a
     * PENDING_PAYMENT order is saved under the next id. A placeholder
     * address is stamped when it is saved: `pickupAt` for the pickup
     * one, the later `deliveryAt` for the delivery one. The service is
     * transactional: an exception undoes the addresses saved on the way.
     */
    method CreateOrder(req: CreateOrderRequest, u: int, query: (AddressServices.Rows, int) -> seq<int>,
                       pickupAt: int, deliveryAt: int)
      returns (r: Result<(int, DeliveryOrder), OrderError>)
      requires Valid() && ListsOwned(query)
      modifies this
      ensures Valid() && users == old(users)
      ensures u !in users ==> r == Err(IllegalArgument("User not found"))
      ensures r.Err? ==> orders == old(orders) && addresses == old(addresses)
      ensures r.Ok? ==>
        u in users && r.value.0 == old(nextOrderId) && orders == old(orders)[r.value.0 := r.value.1]
        && r.value.1 == DeliveryOrder(u, r.value.1.pickupAddressId, r.value.1.dropoffAddressId,
                                      req.description, req.weight, PendingPayment)
        && r.value.1.pickupAddressId in addresses && r.value.1.dropoffAddressId in addresses
        && old(addresses).Keys <= addresses.Keys
      ensures u in users ==>
        var p := FindOrCreate(old(addresses), Listed(old(addresses), query, u), req.pickupInfo.address,
                              req.pickupInfo.contactName, Some(u), old(nextAddressId), pickupAt);
        (p.Err? ==> r == Err(p.error))
        && (p.Ok? ==>
              var next := if p.value.2 then old(nextAddressId) + 1 else old(nextAddressId);
              var d := FindOrCreate(p.value.1, Listed(p.value.1, query, u), req.deliveryInfo.address,
                                    req.deliveryInfo.contactName, Some(u), next, deliveryAt);
              (d.Err? ==> r == Err(d.error))
              && (d.Ok? ==> r.Ok? && r.value.1.pickupAddressId == p.value.0
                            && r.value.1.dropoffAddressId == d.value.0 && addresses == d.value.1))
    {
      if u !in users {
        return Err(IllegalArgument("User not found"));
      }
      var saved := addresses;
      ghost var p := FindOrCreate(saved, Listed(saved, query, u), req.pickupInfo.address,
                                  req.pickupInfo.contactName, Some(u), nextAddressId, pickupAt);
      var pickup := FindOrCreateAddress(req.pickupInfo.address, req.pickupInfo.contactName, u,
                                        query(addresses, u), pickupAt);
      if pickup.Err? {
        addresses := saved;
        return Err(pickup.error);
      }
      assert pickup.value == p.value.0 && addresses == p.value.1;
      ghost var afterPickup := addresses;
      ghost var d := FindOrCreate(afterPickup, Listed(afterPickup, query, u), req.deliveryInfo.address,
                                  req.deliveryInfo.contactName, Some(u), nextAddressId, deliveryAt);
      var delivery := FindOrCreateAddress(req.deliveryInfo.address, req.deliveryInfo.contactName, u,
                                          query(addresses, u), deliveryAt);
      if delivery.Err? {
        addresses := saved;
        return Err(delivery.error);
      }
      assert delivery.value == d.value.0 && addresses == d.value.1;
      assert delivery.value in addresses;
      assert afterPickup.Keys <= addresses.Keys;
      var order := DeliveryOrder(u, pickup.value, delivery.value, req.description, req.weight, PendingPayment);
      var id := nextOrderId;
      orders := orders[id := order];
      nextOrderId := nextOrderId + 1;
      return Ok((id, order));
    }

    /**
     * `selectDeliveryOption`: "Order not found" when the number finds no
     * order, "Order is not in pending payment state" unless the order is
     * PENDING_PAYMENT; otherwise only its status changes, to PAID. The
     * selected option is not read.
     */
    method SelectDeliveryOption(orderNumber: string, selectedOptionId: string)
      returns (r: Result<DeliveryOrder, OrderError>)
      requires Valid()
      modifies this
      ensures Valid() && addresses == old(addresses) && users == old(users)
      ensures nextOrderId == old(nextOrderId) && nextAddressId == old(nextAddressId)
      ensures var found := FindByOrderNumber(old(orders), orderNumber);
        && (found.None? ==> r == Err(IllegalArgument("Order not found")) && orders == old(orders))
        && (found.Some? && found.value.1.status != PendingPayment ==>
              r == Err(IllegalArgument("Order is not in pending payment state")) && orders == old(orders))
        && (found.Some? && found.value.1.status == PendingPayment ==>
              r == Ok(found.value.1.(status := Paid)) && orders == old(orders)[found.value.0 := r.value])
    {
      var found := FindByOrderNumber(orders, orderNumber);
      if found.None? {
        return Err(IllegalArgument("Order not found"));
      }
      var (id, order) := found.value;
      if order.status != PendingPayment {
        return Err(IllegalArgument("Order is not in pending payment state"));
      }
      var paid := order.(status := Paid);
      orders := orders[id := paid];
      return Ok(paid);
    }
  }

  /**
   * Selecting an option is the only step from PENDING_PAYMENT, and it
   * reaches PAID: a second selection on the same number is refused.
   */
  lemma SelectOnceOnly(orders: map<int, DeliveryOrder>, orderNumber: string)
    requires FindByOrderNumber(orders, orderNumber).Some?
    requires FindByOrderNumber(orders, orderNumber).value.1.status == PendingPayment
    ensures var (id, order) := FindByOrderNumber(orders, orderNumber).value;
      var after := orders[id := order.(status := Paid)];
      FindByOrderNumber(after, orderNumber) == Some((id, order.(status := Paid)))
      && FindByOrderNumber(after, orderNumber).value.1.status != PendingPayment
  {
  }
}
