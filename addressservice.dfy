// AddressService: the full-address text sent to the geocoder, the
// repository of saved addresses with its one-default-per-user rule
// (add, update, delete, set default), and the address suggestions.
module AddressServices {
  import opened Wrappers
  import opened Strings
  import opened Geocoding
  import opened AddressEntity

  /** The fields of an AddressRequest; a Java null is None. */
  datatype AddressRequest = AddressRequest(
    labelText: Option<string>, address: Option<string>, city: Option<string>, postalCode: Option<string>,
    country: Option<string>, phone: Option<string>, isDefault: bool)

  /** The exceptions the service throws: IllegalArgumentException, or a GeocodingException passed through. */
  datatype ServiceError = IllegalArgument(message: string) | GeocodingFailed(message: string)

  // ------------------------------------------------------ full address text

  /** A part of the address that is kept: non-null and not blank, trimmed. */
  function Part(s: Option<string>): (p: seq<string>)
    ensures |p| <= 1
    ensures p != [] <==> s.Some? && !JavaBlank(s.value)
    ensures p != [] ==> p[0] == JavaTrim(s.value)
    ensures forall i :: 0 <= i < |p| ==> |p[i]| > 0
  {
    if s.Some? && !JavaBlank(s.value) then [JavaTrim(s.value)] else []
  }

  /** The kept parts, in the order address, city, postal code. */
  function AddressParts(address: Option<string>, city: Option<string>, postalCode: Option<string>): (parts: seq<string>)
    ensures forall i :: 0 <= i < |parts| ==> |parts[i]| > 0
  {
    var a, c := Part(address), Part(city);
    assert forall i :: 0 <= i < |a + c| ==> |(a + c)[i]| > 0;
    a + c + Part(postalCode)
  }

  /**
   * One step of the builder: a kept part is appended, after a ", " when
   * the text so far is not empty.
   */
  method AppendPart(text: string, ghost parts: seq<string>, s: Option<string>) returns (next: string)
    requires forall i :: 0 <= i < |parts| ==> |parts[i]| > 0
    requires text == Join(parts, ", ")
    ensures next == Join(parts + Part(s), ", ")
  {
    next := text;
    if s.Some? && !JavaBlank(s.value) {
      if |next| > 0 {
        next := next + ", ";
      }
      next := next + JavaTrim(s.value);
      JoinEmpty(parts, ", ");
      JoinSnoc(parts, JavaTrim(s.value), ", ");
    } else {
      assert parts + Part(s) == parts;
    }
  }

  /**
   * `buildFullAddress`: the kept parts joined with ", ", a separator being
   * written only when something precedes it.
   */
  method BuildFullAddress(address: Option<string>, city: Option<string>, postalCode: Option<string>)
    returns (text: string)
    ensures text == Join(AddressParts(address, city, postalCode), ", ")
  {
    text := AppendPart("", [], address);
    assert [] + Part(address) == Part(address);
    text := AppendPart(text, Part(address), city);
    text := AppendPart(text, Part(address) + Part(city), postalCode);
  }

  /** What `Map.get` gives: the value, or null for a missing key. */
  function Get(data: map<string, string>, key: string): Option<string>
  {
    if key in data then Some(data[key]) else None
  }

  /** `buildFullAddressFromMap`: the same text from the "address", "city" and "postalCode" entries. */
  method BuildFullAddressFromMap(data: map<string, string>) returns (text: string)
    ensures text == Join(AddressParts(Get(data, "address"), Get(data, "city"), Get(data, "postalCode")), ", ")
  {
    text := BuildFullAddress(Get(data, "address"), Get(data, "city"), Get(data, "postalCode"));
  }

  /**
   * The text is empty exactly when every part is null or blank, and it
   * never starts or ends with a separator: it starts with the first kept
   * part and ends with the last.
   */
  lemma JoinedAddressShape(address: Option<string>, city: Option<string>, postalCode: Option<string>)
    ensures var parts := AddressParts(address, city, postalCode);
      (Join(parts, ", ") == "" <==> Part(address) == [] && Part(city) == [] && Part(postalCode) == [])
      && (parts != [] ==> IsPrefix(parts[0], Join(parts, ", ")) && IsSuffix(parts[|parts| - 1], Join(parts, ", ")))
  {
    var parts := AddressParts(address, city, postalCode);
    JoinEmpty(parts, ", ");
    JoinEnds(parts, ", ");
  }

  /** With all three parts present the text is "address, city, postal code", each trimmed. */
  lemma FullAddressAllParts(address: string, city: string, postalCode: string)
    requires !JavaBlank(address) && !JavaBlank(city) && !JavaBlank(postalCode)
    ensures Join(AddressParts(Some(address), Some(city), Some(postalCode)), ", ")
      == JavaTrim(address) + ", " + JavaTrim(city) + ", " + JavaTrim(postalCode)
  {
    var a, c, p := JavaTrim(address), JavaTrim(city), JavaTrim(postalCode);
    assert Part(Some(address)) == [a] && Part(Some(city)) == [c] && Part(Some(postalCode)) == [p];
    assert AddressParts(Some(address), Some(city), Some(postalCode)) == [a, c, p];
    JoinThree(a, c, p, ", ");
  }

  lemma JoinThree(a: string, b: string, c: string, sep: string)
    ensures Join([a, b, c], sep) == a + sep + b + sep + c
  {
    assert [a, b, c][1..] == [b, c] && [b, c][1..] == [c];
    assert Join([b, c], sep) == b + sep + c;
  }

  /** A join starts with its first piece and ends with its last. */
  lemma {:induction false} JoinEnds(parts: seq<string>, sep: string)
    ensures parts != [] ==> IsPrefix(parts[0], Join(parts, sep)) && IsSuffix(parts[|parts| - 1], Join(parts, sep))
    decreases |parts|
  {
    if |parts| >= 2 {
      JoinEnds(parts[1..], sep);
      var rest := Join(parts[1..], sep);
      assert Join(parts, sep) == parts[0] + sep + rest;
      assert parts[1..][|parts[1..]| - 1] == parts[|parts| - 1];
      assert Join(parts, sep)[|Join(parts, sep)| - |parts[|parts| - 1]|..] == rest[|rest| - |parts[|parts| - 1]|..];
    }
  }

  // ------------------------------------------------------------ geocoding

  const OutsideCityMessage: string := "Address must be within San Francisco city limits"
  const AmbiguousMessage: string := "Invalid or ambiguous address provided"

  /**
   * The geocoder check in `addAddress` and `updateAddress`: no error when
   * the geocoder finds an exact point in the service area; an out-of-area
   * or invalid address becomes an IllegalArgumentException with the
   * service's own message; a geocoding failure is passed on unchanged.
   */
  function GeocodeCheck(fullAddress: string, reply: GeocodeReply): (e: Option<ServiceError>)
    ensures e.None? <==> IsInServiceArea(fullAddress, reply)
    ensures e == Some(IllegalArgument(OutsideCityMessage)) <==>
      reply.Results? && reply.results != [] && !reply.results[0].partialMatch
      && !IsWithinServiceArea(reply.results[0].location.lat, reply.results[0].location.lng)
    ensures e == Some(IllegalArgument(AmbiguousMessage)) <==>
      reply.Results? && (reply.results == [] || reply.results[0].partialMatch)
    ensures e.Some? && e.value.GeocodingFailed? <==> !reply.Results?
  {
    GetGeoPointClassification(fullAddress, reply);
    match GetGeoPoint(fullAddress, reply)
    case Ok(_) => None
    case Err(OutsideServiceArea(_)) => Some(IllegalArgument(OutsideCityMessage))
    case Err(InvalidAddress(_)) => Some(IllegalArgument(AmbiguousMessage))
    case Err(GeocodingFailure(m)) => Some(GeocodingFailed(m))
  }

  // ---------------------------------------------------- the saved addresses

  /** The address repository: saved addresses by id. */
  type Rows = map<int, AddressFields>

  predicate OwnedBy(rows: Rows, id: int, u: int)
  {
    id in rows && rows[id].user == Some(u)
  }

  predicate HasAddresses(rows: Rows, u: int)
  {
    exists id :: id in rows && OwnedBy(rows, id, u)
  }

  predicate HasDefault(rows: Rows, u: int)
  {
    exists id :: id in rows && OwnedBy(rows, id, u) && rows[id].isDefault
  }

  /** No two addresses of one user are both the default. */
  ghost predicate AtMostOneDefault(rows: Rows)
  {
    forall i, j :: i in rows && j in rows && rows[i].isDefault && rows[j].isDefault && rows[i].user == rows[j].user
      ==> i == j
  }

  /** A user who has an address has a default one. */
  ghost predicate DefaultPresent(rows: Rows)
  {
    forall u :: HasAddresses(rows, u) ==> HasDefault(rows, u)
  }

  /** The rule the service keeps: every user with addresses has exactly one default. */
  ghost predicate OneDefaultEach(rows: Rows)
  {
    AtMostOneDefault(rows) && DefaultPresent(rows)
  }

  /**
   * What `findByUserIdOrderByIsDefaultDescCreatedAtDesc(u)` returns: exactly
   * the ids of u's addresses.
   */
  ghost predicate IsListing(rows: Rows, u: int, listing: seq<int>)
  {
    forall id :: id in listing <==> OwnedBy(rows, id, u)
  }

  /** The repository's order: defaults first, then newest first. */
  predicate ListedBefore(a: AddressFields, b: AddressFields)
  {
    (a.isDefault && !b.isDefault)
    || (a.isDefault == b.isDefault && (a.createdAt.Some? && b.createdAt.Some? ==> a.createdAt.value >= b.createdAt.value))
  }

  predicate InListingOrder(rows: Rows, listing: seq<int>)
  {
    forall i, j :: 0 <= i < j < |listing| && listing[i] in rows && listing[j] in rows
      ==> ListedBefore(rows[listing[i]], rows[listing[j]])
  }

  /** Every address of the owner loses its default flag; nothing else changes. */
  function ClearDefaults(rows: Rows, owner: Option<int>): (r: Rows)
    ensures r.Keys == rows.Keys
    ensures forall id :: id in r && r[id].isDefault ==> r[id].user != owner
    ensures forall id :: id in r ==> r[id].(isDefault := rows[id].isDefault) == rows[id]
    ensures forall id :: id in r && rows[id].user != owner ==> r[id] == rows[id]
  {
    map id | id in rows :: if rows[id].user == owner then rows[id].(isDefault := false) else rows[id]
  }

  /** The row `addAddress` saves: a blank Address with the request's fields, the user and the creation time. */
  function NewRow(req: AddressRequest, u: int, id: int, now: int): (row: AddressFields)
    ensures row.user == Some(u) && row.id == Some(id) && !row.isDefault
    ensures row.country == if req.country.Some? then req.country else Some(DefaultCountry)
  {
    BlankFields().(labelText := req.labelText, address := req.address, city := req.city,
                   postalCode := req.postalCode,
                   country := if req.country.Some? then req.country else Some(DefaultCountry),
                   phone := req.phone, user := Some(u), id := Some(id), createdAt := Some(now))
  }

  /**
   * The repository after `addAddress` saves `row` for user u: the new
   * address is the default when it is u's first one or the request asks
   * for it, and a request for the default first clears u's other defaults.
   */
  function AfterAdd(rows: Rows, u: int, newId: int, row: AddressFields, makeDefault: bool): (r: Rows)
    requires newId !in rows && row.user == Some(u)
    ensures r.Keys == rows.Keys + {newId}
    ensures r[newId] == row.(isDefault := makeDefault || !HasAddresses(rows, u))
    ensures forall id :: id in rows && (!makeDefault || rows[id].user != Some(u)) ==> r[id] == rows[id]
    ensures forall id :: id in rows && makeDefault && rows[id].user == Some(u) ==> r[id] == rows[id].(isDefault := false)
  {
    var first := !HasAddresses(rows, u);
    var base := if makeDefault then ClearDefaults(rows, Some(u)) else rows;
    base[newId := row.(isDefault := first || makeDefault)]
  }

  /** Adding an address keeps exactly one default per user. */
  lemma AddKeepsOneDefault(rows: Rows, u: int, newId: int, row: AddressFields, makeDefault: bool)
    requires OneDefaultEach(rows) && newId !in rows && row.user == Some(u)
    ensures OneDefaultEach(AfterAdd(rows, u, newId, row, makeDefault))
  {
    AddKeepsDefaultPresent(rows, u, newId, row, makeDefault);
    AddKeepsAtMostOneDefault(rows, u, newId, row, makeDefault);
  }

  lemma AddKeepsDefaultPresent(rows: Rows, u: int, newId: int, row: AddressFields, makeDefault: bool)
    requires DefaultPresent(rows) && newId !in rows && row.user == Some(u)
    ensures DefaultPresent(AfterAdd(rows, u, newId, row, makeDefault))
  {
    var r := AfterAdd(rows, u, newId, row, makeDefault);
    forall v | HasAddresses(r, v)
      ensures HasDefault(r, v)
    {
      if v == u && (makeDefault || !HasAddresses(rows, u)) {
        assert OwnedBy(r, newId, v) && r[newId].isDefault;
      } else {
        var k :| k in r && OwnedBy(r, k, v);
        if v != u {
          assert OwnedBy(rows, k, v);
        }
        assert HasAddresses(rows, v) && HasDefault(rows, v);
        var j :| j in rows && OwnedBy(rows, j, v) && rows[j].isDefault;
        assert r[j] == rows[j];
        assert OwnedBy(r, j, v);
      }
    }
  }

  lemma AddKeepsAtMostOneDefault(rows: Rows, u: int, newId: int, row: AddressFields, makeDefault: bool)
    requires AtMostOneDefault(rows) && newId !in rows && row.user == Some(u)
    ensures AtMostOneDefault(AfterAdd(rows, u, newId, row, makeDefault))
  {
    var r := AfterAdd(rows, u, newId, row, makeDefault);
    forall i, j | i in r && j in r && r[i].isDefault && r[j].isDefault && r[i].user == r[j].user
      ensures i == j
    {
      if r[i].user != Some(u) {
        assert r[i] == rows[i] && r[j] == rows[j];
      } else if makeDefault {
        assert i == newId && j == newId;
      } else if HasAddresses(rows, u) {
        assert i != newId && j != newId;
        assert r[i] == rows[i] && r[j] == rows[j];
      } else {
        assert !OwnedBy(rows, i, u) && !OwnedBy(rows, j, u);
      }
    }
  }

  /** The row `updateAddress` writes before the default change: the request's fields, a null country keeping the old one. */
  function UpdatedRow(row: AddressFields, req: AddressRequest): (updated: AddressFields)
    ensures updated.country == if req.country.Some? then req.country else row.country
    ensures updated.isDefault == row.isDefault && updated.user == row.user && updated.id == row.id
  {
    row.(labelText := req.labelText, address := req.address, city := req.city, postalCode := req.postalCode,
         country := if req.country.Some? then req.country else row.country, phone := req.phone)
  }

  /**
   * The repository after `updateAddress`: the row is updated; when the
   * request asks for the default and the row is not it, the owner's other
   * defaults are cleared and the row becomes the default. A default is
   * never cleared on this row.
   */
  function AfterUpdate(rows: Rows, id: int, req: AddressRequest): (r: Rows)
    requires id in rows
    ensures r.Keys == rows.Keys
    ensures r[id] == UpdatedRow(rows[id], req).(isDefault := rows[id].isDefault || req.isDefault)
    ensures forall k :: (k in rows && k != id && (rows[k].user != rows[id].user || !req.isDefault || rows[id].isDefault)
                         ==> r[k] == rows[k])
    ensures forall k :: (k in rows && k != id && rows[k].user == rows[id].user && req.isDefault && !rows[id].isDefault
                         ==> r[k] == rows[k].(isDefault := false))
  {
    var updated := UpdatedRow(rows[id], req);
    if req.isDefault && !rows[id].isDefault then
      ClearDefaults(rows[id := updated], updated.user)[id := updated.(isDefault := true)]
    else
      rows[id := updated]
  }

  /** Updating an address keeps exactly one default per user. */
  lemma UpdateKeepsOneDefault(rows: Rows, id: int, req: AddressRequest)
    requires OneDefaultEach(rows) && id in rows
    ensures OneDefaultEach(AfterUpdate(rows, id, req))
  {
    var r := AfterUpdate(rows, id, req);
    var promote := req.isDefault && !rows[id].isDefault;
    assert forall k :: k in r ==> r[k].user == rows[k].user;
    assert forall k :: k in r && !(promote && rows[k].user == rows[id].user) ==> r[k].isDefault == rows[k].isDefault;
    forall v | HasAddresses(r, v)
      ensures HasDefault(r, v)
    {
      if promote && rows[id].user == Some(v) {
        assert OwnedBy(r, id, v) && r[id].isDefault;
      } else {
        var k :| k in r && OwnedBy(r, k, v);
        assert OwnedBy(rows, k, v);
        assert HasAddresses(rows, v) && HasDefault(rows, v);
        var j :| j in rows && OwnedBy(rows, j, v) && rows[j].isDefault;
        assert OwnedBy(r, j, v) && r[j].isDefault;
      }
    }
    forall i, j | i in r && j in r && r[i].isDefault && r[j].isDefault && r[i].user == r[j].user
      ensures i == j
    {
      if promote && r[i].user == rows[id].user {
        assert i == id && j == id;
      }
    }
  }

  /** The repository after `setDefaultAddress`: the owner's defaults cleared, then this one set. */
  function AfterSetDefault(rows: Rows, id: int, u: int): (r: Rows)
    requires OwnedBy(rows, id, u)
    ensures r.Keys == rows.Keys
    ensures r[id] == rows[id].(isDefault := true)
    ensures forall k :: OwnedBy(rows, k, u) && k != id ==> r[k] == rows[k].(isDefault := false)
    ensures forall k :: k in rows && rows[k].user != Some(u) ==> r[k] == rows[k]
  {
    ClearDefaults(rows, Some(u))[id := rows[id].(isDefault := true)]
  }

  /** Setting a default keeps exactly one default per user, the chosen one for its owner. */
  lemma SetDefaultKeepsOneDefault(rows: Rows, id: int, u: int)
    requires OneDefaultEach(rows) && OwnedBy(rows, id, u)
    ensures OneDefaultEach(AfterSetDefault(rows, id, u))
  {
    SetDefaultRepairs(rows, id, u);
  }

  /**
   * Setting a default repairs its owner: when every other user with
   * addresses has a default and no user has two, afterwards every user
   * has exactly one, even if u had none before.
   */
  lemma SetDefaultRepairs(rows: Rows, id: int, u: int)
    requires AtMostOneDefault(rows) && OwnedBy(rows, id, u)
    requires forall v :: v != u && HasAddresses(rows, v) ==> HasDefault(rows, v)
    ensures OneDefaultEach(AfterSetDefault(rows, id, u))
  {
    var r := AfterSetDefault(rows, id, u);
    forall v | HasAddresses(r, v)
      ensures HasDefault(r, v)
    {
      if v == u {
        assert OwnedBy(r, id, v) && r[id].isDefault;
      } else {
        var k :| k in r && OwnedBy(r, k, v);
        assert r[k] == rows[k] && OwnedBy(rows, k, v);
        assert HasAddresses(rows, v) && HasDefault(rows, v);
        var j :| j in rows && OwnedBy(rows, j, v) && rows[j].isDefault;
        assert r[j] == rows[j];
        assert OwnedBy(r, j, v);
      }
    }
    forall i, j | i in r && j in r && r[i].isDefault && r[j].isDefault && r[i].user == r[j].user
      ensures i == j
    {
      if r[i].user == Some(u) {
        assert i == id && j == id;
      } else {
        assert r[i] == rows[i] && r[j] == rows[j];
      }
    }
  }

  /** The first id of the listing other than `id`: the stream's filter and findFirst. */
  function FirstOther(listing: seq<int>, id: int): (r: Option<int>)
    ensures r.Some? ==> r.value in listing && r.value != id
    ensures r.Some? ==> exists k :: 0 <= k < |listing| && listing[k] == r.value
                                    && forall m :: 0 <= m < k ==> listing[m] == id
    ensures r.None? <==> forall k :: 0 <= k < |listing| ==> listing[k] == id
  {
    if listing == [] then None
    else if listing[0] != id then Some(listing[0])
    else
      var rest := FirstOther(listing[1..], id);
      if rest.Some? then
        assert listing[1..][0..] == listing[1..];
        Some(rest.value)
      else None
  }

  /**
   * The repository after `deleteAddress`: an unknown id changes nothing;
   * deleting the default first makes the first other address of the
   * owner's listing the default; the address is then removed.
   */
  function AfterDelete(rows: Rows, id: int, listing: seq<int>): (r: Rows)
    requires forall k :: k in listing ==> k in rows
    ensures id !in rows ==> r == rows
    ensures id in rows ==> r.Keys == rows.Keys - {id}
    ensures id in rows && rows[id].isDefault && FirstOther(listing, id).Some? ==>
      var k := FirstOther(listing, id).value; r[k] == rows[k].(isDefault := true)
    ensures forall k :: k in r && !(id in rows && rows[id].isDefault && FirstOther(listing, id) == Some(k)) ==> r[k] == rows[k]
  {
    if id !in rows then rows
    else
      var promoted := FirstOther(listing, id);
      var base := if rows[id].isDefault && promoted.Some? then rows[promoted.value := rows[promoted.value].(isDefault := true)]
                  else rows;
      base - {id}
  }

  /** Deleting an address keeps exactly one default per user. */
  lemma DeleteKeepsOneDefault(rows: Rows, id: int, listing: seq<int>)
    requires OneDefaultEach(rows) && id in rows && rows[id].user.Some?
    requires IsListing(rows, rows[id].user.value, listing)
    ensures OneDefaultEach(AfterDelete(rows, id, listing))
  {
    var r := AfterDelete(rows, id, listing);
    var owner := rows[id].user.value;
    var promoted := FirstOther(listing, id);
    var promotes := rows[id].isDefault && promoted.Some?;
    assert forall k :: k in r ==> r[k].user == rows[k].user;
    assert forall k :: k in r && !(promotes && k == promoted.value) ==> r[k].isDefault == rows[k].isDefault;
    forall v | HasAddresses(r, v)
      ensures HasDefault(r, v)
    {
      var k :| k in r && OwnedBy(r, k, v);
      assert OwnedBy(rows, k, v);
      assert HasAddresses(rows, v) && HasDefault(rows, v);
      var j :| j in rows && OwnedBy(rows, j, v) && rows[j].isDefault;
      if j == id {
        assert k in listing && k != id;
        assert promoted.Some?;
        var p := promoted.value;
        assert OwnedBy(rows, p, owner);
        assert OwnedBy(r, p, v) && r[p].isDefault;
      } else {
        assert OwnedBy(r, j, v) && r[j].isDefault;
      }
    }
    forall i, j | i in r && j in r && r[i].isDefault && r[j].isDefault && r[i].user == r[j].user
      ensures i == j
    {
      if promotes && (i == promoted.value || j == promoted.value) {
        assert OwnedBy(rows, promoted.value, owner);
      }
    }
  }

  /**
   * When the default is deleted, the address promoted is the newest of the
   * owner's others: no remaining address of the owner was created later.
   */
  lemma DeletePromotesNewest(rows: Rows, id: int, listing: seq<int>, k: int)
    requires AtMostOneDefault(rows) && id in rows && rows[id].isDefault && rows[id].user.Some?
    requires IsListing(rows, rows[id].user.value, listing) && InListingOrder(rows, listing)
    requires FirstOther(listing, id).Some?
    requires OwnedBy(rows, k, rows[id].user.value) && k != id
    ensures var p := FirstOther(listing, id).value;
      rows[p].createdAt.Some? && rows[k].createdAt.Some? ==> rows[p].createdAt.value >= rows[k].createdAt.value
  {
    var p := FirstOther(listing, id).value;
    if p != k {
      assert k in listing;
      var a :| 0 <= a < |listing| && listing[a] == p && forall m :: 0 <= m < a ==> listing[m] == id;
      var b :| 0 <= b < |listing| && listing[b] == k;
      assert b > a;
      assert ListedBefore(rows[p], rows[k]);
      assert !rows[p].isDefault && !rows[k].isDefault;
    }
  }

  /**
   * The service's state: the saved addresses, the registered user ids and
   * the next id the repository assigns.
   */
  class AddressService {
    var rows: Rows
    var users: set<int>
    var nextId: int

    /**
     * Every row has an owner and an id below the next one. One default per
     * user is not part of it: OrderService saves a user's first address
     * without the flag, and every method here accepts that state.
     */
    ghost predicate Valid()
      reads this
    {
      forall id :: id in rows ==> id < nextId && rows[id].user.Some?
    }

    constructor (users: set<int>)
      ensures Valid() && rows == map[] && this.users == users
    {
      rows := map[];
      this.users := users;
      nextId := 1;
    }

    /** The stream over u's listing that sets each default address to non-default and saves it. */
    method UnsetDefaults(u: int, listing: seq<int>)
      requires IsListing(rows, u, listing)
      modifies this
      ensures rows == ClearDefaults(old(rows), Some(u))
      ensures users == old(users) && nextId == old(nextId)
    {
      var i := 0;
      while i < |listing|
        invariant 0 <= i <= |listing|
        invariant rows.Keys == old(rows).Keys && users == old(users) && nextId == old(nextId)
        invariant forall id :: id in rows ==>
          rows[id] == if id in listing[..i] then old(rows)[id].(isDefault := false) else old(rows)[id]
      {
        var id := listing[i];
        assert id in listing;
        if rows[id].isDefault {
          rows := rows[id := rows[id].(isDefault := false)];
        }
        assert listing[..i + 1] == listing[..i] + [id];
        i := i + 1;
      }
      assert listing[..i] == listing;
      assert forall id :: id in rows ==> (id in listing <==> old(rows)[id].user == Some(u));
      var cleared := ClearDefaults(old(rows), Some(u));
      assert rows.Keys == cleared.Keys;
      assert forall id :: id in rows ==> rows[id] == cleared[id];
    }

    /**
     * `addAddress`: "User not found" for an unknown user; then the
     * geocoder check on the full address; then the new address is saved
     * under the next id, as AfterAdd says.
     */
    method AddAddress(req: AddressRequest, u: int, reply: GeocodeReply, listing: seq<int>, now: int)
      returns (r: Result<AddressFields, ServiceError>)
      requires Valid() && IsListing(rows, u, listing)
      modifies this
      ensures Valid() && users == old(users)
      ensures OneDefaultEach(old(rows)) ==> OneDefaultEach(rows)
      ensures u !in users ==> r == Err(IllegalArgument("User not found")) && rows == old(rows)
      ensures u in users && r.Err? ==>
        rows == old(rows)
        && Some(r.error) == GeocodeCheck(Join(AddressParts(req.address, req.city, req.postalCode), ", "), reply)
      ensures r.Ok? ==>
        u in users
        && GeocodeCheck(Join(AddressParts(req.address, req.city, req.postalCode), ", "), reply).None?
        && rows == AfterAdd(old(rows), u, old(nextId), NewRow(req, u, old(nextId), now), req.isDefault)
        && r.value == rows[old(nextId)]
    {
      if u !in users {
        return Err(IllegalArgument("User not found"));
      }
      var fullAddress := BuildFullAddress(req.address, req.city, req.postalCode);
      var check := GeocodeCheck(fullAddress, reply);
      if check.Some? {
        return Err(check.value);
      }
      r := SaveNewAddress(NewRow(req, u, nextId, now), u, req.isDefault, listing);
    }

    /**
     * The part of `addAddress` after the checks: the row is saved under the
     * next id, as the default when it is the user's first address or the
     * request asks for it, after clearing the user's defaults in that case.
     */
    method SaveNewAddress(row: AddressFields, u: int, makeDefault: bool, listing: seq<int>)
      returns (r: Result<AddressFields, ServiceError>)
      requires Valid() && IsListing(rows, u, listing) && row.user == Some(u) && !row.isDefault
      modifies this
      ensures Valid() && users == old(users) && nextId == old(nextId) + 1
      ensures OneDefaultEach(old(rows)) ==> OneDefaultEach(rows)
      ensures rows == AfterAdd(old(rows), u, old(nextId), row, makeDefault) && r == Ok(rows[old(nextId)])
    {
      var first := listing == [];
      assert first <==> !HasAddresses(rows, u) by {
        if !first {
          assert OwnedBy(rows, listing[0], u);
        }
      }
      ghost var before := rows;
      var saved := row;
      assert row == row.(isDefault := false);
      if first || makeDefault {
        if makeDefault {
          UnsetDefaults(u, listing);
        }
        saved := saved.(isDefault := first || makeDefault);
      }
      rows := rows[nextId := saved];
      assert rows == AfterAdd(before, u, nextId, row, makeDefault);
      if OneDefaultEach(before) {
        AddKeepsOneDefault(before, u, nextId, row, makeDefault);
      }
      r := Ok(rows[nextId]);
      nextId := nextId + 1;
    }

    /**
     * `updateAddress`: "Address not found" for an unknown id; then the
     * geocoder check; then the update AfterUpdate describes.
     */
    method UpdateAddress(id: int, req: AddressRequest, reply: GeocodeReply, listing: seq<int>)
      returns (r: Result<AddressFields, ServiceError>)
      requires Valid()
      requires id in rows && rows[id].user.Some? ==> IsListing(rows, rows[id].user.value, listing)
      modifies this
      ensures Valid() && users == old(users) && nextId == old(nextId)
      ensures OneDefaultEach(old(rows)) ==> OneDefaultEach(rows)
      ensures id !in old(rows) ==> r == Err(IllegalArgument("Address not found")) && rows == old(rows)
      ensures id in old(rows) && r.Err? ==>
        rows == old(rows)
        && Some(r.error) == GeocodeCheck(Join(AddressParts(req.address, req.city, req.postalCode), ", "), reply)
      ensures r.Ok? ==>
        id in old(rows)
        && GeocodeCheck(Join(AddressParts(req.address, req.city, req.postalCode), ", "), reply).None?
        && rows == AfterUpdate(old(rows), id, req) && r.value == rows[id]
    {
      if id !in rows {
        return Err(IllegalArgument("Address not found"));
      }
      var fullAddress := BuildFullAddress(req.address, req.city, req.postalCode);
      var check := GeocodeCheck(fullAddress, reply);
      if check.Some? {
        return Err(check.value);
      }
      r := ApplyUpdate(id, req, listing);
    }

    /**
     * The part of `updateAddress` after the checks: the request's fields
     * are written; a requested default clears the owner's defaults and
     * then marks this address.
     */
    method ApplyUpdate(id: int, req: AddressRequest, listing: seq<int>) returns (r: Result<AddressFields, ServiceError>)
      requires Valid() && id in rows && IsListing(rows, rows[id].user.value, listing)
      modifies this
      ensures Valid() && users == old(users) && nextId == old(nextId)
      ensures OneDefaultEach(old(rows)) ==> OneDefaultEach(rows)
      ensures rows == AfterUpdate(old(rows), id, req) && r == Ok(rows[id])
    {
      ghost var before := rows;
      var updated := UpdatedRow(rows[id], req);
      rows := rows[id := updated];
      if req.isDefault && !updated.isDefault {
        assert IsListing(rows, updated.user.value, listing) by {
          forall k ensures k in listing <==> OwnedBy(rows, k, updated.user.value) {
            assert OwnedBy(rows, k, updated.user.value) <==> OwnedBy(before, k, updated.user.value);
          }
        }
        UnsetDefaults(updated.user.value, listing);
        rows := rows[id := updated.(isDefault := true)];
      }
      assert rows == AfterUpdate(before, id, req);
      if OneDefaultEach(before) {
        UpdateKeepsOneDefault(before, id, req);
      }
      r := Ok(rows[id]);
    }

    /**
     * `deleteAddress`: false for an unknown id; otherwise the change
     * AfterDelete describes, and true.
     */
    method DeleteAddress(id: int, listing: seq<int>) returns (deleted: bool)
      requires Valid()
      requires id in rows && rows[id].user.Some? ==> IsListing(rows, rows[id].user.value, listing)
      modifies this
      ensures Valid() && users == old(users) && nextId == old(nextId)
      ensures OneDefaultEach(old(rows)) ==> OneDefaultEach(rows)
      ensures deleted <==> id in old(rows)
      ensures deleted ==> rows == AfterDelete(old(rows), id, listing)
      ensures !deleted ==> rows == old(rows)
    {
      if id !in rows {
        return false;
      }
      ghost var before := rows;
      if rows[id].isDefault {
        var promoted := FirstOther(listing, id);
        if promoted.Some? {
          rows := rows[promoted.value := rows[promoted.value].(isDefault := true)];
        }
      }
      rows := rows - {id};
      assert rows == AfterDelete(before, id, listing);
      if OneDefaultEach(before) {
        DeleteKeepsOneDefault(before, id, listing);
      }
      deleted := true;
    }

    /**
     * `setDefaultAddress`: "Address not found" unless the id is one of the
     * user's addresses; otherwise that address becomes the user's only
     * default, which also repairs a user left without one.
     */
    method SetDefaultAddress(id: int, u: int, listing: seq<int>) returns (r: Result<AddressFields, ServiceError>)
      requires Valid() && IsListing(rows, u, listing)
      modifies this
      ensures Valid() && users == old(users) && nextId == old(nextId)
      ensures OneDefaultEach(old(rows)) ==> OneDefaultEach(rows)
      ensures !OwnedBy(old(rows), id, u) ==> r == Err(IllegalArgument("Address not found")) && rows == old(rows)
      ensures OwnedBy(old(rows), id, u) ==> rows == AfterSetDefault(old(rows), id, u) && r == Ok(rows[id])
      ensures OwnedBy(old(rows), id, u) ==> HasDefault(rows, u)
    {
      if !OwnedBy(rows, id, u) {
        return Err(IllegalArgument("Address not found"));
      }
      ghost var before := rows;
      UnsetDefaults(u, listing);
      rows := rows[id := rows[id].(isDefault := true)];
      if OneDefaultEach(before) {
        SetDefaultKeepsOneDefault(before, id, u);
      }
      assert OwnedBy(rows, id, u);
      r := Ok(rows[id]);
    }
  }

  // ------------------------------------------------------------ suggestions

  /** One suggestion: the address text and the confidence it is given. */
  datatype Suggestion = Suggestion(address: string, confidence: real)

  const RemoteConfidence: real := 0.95
  const LocalConfidence: real := 0.85
  const MaxSuggestions: nat := 5

  const LocalAddresses: seq<string> := [
    "1 Market Street, San Francisco, CA 94105",
    "100 Market Street, San Francisco, CA 94105",
    "88 Hillside Boulevard, Daly City, CA 94014",
    "123 Mission Street, San Francisco, CA 94103",
    "456 Valencia Street, San Francisco, CA 94110",
    "600 El Camino Real, San Bruno, CA 94066",
    "777 Geary Street, San Francisco, CA 94109",
    "888 Post Street, San Francisco, CA 94109"
  ]

  /** The two filters: a Places description in the service area, or a local address containing the query. */
  datatype Filter = InArea | HasQuery(query: string)

  predicate Keeps(f: Filter, s: string)
  {
    var lower := ToLower(s);
    match f
    case InArea =>
      Contains(lower, "ca")
      && (Contains(lower, "san francisco") || Contains(lower, "daly city") || Contains(lower, "san bruno"))
    case HasQuery(q) => Contains(lower, ToLower(q))
  }

  /** The entries of xs the filter keeps, in order. */
  function Matching(xs: seq<string>, f: Filter): (r: seq<string>)
    ensures |r| <= |xs|
    ensures forall k :: 0 <= k < |r| ==> r[k] in xs && Keeps(f, r[k])
  {
    if xs == [] then []
    else
      var init := Matching(xs[..|xs| - 1], f);
      if Keeps(f, xs[|xs| - 1]) then init + [xs[|xs| - 1]] else init
  }

  /** Every kept entry is in the result. */
  lemma {:induction false} MatchingComplete(xs: seq<string>, f: Filter, x: string)
    requires x in xs && Keeps(f, x)
    ensures x in Matching(xs, f)
    decreases |xs|
  {
    if xs[|xs| - 1] != x {
      assert x in xs[..|xs| - 1];
      MatchingComplete(xs[..|xs| - 1], f, x);
    }
  }

  /** Matching a prefix gives a prefix of the matches. */
  lemma {:induction false} MatchingPrefix(xs: seq<string>, f: Filter, k: nat)
    requires k <= |xs|
    ensures |Matching(xs[..k], f)| <= |Matching(xs, f)|
    ensures Matching(xs[..k], f) == Matching(xs, f)[..|Matching(xs[..k], f)|]
    decreases |xs|
  {
    if k < |xs| {
      assert xs[..|xs| - 1][..k] == xs[..k];
      MatchingPrefix(xs[..|xs| - 1], f, k);
    } else {
      assert xs[..k] == xs;
    }
  }

  function FirstFive(xs: seq<string>): (r: seq<string>)
    ensures |r| <= MaxSuggestions && |r| <= |xs| && r == xs[..|r|]
    ensures |r| == if |xs| <= MaxSuggestions then |xs| else MaxSuggestions
  {
    if |xs| <= MaxSuggestions then xs else xs[..MaxSuggestions]
  }

  function Tagged(xs: seq<string>, confidence: real): (r: seq<Suggestion>)
    ensures |r| == |xs|
    ensures forall k :: 0 <= k < |r| ==> r[k] == Suggestion(xs[k], confidence)
  {
    seq(|xs|, k requires 0 <= k < |xs| => Suggestion(xs[k], confidence))
  }

  /** Tagging keeps every entry, with the confidence given. */
  lemma TaggedHas(xs: seq<string>, x: string, confidence: real)
    requires x in xs
    ensures Suggestion(x, confidence) in Tagged(xs, confidence)
  {
    var k :| 0 <= k < |xs| && xs[k] == x;
    assert Tagged(xs, confidence)[k] == Suggestion(x, confidence);
  }

  /**
   * The suggestions one loop produces: at most five, each an entry the
   * filter keeps; none exactly when no entry is kept; and every kept entry
   * when there are at most five.
   */
  function Picks(xs: seq<string>, f: Filter, confidence: real): (r: seq<Suggestion>)
    ensures |r| <= MaxSuggestions
    ensures forall k :: 0 <= k < |r| ==> r[k].confidence == confidence && r[k].address in xs && Keeps(f, r[k].address)
    ensures r == [] <==> forall x :: x in xs ==> !Keeps(f, x)
    ensures |Matching(xs, f)| <= MaxSuggestions ==>
      forall x :: x in xs && Keeps(f, x) ==> Suggestion(x, confidence) in r
  {
    var m := Matching(xs, f);
    assert forall x :: x in xs && Keeps(f, x) ==> x in m by {
      forall x | x in xs && Keeps(f, x) {
        MatchingComplete(xs, f, x);
      }
    }
    assert m != [] ==> m[0] in xs && Keeps(f, m[0]);
    assert |m| <= MaxSuggestions ==> forall x :: x in m ==> Suggestion(x, confidence) in Tagged(FirstFive(m), confidence) by {
      if |m| <= MaxSuggestions {
        forall x | x in m {
          TaggedHas(m, x, confidence);
        }
      }
    }
    Tagged(FirstFive(m), confidence)
  }

  /** A query too short or blank to look up. */
  predicate TooShort(query: Option<string>)
  {
    query.None? || JavaBlank(query.value) || |query.value| < 3
  }

  /**
   * What `getAddressSuggestions` returns: nothing for a null, blank or
   * short query; else the first five Places descriptions in the service
   * area (none when the Places call threw); and only when there are none,
   * the first five local addresses containing the query.
   */
  function Suggestions(query: Option<string>, remote: Option<seq<string>>, local: seq<string>): (r: seq<Suggestion>)
    ensures TooShort(query) ==> r == []
    ensures |r| <= MaxSuggestions
    ensures forall k :: 0 <= k < |r| ==>
      (r[k].confidence == RemoteConfidence && remote.Some? && r[k].address in remote.value && Keeps(InArea, r[k].address))
      || (r[k].confidence == LocalConfidence && r[k].address in local && Keeps(HasQuery(query.value), r[k].address))
  {
    if TooShort(query) then []
    else
      var fromRemote := if remote.Some? then Picks(remote.value, InArea, RemoteConfidence) else [];
      if fromRemote != [] then fromRemote
      else Picks(local, HasQuery(query.value), LocalConfidence)
  }

  /**
   * The local list is used only when no Places description qualifies, and
   * then every local match is offered as long as there are at most five.
   */
  lemma SuggestionsFallback(query: Option<string>, remote: Option<seq<string>>, local: seq<string>, a: string)
    requires !TooShort(query)
    ensures (exists k :: 0 <= k < |Suggestions(query, remote, local)|
                         && Suggestions(query, remote, local)[k].confidence == LocalConfidence)
      ==> remote.None? || forall d :: d in remote.value ==> !Keeps(InArea, d)
    ensures (remote.None? || forall d :: d in remote.value ==> !Keeps(InArea, d))
      && |Matching(local, HasQuery(query.value))| <= MaxSuggestions
      && a in local && Keeps(HasQuery(query.value), a)
      ==> Suggestion(a, LocalConfidence) in Suggestions(query, remote, local)
  {
    if remote.Some? && Picks(remote.value, InArea, RemoteConfidence) != [] {
      assert Suggestions(query, remote, local) == Picks(remote.value, InArea, RemoteConfidence);
    }
  }

  /** One more entry extends the matches of a prefix by that entry, when the filter keeps it. */
  lemma MatchingStep(xs: seq<string>, f: Filter, i: nat, keep: bool)
    requires i < |xs| && keep == Keeps(f, xs[i])
    ensures Matching(xs[..i + 1], f) == if keep then Matching(xs[..i], f) + [xs[i]] else Matching(xs[..i], f)
  {
    assert xs[..i + 1][..i] == xs[..i];
  }

  lemma TaggedStep(xs: seq<string>, x: string, confidence: real)
    ensures Tagged(xs + [x], confidence) == Tagged(xs, confidence) + [Suggestion(x, confidence)]
  {
  }

  /** Once a prefix has five matches, they are the first five of the whole. */
  lemma FiveFromPrefix(xs: seq<string>, f: Filter, k: nat)
    requires k <= |xs| && |Matching(xs[..k], f)| == MaxSuggestions
    ensures FirstFive(Matching(xs, f)) == Matching(xs[..k], f)
  {
    MatchingPrefix(xs, f, k);
  }

  /** One filtering loop with a break at five: the first five entries the filter keeps. */
  method CollectFirstFive(xs: seq<string>, f: Filter, confidence: real) returns (found: seq<Suggestion>)
    ensures found == Tagged(FirstFive(Matching(xs, f)), confidence)
  {
    found := [];
    var i := 0;
    while i < |xs|
      invariant 0 <= i <= |xs|
      invariant found == Tagged(Matching(xs[..i], f), confidence) && |found| < MaxSuggestions
    {
      var keep := Keeps(f, xs[i]);
      MatchingStep(xs, f, i, keep);
      if keep {
        TaggedStep(Matching(xs[..i], f), xs[i], confidence);
        found := found + [Suggestion(xs[i], confidence)];
        if |found| >= MaxSuggestions {
          FiveFromPrefix(xs, f, i + 1);
          return;
        }
      }
      i := i + 1;
    }
    assert xs[..i] == xs;
  }

  /** `getAddressSuggestions`, the Places reply given as its list of descriptions or None when the call threw. */
  method GetAddressSuggestions(query: Option<string>, remote: Option<seq<string>>) returns (suggestions: seq<Suggestion>)
    ensures suggestions == Suggestions(query, remote, LocalAddresses)
  {
    if query.None? || JavaBlank(query.value) || |query.value| < 3 {
      return [];
    }
    suggestions := [];
    if remote.Some? {
      suggestions := CollectFirstFive(remote.value, InArea, RemoteConfidence);
    }
    if suggestions == [] {
      suggestions := CollectFirstFive(LocalAddresses, HasQuery(query.value), LocalConfidence);
    }
  }
}
