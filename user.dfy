// UserService: registration (with its optional "Home" address), login,
// the settings and profile updates, and the address entries of the
// settings page.
module Users {
  import opened Wrappers
  import opened Strings
  import opened AddressEntity
  import AddressServices

  /** The parts of a User the service reads and writes; the password is held encoded. */
  datatype User = User(
    email: string, password: string, firstName: Option<string>, lastName: Option<string>, phone: Option<string>,
    enabled: bool)

  /** The fields of a RegisterRequest; the address is optional. */
  datatype RegisterRequest = RegisterRequest(
    email: string, password: string, firstName: Option<string>, lastName: Option<string>, phone: Option<string>,
    address: Option<string>)

  /** An AuthResponse: the user id as text, the email, the names and the token. */
  datatype AuthResponse = AuthResponse(
    userId: string, email: string, firstName: Option<string>, lastName: Option<string>, token: string)

  /** The exceptions the service throws. */
  datatype UserError = IllegalArgument(message: string) | NullPointer | ClassCast

  const InvalidCredentials: string := "Invalid credentials"

  /** A PasswordEncoder: `matches` accepts every password against its own encoding. */
  ghost predicate EncoderAgrees(encode: string -> string, matches: (string, string) -> bool)
  {
    forall p :: matches(p, encode(p))
  }

  /** `existsByEmail`. */
  predicate EmailTaken(users: map<int, User>, email: string)
  {
    exists id :: id in users && users[id].email == email
  }

  /** No two users share an email. */
  ghost predicate UniqueEmails(users: map<int, User>)
  {
    forall i, j :: i in users && j in users && users[i].email == users[j].email ==> i == j
  }

  function ResponseFor(id: int, user: User, token: string): (a: AuthResponse)
    ensures a.userId == IntToString(id) && a.email == user.email && a.token == token
    ensures a.firstName == user.firstName && a.lastName == user.lastName
  {
    AuthResponse(IntToString(id), user.email, user.firstName, user.lastName, token)
  }

  /** The address register saves when the request has a non-blank address: the user's default "Home" address. */
  function HomeAddress(req: RegisterRequest, userId: int, id: int, now: int): (row: AddressFields)
    requires req.address.Some?
    ensures row.labelText == Some("Home") && row.address == req.address && row.city == Some("Default City")
    ensures row.phone == req.phone && row.isDefault && row.user == Some(userId)
    ensures row.country == Some(DefaultCountry) && row.postalCode.None?
  {
    BlankFields().(labelText := Some("Home"), address := req.address, city := Some("Default City"),
                   phone := req.phone, isDefault := true, user := Some(userId), id := Some(id),
                   createdAt := Some(now))
  }

  /** Whether register saves the address: it is non-null and not blank. */
  predicate WantsHome(req: RegisterRequest)
  {
    req.address.Some? && !JavaBlank(req.address.value)
  }

  /**
   * A new user's "Home" address keeps the address repository's rule:
   * a user without addresses gets exactly one default.
   */
  lemma HomeKeepsOneDefault(rows: AddressServices.Rows, req: RegisterRequest, userId: int, id: int, now: int)
    requires AddressServices.OneDefaultEach(rows) && !AddressServices.HasAddresses(rows, userId) && id !in rows
    requires req.address.Some?
    ensures AddressServices.OneDefaultEach(rows[id := HomeAddress(req, userId, id, now)])
  {
    var row := HomeAddress(req, userId, id, now);
    var after := rows[id := row];
    forall k | k in rows ensures rows[k].user != Some(userId) {
      assert !AddressServices.OwnedBy(rows, k, userId);
    }
    forall v | AddressServices.HasAddresses(after, v) ensures AddressServices.HasDefault(after, v) {
      if v == userId {
        assert AddressServices.OwnedBy(after, id, v);
      } else {
        var k :| k in after && AddressServices.OwnedBy(after, k, v);
        assert k != id && AddressServices.OwnedBy(rows, k, v);
        assert AddressServices.HasAddresses(rows, v);
        var d :| d in rows && AddressServices.OwnedBy(rows, d, v) && rows[d].isDefault;
        assert d != id && AddressServices.OwnedBy(after, d, v);
      }
    }
  }

  /** Every address with an owner belongs to one of the users. */
  ghost predicate OwnersAreUsers(rows: AddressServices.Rows, users: map<int, User>)
  {
    forall id :: id in rows && rows[id].user.Some? ==> rows[id].user.value in users
  }

  /** Saving a user under a new id with an email nobody has keeps emails unique. */
  lemma NewEmailKeepsUnique(users: map<int, User>, id: int, user: User)
    requires UniqueEmails(users) && id !in users && !EmailTaken(users, user.email)
    ensures UniqueEmails(users[id := user])
  {
    var after := users[id := user];
    forall k | k in users ensures users[k].email != user.email {
    }
    forall i, j | i in after && j in after && after[i].email == after[j].email ensures i == j {
      if i != id && j != id {
        assert users[i].email == users[j].email;
      }
    }
  }

  /** Adding a user keeps every address owner a user. */
  lemma OwnersStayUsers(rows: AddressServices.Rows, users: map<int, User>, id: int, user: User)
    requires OwnersAreUsers(rows, users)
    ensures OwnersAreUsers(rows, users[id := user])
  {
  }

  /**
   * `findByEmail`'s reply for an email: the id of the user holding it, or
   * None when nobody does.
   */
  predicate FoundByEmail(users: map<int, User>, email: string, found: Option<int>)
  {
    match found
    case None => !EmailTaken(users, email)
    case Some(k) => k in users && users[k].email == email
  }

  /**
   * `login`: the same "Invalid credentials" for an unknown email and for a
   * wrong password; the disabled-account check comes only after the
   * password matched. `found` is `findByEmail`'s reply for the email.
   */
  function Login(users: map<int, User>, email: string, found: Option<int>, password: string,
                 matches: (string, string) -> bool, token: string): (r: Result<AuthResponse, UserError>)
    requires UniqueEmails(users) && FoundByEmail(users, email, found)
    ensures !EmailTaken(users, email) ==> r == Err(IllegalArgument(InvalidCredentials))
    ensures found.Some? && !matches(password, users[found.value].password) ==> r == Err(IllegalArgument(InvalidCredentials))
    ensures r == Err(IllegalArgument("Account is disabled")) <==>
      exists k :: k in users && users[k].email == email && matches(password, users[k].password) && !users[k].enabled
    ensures r.Ok? <==>
      exists k :: k in users && users[k].email == email && matches(password, users[k].password) && users[k].enabled
    ensures r.Ok? ==> found.Some? && r.value == ResponseFor(found.value, users[found.value], token) && r.value.email == email
  {
    if found.None? then Err(IllegalArgument(InvalidCredentials))
    else
      var user := users[found.value];
      if !matches(password, user.password) then Err(IllegalArgument(InvalidCredentials))
      else if !user.enabled then Err(IllegalArgument("Account is disabled"))
      else Ok(ResponseFor(found.value, user, token))
  }

  /** The keys of a profile update, in the order the fields are applied. */
  const ProfileKeys: seq<string> := ["firstName", "lastName", "phone"]

  /**
   * The user after a profile update: each of firstName, lastName, phone
   * whose key is present takes the given value (null included); the rest
   * stay as they were.
   */
  function ApplyProfile(user: User, data: map<string, Option<string>>): (u: User)
    ensures u.firstName == if "firstName" in data then data["firstName"] else user.firstName
    ensures u.lastName == if "lastName" in data then data["lastName"] else user.lastName
    ensures u.phone == if "phone" in data then data["phone"] else user.phone
    ensures u.email == user.email && u.password == user.password && u.enabled == user.enabled
  {
    var a := if "firstName" in data then user.(firstName := data["firstName"]) else user;
    var b := if "lastName" in data then a.(lastName := data["lastName"]) else a;
    if "phone" in data then b.(phone := data["phone"]) else b
  }

  /** A profile update that names no field changes nothing. */
  lemma ApplyNothing(user: User, data: map<string, Option<string>>)
    requires forall k :: k in ProfileKeys ==> k !in data
    ensures ApplyProfile(user, data) == user
  {
    assert "firstName" in ProfileKeys && "lastName" in ProfileKeys && "phone" in ProfileKeys;
  }

  /** Applying the same profile update twice is applying it once. */
  lemma ApplyIdempotent(user: User, data: map<string, Option<string>>)
    ensures ApplyProfile(ApplyProfile(user, data), data) == ApplyProfile(user, data)
  {
  }

  /** A value inside the "profile" map as the JSON body gives it: null, a text, or any other value. */
  datatype ProfileValue = NullValue | TextValue(text: string) | OtherValue

  /** The "profile" entry of the settings data: null, a value that is not a map, or a map. */
  datatype ProfileData = NullProfile | NotAMap | ProfileMap(values: map<string, ProfileValue>)

  /** A profile key that is present and holds a value the `(String)` cast rejects. */
  predicate Mistyped(values: map<string, ProfileValue>, key: string)
  {
    key in values && values[key].OtherValue?
  }

  /**
   * The `(String)` casts of the profile fields: None (a ClassCastException)
   * when firstName, lastName or phone holds a value that is neither null
   * nor a text; otherwise every key keeps its entry, a text as itself and
   * null as None.
   */
  function CastProfile(values: map<string, ProfileValue>): (r: Option<map<string, Option<string>>>)
    ensures r.None? <==> Mistyped(values, "firstName") || Mistyped(values, "lastName") || Mistyped(values, "phone")
    ensures r.Some? ==> r.value.Keys == values.Keys
    ensures r.Some? ==> forall k :: k in values && values[k].TextValue? ==> r.value[k] == Some(values[k].text)
    ensures r.Some? ==> forall k :: k in values && values[k].NullValue? ==> r.value[k] == None
  {
    if Mistyped(values, "firstName") || Mistyped(values, "lastName") || Mistyped(values, "phone") then None
    else Some(map k | k in values :: if values[k].TextValue? then Some(values[k].text) else None)
  }

  /** The settings data: whether it has a "profile" key (and its value) and a "preferences" key. */
  datatype SettingsData = SettingsData(profile: Option<ProfileData>, hasPreferences: bool)

  /**
   * The "updatedFields" list: profile.firstName, profile.lastName,
   * profile.phone for the keys present, in that order, then "preferences".
   */
  function UpdatedFields(profile: Option<map<string, Option<string>>>, hasPreferences: bool): (r: seq<string>)
    ensures "profile.firstName" in r <==> profile.Some? && "firstName" in profile.value
    ensures "profile.lastName" in r <==> profile.Some? && "lastName" in profile.value
    ensures "profile.phone" in r <==> profile.Some? && "phone" in profile.value
    ensures "preferences" in r <==> hasPreferences
    ensures hasPreferences ==> r[|r| - 1] == "preferences"
    ensures |r| <= 4
  {
    var p := profile.Some?;
    (if p && "firstName" in profile.value then ["profile.firstName"] else [])
    + (if p && "lastName" in profile.value then ["profile.lastName"] else [])
    + (if p && "phone" in profile.value then ["profile.phone"] else [])
    + (if hasPreferences then ["preferences"] else [])
  }

  /** The text of an entry's address id: "addr_" + id. */
  function AddressIdText(id: int): (t: string)
    ensures IsPrefix("addr_", t) && t[5..] == IntToString(id)
  {
    "addr_" + IntToString(id)
  }

  /** Distinct saved addresses get distinct entry ids. */
  lemma AddressIdsDistinct(a: int, b: int)
    requires LongMin <= a <= LongMax && LongMin <= b <= LongMax && a != b
    ensures AddressIdText(a) != AddressIdText(b)
  {
    ParseLongOfInt(a);
    ParseLongOfInt(b);
    assert IntToString(a) != IntToString(b);
  }

  /** One entry of the settings page's address list. */
  datatype AddressEntry = AddressEntry(addressId: string, labelText: Option<string>, address: string, isDefault: bool)

  /** `getUserSettings`'s address list: one entry per listed address, in the listing's order. */
  function AddressEntries(rows: AddressServices.Rows, listing: seq<int>): (r: seq<AddressEntry>)
    requires forall k :: 0 <= k < |listing| ==> listing[k] in rows
    ensures |r| == |listing|
    ensures forall k :: 0 <= k < |listing| ==>
      r[k].addressId == AddressIdText(listing[k]) && r[k].isDefault == rows[listing[k]].isDefault
      && r[k].address == FullAddressText(rows[listing[k]].address, rows[listing[k]].city, rows[listing[k]].postalCode)
  {
    seq(|listing|, k requires 0 <= k < |listing| =>
      var row := rows[listing[k]];
      AddressEntry(AddressIdText(listing[k]), row.labelText, FullAddressText(row.address, row.city, row.postalCode),
                   row.isDefault))
  }

  /**
   * The service's state: users and saved addresses by id, the next ids the
   * repositories assign, and whether a new User starts enabled.
   */
  class UserService {
    var users: map<int, User>
    var addresses: AddressServices.Rows
    var nextUserId: int
    var nextAddressId: int
    const newUsersEnabled: bool

    /** Ids are below the next ones, emails are unique, and every address's owner is a user. */
    ghost predicate Valid()
      reads this
    {
      && (forall id :: id in users ==> id < nextUserId)
      && (forall id :: id in addresses ==> id < nextAddressId)
      && UniqueEmails(users)
      && OwnersAreUsers(addresses, users)
    }

    constructor (newUsersEnabled: bool)
      ensures Valid() && users == map[] && addresses == map[] && this.newUsersEnabled == newUsersEnabled
    {
      users := map[];
      addresses := map[];
      nextUserId := 1;
      nextAddressId := 1;
      this.newUsersEnabled := newUsersEnabled;
    }

    /**
     * `register`: "Email already exists" before anything is saved;
     * otherwise the user is saved under the next id with the encoded
     * password, and a default "Home" address exactly when the request's
     * address is non-null and not blank.
     */
    method Register(req: RegisterRequest, encode: string -> string, token: string, now: int)
      returns (r: Result<AuthResponse, UserError>)
      requires Valid()
      modifies this
      ensures Valid()
      ensures EmailTaken(old(users), req.email) ==>
        r == Err(IllegalArgument("Email already exists")) && users == old(users) && addresses == old(addresses)
      ensures !EmailTaken(old(users), req.email) ==>
        var user := User(req.email, encode(req.password), req.firstName, req.lastName, req.phone, newUsersEnabled);
        && users == old(users)[old(nextUserId) := user]
        && r == Ok(ResponseFor(old(nextUserId), user, token))
        && (WantsHome(req) ==> addresses == old(addresses)[old(nextAddressId) :=
                                 HomeAddress(req, old(nextUserId), old(nextAddressId), now)])
        && (!WantsHome(req) ==> addresses == old(addresses))
    {
      if EmailTaken(users, req.email) {
        return Err(IllegalArgument("Email already exists"));
      }
      var id := nextUserId;
      var user := User(req.email, encode(req.password), req.firstName, req.lastName, req.phone, newUsersEnabled);
      NewEmailKeepsUnique(users, id, user);
      OwnersStayUsers(addresses, users, id, user);
      users := users[id := user];
      nextUserId := nextUserId + 1;
      if WantsHome(req) {
        var aid := nextAddressId;
        var home := HomeAddress(req, id, aid, now);
        addresses := addresses[aid := home];
        nextAddressId := nextAddressId + 1;
      }
      return Ok(ResponseFor(id, user, token));
    }

    /** `updateProfile`: "User not found", or the user with the present fields changed. */
    method UpdateProfile(userId: int, data: map<string, Option<string>>) returns (r: Result<User, UserError>)
      requires Valid()
      modifies this
      ensures Valid() && addresses == old(addresses) && nextUserId == old(nextUserId)
      ensures nextAddressId == old(nextAddressId)
      ensures userId !in old(users) ==> r == Err(IllegalArgument("User not found")) && users == old(users)
      ensures userId in old(users) ==>
        r == Ok(ApplyProfile(old(users)[userId], data)) && users == old(users)[userId := r.value]
    {
      if userId !in users {
        return Err(IllegalArgument("User not found"));
      }
      var updated := ApplyProfile(users[userId], data);
      users := users[userId := updated];
      return Ok(updated);
    }

    /**
     * `updateUserSettings`: "User not found"; a null profile fails on its
     * first lookup; a profile that is not a map, or whose firstName,
     * lastName or phone is not a text or null, fails its cast; otherwise
     * the user is saved with the profile's fields when a profile is given,
     * and the updated fields are listed. A failure changes nothing (the
     * service is transactional).
     */
    method UpdateUserSettings(userId: int, settings: SettingsData) returns (r: Result<seq<string>, UserError>)
      requires Valid()
      modifies this
      ensures Valid() && addresses == old(addresses) && nextUserId == old(nextUserId)
      ensures nextAddressId == old(nextAddressId)
      ensures userId !in old(users) ==> r == Err(IllegalArgument("User not found")) && users == old(users)
      ensures userId in old(users) && settings.profile == Some(NullProfile) ==> r == Err(NullPointer) && users == old(users)
      ensures userId in old(users) && settings.profile.None? ==>
        r == Ok(UpdatedFields(None, settings.hasPreferences)) && users == old(users)
      ensures userId in old(users) && settings.profile == Some(NotAMap) ==> r == Err(ClassCast) && users == old(users)
      ensures userId in old(users) && settings.profile.Some? && settings.profile.value.ProfileMap? ==>
        var cast := CastProfile(settings.profile.value.values);
        (cast.None? ==> r == Err(ClassCast) && users == old(users))
        && (cast.Some? ==>
              r == Ok(UpdatedFields(Some(cast.value), settings.hasPreferences))
              && users == old(users)[userId := ApplyProfile(old(users)[userId], cast.value)])
    {
      if userId !in users {
        return Err(IllegalArgument("User not found"));
      }
      if settings.profile == Some(NullProfile) {
        return Err(NullPointer);
      }
      if settings.profile == Some(NotAMap) {
        return Err(ClassCast);
      }
      if settings.profile.Some? {
        var cast := CastProfile(settings.profile.value.values);
        if cast.None? {
          return Err(ClassCast);
        }
        var fields := cast.value;
        users := users[userId := ApplyProfile(users[userId], fields)];
        return Ok(UpdatedFields(Some(fields), settings.hasPreferences));
      }
      return Ok(UpdatedFields(None, settings.hasPreferences));
    }
  }

  /**
   * A registered user logs in with the email and password they registered
   * with: once register has saved them under a fresh id with an email
   * nobody had, `findByEmail` can only answer that id, and login succeeds
   * with the answer for that user.
   */
  lemma RegisterThenLogin(users: map<int, User>, id: int, req: RegisterRequest, encode: string -> string,
                          matches: (string, string) -> bool, token: string, found: Option<int>)
    requires EncoderAgrees(encode, matches)
    requires UniqueEmails(users) && id !in users && !EmailTaken(users, req.email)
    ensures var user := User(req.email, encode(req.password), req.firstName, req.lastName, req.phone, true);
      var after := users[id := user];
      UniqueEmails(after)
      && (FoundByEmail(after, req.email, found) <==> found == Some(id))
      && (found == Some(id) ==> Login(after, req.email, found, req.password, matches, token) == Ok(ResponseFor(id, user, token)))
  {
    var user := User(req.email, encode(req.password), req.firstName, req.lastName, req.phone, true);
    var after := users[id := user];
    NewEmailKeepsUnique(users, id, user);
    assert EmailTaken(after, req.email) by { assert after[id].email == req.email; }
    if found.Some? && FoundByEmail(after, req.email, found) {
      assert after[found.value].email == after[id].email;
    }
    assert matches(req.password, encode(req.password));
  }
}
