// The client's form validators: e-mail, phone, required and length
// checks, postal code, and the two form checks built from them.
module Validation {
  import opened Wrappers
  import opened Strings

  // ------------------------------------------------------------ required

  lemma {:induction false} JsTrimLeftEmpty(s: string)
    ensures JsTrimLeft(s) == [] <==> forall i :: 0 <= i < |s| ==> IsJsSpace(s[i])
    decreases |s|
  {
    if s != [] && IsJsSpace(s[0]) {
      JsTrimLeftEmpty(s[1..]);
      assert forall i :: 0 < i < |s| ==> s[i] == s[1..][i - 1];
    }
  }

  lemma {:induction false} JsTrimRightEmpty(s: string)
    ensures JsTrimRight(s) == [] <==> forall i :: 0 <= i < |s| ==> IsJsSpace(s[i])
    decreases |s|
  {
    if s != [] && IsJsSpace(s[|s| - 1]) {
      JsTrimRightEmpty(s[..|s| - 1]);
    }
  }

  /** `validateRequired`: some character of the value is not white space. */
  predicate Required(value: string)
  {
    exists i :: 0 <= i < |value| && !IsJsSpace(value[i])
  }

  /** Required is the source's test: the trimmed value is not empty. */
  lemma RequiredIsTrim(value: string)
    ensures Required(value) <==> |JsTrim(value)| > 0
  {
    JsTrimLeftEmpty(value);
    var t := JsTrimLeft(value);
    JsTrimRightEmpty(t);
    if t != [] {
      assert !IsJsSpace(t[0]) && t[0] == value[|value| - |t|];
    }
  }

  /** `validateMinLength` and `validateMaxLength`. */
  predicate MinLength(value: string, minLength: int) { |value| >= minLength }

  predicate MaxLength(value: string, maxLength: int) { |value| <= maxLength }

  // ------------------------------------------------------------ e-mail

  /** A character `[^\s@]` accepts. */
  predicate EmailChar(c: char) { !IsJsSpace(c) && c != '@' }

  predicate EmailChars(s: string) { forall i :: 0 <= i < |s| ==> EmailChar(s[i]) }

  /** `[^\s@]+\.[^\s@]+`: e-mail characters with a dot that is neither first nor last. */
  predicate DomainPart(d: string)
  {
    EmailChars(d) && exists k :: 0 < k < |d| - 1 && d[k] == '.'
  }

  /**
   * `validateEmail`, the pattern `^[^\s@]+@[^\s@]+\.[^\s@]+$`: a non-empty
   * local part, an '@', and a domain part, none holding white space or
   * another '@'.
   */
  predicate ValidEmail(email: string)
  {
    exists i :: 0 < i < |email| && email[i] == '@' && EmailChars(email[..i]) && DomainPart(email[i + 1..])
  }

  /** A valid address holds exactly one '@' and no white space. */
  lemma ValidEmailShape(email: string)
    requires ValidEmail(email)
    ensures forall j :: 0 <= j < |email| ==> !IsJsSpace(email[j])
    ensures exists i :: 0 < i < |email| && email[i] == '@' && forall j :: 0 <= j < |email| && email[j] == '@' ==> j == i
  {
    var i :| 0 < i < |email| && email[i] == '@' && EmailChars(email[..i]) && DomainPart(email[i + 1..]);
    forall j | 0 <= j < |email| ensures !IsJsSpace(email[j]) && (email[j] == '@' ==> j == i) {
      if j < i {
        assert email[j] == email[..i][j];
      } else if j > i {
        assert email[j] == email[i + 1..][j - i - 1];
      }
    }
  }

  lemma ValidEmailExample()
    ensures ValidEmail("ann@mail.com")
    ensures !ValidEmail("ann@mail")
  {
    var e := "ann@mail.com";
    assert e[..3] == "ann" && e[4..] == "mail.com" && e[4..][4] == '.';
    var f := "ann@mail";
    forall i | 0 < i < |f| && f[i] == '@' ensures !DomainPart(f[i + 1..]) {
      assert i == 3 && f[4..] == "mail";
    }
  }

  // ------------------------------------------------------------ phone

  /**
   * `^[\+]?[1-9][\d]{0,15}$` on the text without white space: an optional
   * '+', then one to sixteen digits, the first not 0.
   */
  predicate PhonePattern(t: string)
  {
    var body := if |t| > 0 && t[0] == '+' then t[1..] else t;
    1 <= |body| <= 16 && body[0] != '0' && AllDigits(body)
  }

  /** `validatePhone`: white space is removed before the pattern is applied. */
  predicate ValidPhone(phone: string)
  {
    PhonePattern(RemoveJsSpaces(phone))
  }

  /** RemoveJsSpaces keeps the text's other characters in order. */
  lemma {:induction false} RemoveSpacesKeeps(s: string)
    requires forall i :: 0 <= i < |s| ==> !IsJsSpace(s[i])
    ensures RemoveJsSpaces(s) == s
    decreases |s|
  {
    if s != [] {
      RemoveSpacesKeeps(s[1..]);
      assert [s[0]] + s[1..] == s;
    }
  }

  /** White space around and between the digits does not matter. */
  lemma {:induction false} RemoveSpacesAppend(a: string, b: string)
    ensures RemoveJsSpaces(a + b) == RemoveJsSpaces(a) + RemoveJsSpaces(b)
    decreases |a|
  {
    if a == [] {
      assert a + b == b;
    } else {
      assert (a + b)[0] == a[0] && (a + b)[1..] == a[1..] + b;
      RemoveSpacesAppend(a[1..], b);
    }
  }

  /** A phone number with a space in it is as valid as without. */
  lemma PhoneIgnoresSpace(a: string, b: string)
    ensures ValidPhone(a + " " + b) <==> ValidPhone(a + b)
  {
    RemoveSpacesAppend(a + " ", b);
    RemoveSpacesAppend(a, " ");
    RemoveSpacesAppend(a, b);
    assert RemoveJsSpaces(" ") == [];
    assert RemoveJsSpaces(a + " " + b) == RemoveJsSpaces(a + b);
  }

  // ------------------------------------------------------------ postal code

  predicate PostalChar(c: char)
  {
    ('A' <= c <= 'Z') || ('a' <= c <= 'z') || ('0' <= c <= '9') || IsJsSpace(c) || c == '-'
  }

  /** `validatePostalCode`, `^[A-Za-z0-9\s\-]{3,10}$`: three to ten letters, digits, spaces or hyphens. */
  predicate ValidPostalCode(postalCode: string)
  {
    3 <= |postalCode| <= 10 && forall i :: 0 <= i < |postalCode| ==> PostalChar(postalCode[i])
  }

  /** The placeholder postal code and a ZIP+4 code are accepted; a two-character code is not. */
  lemma PostalCodeExamples()
    ensures ValidPostalCode("00000") && ValidPostalCode("94103-1234") && !ValidPostalCode("94")
  {
  }

  // ------------------------------------------------------------ forms

  /** The form fields an error can name. */
  datatype FormField =
    | SenderName | SenderAddress | SenderCity | SenderPhone
    | RecipientName | RecipientAddress | RecipientCity | RecipientPhone
    | Weight | Value | Description
    | Name | Email | Password | ConfirmPassword

  /** The `field` text the client shows for each form field. */
  function FieldKey(f: FormField): string
  {
    match f
    case SenderName => "senderName"
    case SenderAddress => "senderAddress"
    case SenderCity => "senderCity"
    case SenderPhone => "senderPhone"
    case RecipientName => "recipientName"
    case RecipientAddress => "recipientAddress"
    case RecipientCity => "recipientCity"
    case RecipientPhone => "recipientPhone"
    case Weight => "weight"
    case Value => "value"
    case Description => "description"
    case Name => "name"
    case Email => "email"
    case Password => "password"
    case ConfirmPassword => "confirmPassword"
  }

  /** The message the client shows when a field's check fails. */
  function Message(f: FormField): string
  {
    match f
    case SenderName => "Sender name is required"
    case SenderAddress => "Sender address is required"
    case SenderCity => "Sender city is required"
    case SenderPhone => "Valid sender phone is required"
    case RecipientName => "Recipient name is required"
    case RecipientAddress => "Recipient address is required"
    case RecipientCity => "Recipient city is required"
    case RecipientPhone => "Valid recipient phone is required"
    case Weight => "Valid weight is required"
    case Value => "Valid package value is required"
    case Description => "Package description is required"
    case Name => "Name is required"
    case Email => "Valid email is required"
    case Password => "Password must be at least 6 characters"
    case ConfirmPassword => "Passwords do not match"
  }

  /** One entry of a validator's error list; its message is the one its field's check shows. */
  datatype ValidationError = ValidationError(field: FormField)
  {
    function message(): string { Message(field) }
  }

  /** The TypeError a missing field raises when a validator calls a string method on `undefined`. */
  datatype FormFailure = TypeError

  /** The error a failed check of a field pushes. */
  function ErrorFor(f: FormField): (e: ValidationError)
    ensures e.field == f && e.message() == Message(f)
  {
    ValidationError(f)
  }

  /** What a check of a field pushes: its error when it failed, nothing otherwise. */
  function Check(failed: bool, f: FormField): seq<ValidationError>
  {
    if failed then [ErrorFor(f)] else []
  }

  /**
   * The errors a run of checks pushes: the error for `fields[k]` for every
   * failed check `k`, in the order of the checks.
   */
  function Reported(failed: seq<bool>, fields: seq<FormField>): seq<ValidationError>
    requires |failed| <= |fields|
    decreases |failed|
  {
    if failed == [] then []
    else
      var n := |failed| - 1;
      Reported(failed[..n], fields) + Check(failed[n], fields[n])
  }

  /** An error is reported exactly when one of the checks that push it fails. */
  lemma ReportedMember(failed: seq<bool>, fields: seq<FormField>, e: ValidationError)
    requires |failed| <= |fields|
    ensures e in Reported(failed, fields) <==> exists k :: 0 <= k < |failed| && failed[k] && ErrorFor(fields[k]) == e
  {
    if e in Reported(failed, fields) {
      ReportedSound(failed, fields, e);
    }
    if exists k :: 0 <= k < |failed| && failed[k] && ErrorFor(fields[k]) == e {
      var k :| 0 <= k < |failed| && failed[k] && ErrorFor(fields[k]) == e;
      ReportedComplete(failed, fields, k);
    }
  }

  /** Every reported error comes from a failed check. */
  lemma {:induction false} ReportedSound(failed: seq<bool>, fields: seq<FormField>, e: ValidationError)
    requires |failed| <= |fields|
    requires e in Reported(failed, fields)
    ensures exists k :: 0 <= k < |failed| && failed[k] && ErrorFor(fields[k]) == e
    decreases |failed|
  {
    var n := |failed| - 1;
    var pre := Reported(failed[..n], fields);
    assert Reported(failed, fields) == pre + Check(failed[n], fields[n]);
    if e in pre {
      ReportedSound(failed[..n], fields, e);
      var k :| 0 <= k < n && failed[..n][k] && ErrorFor(fields[k]) == e;
      assert failed[k];
    } else {
      assert failed[n] && ErrorFor(fields[n]) == e;
    }
  }

  /** Every failed check's error is reported. */
  lemma {:induction false} ReportedComplete(failed: seq<bool>, fields: seq<FormField>, k: nat)
    requires |failed| <= |fields|
    requires k < |failed| && failed[k]
    ensures ErrorFor(fields[k]) in Reported(failed, fields)
    decreases |failed|
  {
    var n := |failed| - 1;
    var pre := Reported(failed[..n], fields);
    assert Reported(failed, fields) == pre + Check(failed[n], fields[n]);
    if k < n {
      assert failed[..n][k];
      ReportedComplete(failed[..n], fields, k);
    }
  }

  /** Nothing is reported exactly when every check passes. */
  lemma {:induction false} ReportedEmpty(failed: seq<bool>, fields: seq<FormField>)
    requires |failed| <= |fields|
    ensures Reported(failed, fields) == [] <==> forall k :: 0 <= k < |failed| ==> !failed[k]
    decreases |failed|
  {
    if failed != [] {
      var n := |failed| - 1;
      ReportedEmpty(failed[..n], fields);
      assert forall k :: 0 <= k < n ==> failed[..n][k] == failed[k];
    }
  }

  /** When the checks name distinct fields, no field is reported twice. */
  lemma {:induction false} ReportedOnce(failed: seq<bool>, fields: seq<FormField>)
    requires |failed| <= |fields|
    requires forall i, j :: 0 <= i < j < |fields| ==> fields[i] != fields[j]
    ensures var r := Reported(failed, fields); forall i, j :: 0 <= i < j < |r| ==> r[i].field != r[j].field
    decreases |failed|
  {
    if failed != [] {
      var n := |failed| - 1;
      var pre := Reported(failed[..n], fields);
      ReportedOnce(failed[..n], fields);
      forall i | 0 <= i < |pre| ensures pre[i].field != fields[n] {
        ReportedMember(failed[..n], fields, pre[i]);
      }
    }
  }

  /** Pushing one more check's error extends the report by that check. */
  lemma ReportedPush(done: seq<bool>, failed: bool, fields: seq<FormField>)
    requires |done| < |fields|
    ensures Reported(done + [failed], fields) == Reported(done, fields) + Check(failed, fields[|done|])
  {
    assert (done + [failed])[..|done|] == done;
  }

  /** A sender or recipient block; a missing field (or block) is None. */
  datatype Party = Party(name: Option<string>, address: Option<string>, city: Option<string>, phone: Option<string>)

  /**
   * The first step of the order form. The parcel's weight and value are
   * the numbers `Number(x.toString())` gives them, None when undefined or NaN.
   */
  datatype OrderStep1 = OrderStep1(sender: Party, recipient: Party, weight: Option<real>, value: Option<real>,
                                   description: Option<string>)

  predicate Positive(x: Option<real>) { x.Some? && x.value > 0.0 }

  /** Every string field the validators call a method on is present. */
  predicate PartyPresent(p: Party)
  {
    p.name.Some? && p.address.Some? && p.city.Some? && p.phone.Some?
  }

  /** A missing text field makes `validateOrderStep1` throw. */
  predicate Step1Throws(data: OrderStep1)
  {
    !PartyPresent(data.sender) || !PartyPresent(data.recipient) || data.description.None?
  }

  /** The fields the first step checks, in the order of the checks. */
  const Step1Fields: seq<FormField> := [SenderName, SenderAddress, SenderCity, SenderPhone, RecipientName,
    RecipientAddress, RecipientCity, RecipientPhone, Weight, Value, Description]

  /** A present field whose text passes `validateRequired`. */
  predicate Filled(o: Option<string>) { o.Some? && Required(o.value) }

  /** A present field whose text passes `validatePhone`. */
  predicate PhoneGiven(o: Option<string>) { o.Some? && ValidPhone(o.value) }

  /** Which of a party's four checks fail: name, address, city and phone, in that order. */
  function PartyFailures(p: Party): seq<bool>
  {
    [!Filled(p.name), !Filled(p.address), !Filled(p.city), !PhoneGiven(p.phone)]
  }

  /**
   * Which of the first step's checks fail, in the order of the checks (a
   * missing field counts as failed; the validator throws on it first).
   */
  function Step1Failures(data: OrderStep1): (f: seq<bool>)
    ensures |f| == |Step1Fields|
  {
    PartyFailures(data.sender) + PartyFailures(data.recipient) + ParcelFailures(data)
  }

  /** Which of the parcel's checks fail: weight, value and description, in that order. */
  function ParcelFailures(data: OrderStep1): seq<bool>
  {
    [!Positive(data.weight), !Positive(data.value), !Filled(data.description)]
  }

  /** The first step checks each field once. */
  lemma Step1FieldsDistinct()
    ensures forall i, j :: 0 <= i < j < |Step1Fields| ==> Step1Fields[i] != Step1Fields[j]
  {
  }

  /**
   * For any outcome of the eleven checks, the error list names each
   * failing field exactly once and no passing one, and is empty exactly
   * when every check passes.
   */
  lemma Step1ReportMeaning(f: seq<bool>)
    requires |f| == |Step1Fields|
    ensures var r := Reported(f, Step1Fields);
      && (forall k :: 0 <= k < |f| ==> (ErrorFor(Step1Fields[k]) in r <==> f[k]))
      && (forall i, j :: 0 <= i < j < |r| ==> r[i].field != r[j].field)
      && (r == [] <==> forall k :: 0 <= k < |f| ==> !f[k])
  {
    var c := Step1Fields;
    Step1FieldsDistinct();
    forall k | 0 <= k < |c| ensures ErrorFor(c[k]) in Reported(f, c) <==> f[k] {
      ReportedMember(f, c, ErrorFor(c[k]));
    }
    ReportedOnce(f, c);
    ReportedEmpty(f, c);
  }

  /**
   * `validateOrderStep1`: the checks run in turn, each failed one pushing
   * its error; a missing text field throws a TypeError instead.
   */
  method ValidateOrderStep1(data: OrderStep1) returns (r: Result<seq<ValidationError>, FormFailure>)
    ensures r.Err? <==> Step1Throws(data)
    ensures r.Ok? ==> r.value == Reported(Step1Failures(data), Step1Fields)
  {
    ghost var f := Step1Failures(data);
    assert f[..0] == [] && f[0..4] == PartyFailures(data.sender) && f[4..8] == PartyFailures(data.recipient);
    assert f[8..11] == ParcelFailures(data);
    var sender := PartyChecks([], f, 0, data.sender);
    if sender.Err? { return Err(TypeError); }
    var recipient := PartyChecks(sender.value, f, 4, data.recipient);
    if recipient.Err? { return Err(TypeError); }
    r := ParcelChecks(recipient.value, f, data);
  }

  /** The parcel's checks, the last three of the first step: weight, value and description. */
  method ParcelChecks(errors: seq<ValidationError>, ghost f: seq<bool>, data: OrderStep1)
    returns (r: Result<seq<ValidationError>, FormFailure>)
    requires |f| == |Step1Fields| && f[8..11] == ParcelFailures(data)
    requires errors == Reported(f[..8], Step1Fields)
    ensures r.Err? <==> data.description.None?
    ensures r.Ok? ==> r.value == Reported(f, Step1Fields)
  {
    assert f[8] == f[8..11][0] && f[9] == f[8..11][1] && f[10] == f[8..11][2];
    var out := Push(errors, f, 8, !Positive(data.weight));
    out := Push(out, f, 9, !Positive(data.value));
    if data.description.None? { return Err(TypeError); }
    out := Push(out, f, 10, !Required(data.description.value));
    assert f[..11] == f;
    return Ok(out);
  }

  /**
   * The four checks of a sender or recipient, from check `k` on: each
   * failed one pushes its error; a missing field throws a TypeError.
   */
  method PartyChecks(errors: seq<ValidationError>, ghost f: seq<bool>, k: nat, party: Party)
    returns (r: Result<seq<ValidationError>, FormFailure>)
    requires k + 4 <= |f| <= |Step1Fields| && f[k..k + 4] == PartyFailures(party)
    requires errors == Reported(f[..k], Step1Fields)
    ensures r.Err? <==> !PartyPresent(party)
    ensures r.Ok? ==> r.value == Reported(f[..k + 4], Step1Fields)
  {
    assert f[k] == f[k..k + 4][0] && f[k + 1] == f[k..k + 4][1];
    assert f[k + 2] == f[k..k + 4][2] && f[k + 3] == f[k..k + 4][3];
    if party.name.None? { return Err(TypeError); }
    var out := Push(errors, f, k, !Required(party.name.value));
    if party.address.None? { return Err(TypeError); }
    out := Push(out, f, k + 1, !Required(party.address.value));
    if party.city.None? { return Err(TypeError); }
    out := Push(out, f, k + 2, !Required(party.city.value));
    if party.phone.None? { return Err(TypeError); }
    out := Push(out, f, k + 3, !ValidPhone(party.phone.value));
    return Ok(out);
  }

  /**
   * One check of the first order step: its error is pushed when it
   * failed, so the list stays the report of the checks run so far.
   */
  method Push(errors: seq<ValidationError>, ghost f: seq<bool>, k: nat, failed: bool) returns (errors': seq<ValidationError>)
    requires k < |f| <= |Step1Fields| && failed == f[k]
    requires errors == Reported(f[..k], Step1Fields)
    ensures errors' == Reported(f[..k + 1], Step1Fields)
    ensures errors' == errors + Check(failed, Step1Fields[k])
  {
    errors' := errors;
    if failed {
      errors' := errors' + [ErrorFor(Step1Fields[k])];
    }
    assert f[..k + 1] == f[..k] + [failed];
    ReportedPush(f[..k], failed, Step1Fields);
  }

  /** The registration form; a missing field is None. */
  datatype Registration = Registration(name: Option<string>, email: Option<string>, password: Option<string>,
                                       confirmPassword: Option<string>)

  /** `regex.test(undefined)` tests the text "undefined". */
  function EmailText(email: Option<string>): string
  {
    if email.Some? then email.value else "undefined"
  }


  /** The registration errors, in the order of the checks. */
  function RegistrationErrors(data: Registration): seq<ValidationError>
    requires data.name.Some? && data.password.Some?
  {
    Check(!Required(data.name.value), Name)
    + Check(!ValidEmail(EmailText(data.email)), Email)
    + Check(!MinLength(data.password.value, 6), Password)
    + Check(data.confirmPassword != data.password, ConfirmPassword)
  }

  /**
   * Each registration error is reported exactly when its check fails; in
   * particular the confirmation is reported exactly when it differs from
   * the password.
   */
  lemma RegistrationErrorsMeaning(data: Registration)
    requires data.name.Some? && data.password.Some?
    ensures var r := RegistrationErrors(data);
      && (ErrorFor(Name) in r <==> !Required(data.name.value))
      && (ErrorFor(Email) in r <==> !ValidEmail(EmailText(data.email)))
      && (ErrorFor(Password) in r <==> |data.password.value| < 6)
      && (ErrorFor(ConfirmPassword) in r <==> data.confirmPassword != data.password)
      && (r == [] <==> Required(data.name.value) && ValidEmail(EmailText(data.email))
                       && |data.password.value| >= 6 && data.confirmPassword == data.password)
      && |r| <= 4
  {
  }

  /**
   * `validateUserRegistration`: the name, e-mail, password-length and
   * confirmation checks in turn; a missing name or password throws a
   * TypeError.
   */
  method ValidateUserRegistration(data: Registration) returns (r: Result<seq<ValidationError>, FormFailure>)
    ensures r.Err? <==> data.name.None? || data.password.None?
    ensures r.Ok? ==> r.value == RegistrationErrors(data)
  {
    if data.name.None? { return Err(TypeError); }
    var errors := Check(!Required(data.name.value), Name);
    errors := errors + Check(!ValidEmail(EmailText(data.email)), Email);
    if data.password.None? { return Err(TypeError); }
    errors := errors + Check(!MinLength(data.password.value, 6), Password);
    errors := errors + Check(data.confirmPassword != data.password, ConfirmPassword);
    return Ok(errors);
  }

  /** A missing e-mail is checked as the text "undefined", which has no '@', so it is reported. */
  lemma MissingEmailReported()
    ensures !ValidEmail(EmailText(None))
  {
    var u := EmailText(None);
    assert forall i :: 0 <= i < |u| ==> u[i] != '@';
  }
}
