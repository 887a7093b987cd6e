// The Address entity: a mutable record of a user's saved address, with
// the fields its constructor derives, its defaults, its setters and the
// one-line full address.
module AddressEntity {
  import opened Wrappers
  import opened Strings

  /**
   * Every field of an Address at one moment. A Java null is None; the
   * user is held by id, the creation time as a number.
   */
  datatype AddressFields = AddressFields(
    id: Option<int>, labelText: Option<string>, address: Option<string>, city: Option<string>,
    postalCode: Option<string>, country: Option<string>, phone: Option<string>, isDefault: bool,
    formattedAddress: Option<string>, placeId: Option<string>, zipCode: Option<string>,
    latitude: Option<real>, longitude: Option<real>, createdAt: Option<int>, user: Option<int>)

  const DefaultCountry: string := "United States"

  /** The fields of `new Address()`: only the initialised defaults are set. */
  function BlankFields(): (f: AddressFields)
    ensures f.country == Some(DefaultCountry) && !f.isDefault
    ensures f.placeId == Some("") && f.zipCode == Some("") && f.formattedAddress.None?
  {
    AddressFields(None, None, None, None, None, Some(DefaultCountry), None, false, None, Some(""), Some(""),
                  None, None, None, None)
  }

  /** How String.format's `%s` shows a possibly null string. */
  function Shown(s: Option<string>): string
  {
    if s.Some? then s.value else "null"
  }

  /** format("%s, %s %s", address, city, postalCode or "").trim(). */
  function FullAddressText(address: Option<string>, city: Option<string>, postalCode: Option<string>): string
  {
    JavaTrim(Shown(address) + ", " + Shown(city) + " " + (if postalCode.Some? then postalCode.value else ""))
  }

  /**
   * For an address and a city without surrounding white space, the text is
   * "address, city", followed by " postalCode" when there is a postal code
   * without surrounding white space.
   */
  lemma FullAddressShape(address: string, city: string, postalCode: Option<string>)
    requires address != [] && !IsJavaSpace(address[0]) && !IsJavaSpace(address[|address| - 1])
    requires city != [] && !IsJavaSpace(city[0]) && !IsJavaSpace(city[|city| - 1])
    requires postalCode.Some? ==> postalCode.value != [] && !IsJavaSpace(postalCode.value[0])
                                  && !IsJavaSpace(postalCode.value[|postalCode.value| - 1])
    ensures postalCode.None? ==> FullAddressText(Some(address), Some(city), postalCode) == address + ", " + city
    ensures postalCode.Some? ==>
      FullAddressText(Some(address), Some(city), postalCode) == address + ", " + city + " " + postalCode.value
  {
    var s := address + ", " + city;
    assert s[0] == address[0] && s[|s| - 1] == city[|city| - 1];
    if postalCode.None? {
      assert s + " " + "" == s + " ";
      JavaTrimTrailingSpace(s);
      JavaTrimKeeps(s);
    } else {
      var t := s + " " + postalCode.value;
      assert t[0] == address[0] && t[|t| - 1] == postalCode.value[|postalCode.value| - 1];
      JavaTrimKeeps(t);
    }
  }

  class Address {
    var id: Option<int>
    var labelText: Option<string>
    var address: Option<string>
    var city: Option<string>
    var postalCode: Option<string>
    var country: Option<string>
    var phone: Option<string>
    var isDefault: bool
    var formattedAddress: Option<string>
    var placeId: Option<string>
    var zipCode: Option<string>
    var latitude: Option<real>
    var longitude: Option<real>
    var createdAt: Option<int>
    var user: Option<int>

    function Fields(): AddressFields
      reads this
    {
      AddressFields(id, labelText, address, city, postalCode, country, phone, isDefault, formattedAddress, placeId,
                    zipCode, latitude, longitude, createdAt, user)
    }

    /** `new Address()`. */
    constructor Blank()
      ensures Fields() == BlankFields()
    {
      id, labelText, address, city, postalCode := None, None, None, None, None;
      country, phone, isDefault := Some(DefaultCountry), None, false;
      formattedAddress, placeId, zipCode := None, Some(""), Some("");
      latitude, longitude, createdAt, user := None, None, None, None;
    }

    /**
     * The six-argument constructor: the given fields, the formatted address
     * computed as the full address is, the zip code the postal code or "",
     * an empty place id, and the defaults otherwise.
     */
    constructor (labelText: Option<string>, address: Option<string>, city: Option<string>, postalCode: Option<string>,
                 phone: Option<string>, user: Option<int>)
      ensures this.labelText == labelText && this.address == address && this.city == city
      ensures this.postalCode == postalCode && this.phone == phone && this.user == user
      ensures formattedAddress == Some(FullAddressText(address, city, postalCode))
      ensures zipCode == Some(if postalCode.Some? then postalCode.value else "") && placeId == Some("")
      ensures country == Some(DefaultCountry) && !isDefault
      ensures id.None? && latitude.None? && longitude.None? && createdAt.None?
    {
      var full := FullAddressText(address, city, postalCode);
      var zip := if postalCode.Some? then postalCode.value else "";
      this.id, this.labelText, this.address, this.city, this.postalCode := None, labelText, address, city, postalCode;
      this.country, this.phone, this.isDefault := Some(DefaultCountry), phone, false;
      this.formattedAddress, this.placeId, this.zipCode := Some(full), Some(""), Some(zip);
      this.latitude, this.longitude, this.createdAt, this.user := None, None, None, user;
    }

    /** `getFullAddress`, from the current address, city and postal code. */
    function FullAddress(): string
      reads this
    {
      FullAddressText(address, city, postalCode)
    }

    method SetId(v: Option<int>)
      modifies this
      ensures Fields() == old(Fields()).(id := v)
    {
      id := v;
    }

    method SetLabelText(v: Option<string>)
      modifies this
      ensures Fields() == old(Fields()).(labelText := v)
    {
      labelText := v;
    }

    method SetAddress(v: Option<string>)
      modifies this
      ensures Fields() == old(Fields()).(address := v)
    {
      address := v;
    }

    method SetCity(v: Option<string>)
      modifies this
      ensures Fields() == old(Fields()).(city := v)
    {
      city := v;
    }

    method SetPostalCode(v: Option<string>)
      modifies this
      ensures Fields() == old(Fields()).(postalCode := v)
    {
      postalCode := v;
    }

    method SetCountry(v: Option<string>)
      modifies this
      ensures Fields() == old(Fields()).(country := v)
    {
      country := v;
    }

    method SetPhone(v: Option<string>)
      modifies this
      ensures Fields() == old(Fields()).(phone := v)
    {
      phone := v;
    }

    method SetDefault(v: bool)
      modifies this
      ensures Fields() == old(Fields()).(isDefault := v)
    {
      isDefault := v;
    }

    method SetLatitude(v: Option<real>)
      modifies this
      ensures Fields() == old(Fields()).(latitude := v)
    {
      latitude := v;
    }

    method SetLongitude(v: Option<real>)
      modifies this
      ensures Fields() == old(Fields()).(longitude := v)
    {
      longitude := v;
    }

    method SetCreatedAt(v: Option<int>)
      modifies this
      ensures Fields() == old(Fields()).(createdAt := v)
    {
      createdAt := v;
    }

    method SetUser(v: Option<int>)
      modifies this
      ensures Fields() == old(Fields()).(user := v)
    {
      user := v;
    }

    method SetFormattedAddress(v: Option<string>)
      modifies this
      ensures Fields() == old(Fields()).(formattedAddress := v)
    {
      formattedAddress := v;
    }

    method SetPlaceId(v: Option<string>)
      modifies this
      ensures Fields() == old(Fields()).(placeId := v)
    {
      placeId := v;
    }

    method SetZipCode(v: Option<string>)
      modifies this
      ensures Fields() == old(Fields()).(zipCode := v)
    {
      zipCode := v;
    }
  }
}
