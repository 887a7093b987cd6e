// The client's display formatters: phone numbers, order ids, estimated
// times, truncated text, capitalisation and one-line addresses.
module Formatting {
  import opened Wrappers
  import opened Strings

  // ------------------------------------------------------------ phone numbers

  /** `s.replace(/\D/g, '')`: the decimal digits of the text, in order. */
  function DigitsOf(s: string): (d: string)
    ensures |d| <= |s| && AllDigits(d)
  {
    if s == [] then []
    else (if IsDigit(s[0]) then [s[0]] else []) + DigitsOf(s[1..])
  }

  lemma {:induction false} DigitsOfAppend(a: string, b: string)
    ensures DigitsOf(a + b) == DigitsOf(a) + DigitsOf(b)
    decreases |a|
  {
    if a == [] {
      assert a + b == b;
    } else {
      var ab := a + b;
      assert ab[0] == a[0] && ab[1..] == a[1..] + b;
      DigitsOfAppend(a[1..], b);
      var head := if IsDigit(a[0]) then [a[0]] else [];
      assert DigitsOf(ab) == head + DigitsOf(a[1..] + b);
      assert DigitsOf(a) == head + DigitsOf(a[1..]);
    }
  }

  lemma {:induction false} DigitsOfDigits(s: string)
    requires AllDigits(s)
    ensures DigitsOf(s) == s
    decreases |s|
  {
    if s != [] {
      DigitsOfDigits(s[1..]);
      assert [s[0]] + s[1..] == s;
    }
  }

  /** A ten-digit number, or an eleven-digit one with country code 1. */
  predicate Formattable(c: string)
  {
    |c| == 10 || (|c| == 11 && c[0] == '1')
  }

  /**
   * `formatPhoneNumber`: ten digits become "(XXX) XXX-XXXX", eleven digits
   * starting with 1 become "+1 (XXX) XXX-XXXX"; any other text is returned
   * as it was.
   */
  function FormatPhoneNumber(phone: string): (r: string)
    ensures !Formattable(DigitsOf(phone)) ==> r == phone
    ensures |DigitsOf(phone)| == 10 ==> |r| == 14 && r[0] == '(' && r[4..6] == ") " && r[9] == '-'
    ensures |DigitsOf(phone)| == 11 && DigitsOf(phone)[0] == '1' ==>
      |r| == 17 && r[..4] == "+1 (" && r[7..9] == ") " && r[12] == '-'
  {
    var c := DigitsOf(phone);
    if |c| == 10 then "(" + c[..3] + ") " + c[3..6] + "-" + c[6..]
    else if |c| == 11 && c[0] == '1' then "+1 (" + c[1..4] + ") " + c[4..7] + "-" + c[7..]
    else phone
  }

  /** Text without a digit has no digits to keep. */
  lemma {:induction false} NoDigits(p: string)
    requires forall i :: 0 <= i < |p| ==> !IsDigit(p[i])
    ensures DigitsOf(p) == []
    decreases |p|
  {
    if p != [] {
      NoDigits(p[1..]);
    }
  }

  /** Appending text without digits adds no digits. */
  lemma AppendNoDigits(s: string, p: string)
    requires DigitsOf(p) == []
    ensures DigitsOf(s + p) == DigitsOf(s)
  {
    DigitsOfAppend(s, p);
  }

  /** The punctuation of the two phone layouts. */
  lemma LayoutPunctuation()
    ensures DigitsOf("(") == [] && DigitsOf(") ") == [] && DigitsOf("-") == []
    ensures DigitsOf("+1 (") == "1"
  {
    NoDigits("(");
    NoDigits(") ");
    NoDigits("-");
    NoDigits(" (");
    NoDigits("+");
    DigitsOfAppend("+", "1");
    DigitsOfAppend("+1", " (");
    assert "+1" + " (" == "+1 (";
  }

  /** Appending digits adds exactly those digits. */
  lemma AppendDigits(s: string, p: string)
    requires AllDigits(p)
    ensures DigitsOf(s + p) == DigitsOf(s) + p
  {
    DigitsOfAppend(s, p);
    DigitsOfDigits(p);
  }

  /** The digits of a "(XXX) XXX-XXXX" layout are the digits put in it. */
  lemma TenDigitLayout(a: string, b: string, d: string)
    requires AllDigits(a) && AllDigits(b) && AllDigits(d)
    ensures DigitsOf("(" + a + ") " + b + "-" + d) == a + b + d
  {
    var s1 := "(" + a;
    var s2 := s1 + ") ";
    var s3 := s2 + b;
    var s4 := s3 + "-";
    LayoutPunctuation();
    AppendDigits("(", a);
    assert [] + a == a;
    AppendNoDigits(s1, ") ");
    AppendDigits(s2, b);
    AppendNoDigits(s3, "-");
    AppendDigits(s4, d);
  }

  /** The digits of a "+1 (XXX) XXX-XXXX" layout are "1" and the digits put in it. */
  lemma ElevenDigitLayout(a: string, b: string, d: string)
    requires AllDigits(a) && AllDigits(b) && AllDigits(d)
    ensures DigitsOf("+1 (" + a + ") " + b + "-" + d) == "1" + a + b + d
  {
    var s1 := "+1 (" + a;
    var s2 := s1 + ") ";
    var s3 := s2 + b;
    var s4 := s3 + "-";
    LayoutPunctuation();
    AppendDigits("+1 (", a);
    AppendNoDigits(s1, ") ");
    AppendDigits(s2, b);
    AppendNoDigits(s3, "-");
    AppendDigits(s4, d);
  }

  /** Formatting only adds punctuation: the formatted number has the same digits. */
  lemma PhoneKeepsDigits(phone: string)
    ensures DigitsOf(FormatPhoneNumber(phone)) == DigitsOf(phone)
  {
    var c := DigitsOf(phone);
    if |c| == 10 {
      TenDigitLayout(c[..3], c[3..6], c[6..]);
      assert c[..3] + c[3..6] + c[6..] == c;
    } else if |c| == 11 && c[0] == '1' {
      ElevenDigitLayout(c[1..4], c[4..7], c[7..]);
      assert "1" + c[1..4] + c[4..7] + c[7..] == c;
    }
  }

  /** Formatting a formatted number changes nothing. */
  lemma FormatPhoneIdempotent(phone: string)
    ensures FormatPhoneNumber(FormatPhoneNumber(phone)) == FormatPhoneNumber(phone)
  {
    PhoneKeepsDigits(phone);
  }

  // ------------------------------------------------------------ order ids

  /** `formatOrderId`: "#" followed by the id in upper case. */
  function FormatOrderId(id: string): (r: string)
    ensures |r| == |id| + 1 && r[0] == '#'
    ensures forall i :: 0 <= i < |id| ==> r[i + 1] == UpperChar(id[i])
  {
    "#" + ToUpper(id)
  }

  /** The displayed id does not depend on the case of the id. */
  lemma OrderIdIgnoresCase(id: string)
    ensures FormatOrderId(ToLower(id)) == FormatOrderId(id)
  {
    var l := ToLower(id);
    assert forall i :: 0 <= i < |id| ==> UpperChar(l[i]) == UpperChar(id[i]);
    assert ToUpper(l) == ToUpper(id);
  }

  // ------------------------------------------------------------ estimated time

  /**
   * `formatEstimatedTime` for a whole number of minutes: "N mins" below an
   * hour, "H hour"/"H hours" for whole hours, "Hh Mm" otherwise.
   */
  function FormatEstimatedTime(minutes: int): (r: string)
    ensures minutes < 60 ==> IsSuffix(" mins", r) && IsPrefix(IntToString(minutes), r)
    ensures minutes >= 60 ==> IsPrefix(IntToString(minutes / 60), r)
  {
    if minutes < 60 then IntToString(minutes) + " mins"
    else
      var hours := minutes / 60;
      var remaining := minutes % 60;
      if remaining == 0 then IntToString(hours) + (if hours == 1 then " hour" else " hours")
      else IntToString(hours) + "h " + IntToString(remaining) + "m"
  }

  /** Whole hours are shown in hours, singular exactly for one hour. */
  lemma EstimatedWholeHours(hours: int)
    requires hours >= 1
    ensures FormatEstimatedTime(60 * hours) == IntToString(hours) + (if hours == 1 then " hour" else " hours")
  {
    assert (60 * hours) / 60 == hours && (60 * hours) % 60 == 0;
  }

  /** Any other time of an hour or more shows its hours and the minutes left over. */
  lemma EstimatedHoursAndMinutes(hours: int, rest: int)
    requires hours >= 1 && 0 < rest < 60
    ensures FormatEstimatedTime(60 * hours + rest) == IntToString(hours) + "h " + IntToString(rest) + "m"
  {
    assert (60 * hours + rest) / 60 == hours && (60 * hours + rest) % 60 == rest;
  }

  // ------------------------------------------------------------ text

  /**
   * `truncateText`: text no longer than the limit is kept; longer text
   * keeps its first `maxLength - 3` characters (none when that is
   * negative, as `substring` clamps) followed by "...".
   */
  function TruncateText(text: string, maxLength: int): (r: string)
    ensures |text| <= maxLength ==> r == text
    ensures |text| > maxLength ==> IsSuffix("...", r) && IsPrefix(r[..|r| - 3], text)
    ensures |text| > maxLength && maxLength >= 3 ==> |r| == maxLength
    ensures |text| > maxLength && maxLength < 3 ==> r == "..."
  {
    if |text| <= maxLength then text
    else
      var end := if maxLength - 3 < 0 then 0 else maxLength - 3;
      text[..end] + "..."
  }

  /** With a limit of at least three, truncating twice is truncating once. */
  lemma TruncateIdempotent(text: string, maxLength: int)
    requires maxLength >= 3
    ensures TruncateText(TruncateText(text, maxLength), maxLength) == TruncateText(text, maxLength)
  {
  }

  /** `capitalizeFirstLetter`: the first character upper-cased, the rest kept. */
  function CapitalizeFirstLetter(text: string): (r: string)
    ensures |r| == |text|
    ensures text != [] ==> r[0] == UpperChar(text[0]) && r[1..] == text[1..]
  {
    if text == [] then [] else [UpperChar(text[0])] + text[1..]
  }

  /** Capitalising twice is capitalising once. */
  lemma CapitalizeIdempotent(text: string)
    ensures CapitalizeFirstLetter(CapitalizeFirstLetter(text)) == CapitalizeFirstLetter(text)
  {
    if text != [] {
      var c := text[0];
      assert UpperChar(UpperChar(c)) == UpperChar(c);
    }
  }

  // ------------------------------------------------------------ addresses

  /** A part `filter(Boolean)` keeps: present and not empty. */
  predicate Truthy(part: Option<string>) { part.Some? && part.value != "" }

  /** The truthy parts, in order. */
  function KeptParts(parts: seq<Option<string>>): (kept: seq<string>)
    ensures |kept| <= |parts|
    ensures forall i :: 0 <= i < |kept| ==> |kept[i]| > 0
    ensures kept == [] <==> forall i :: 0 <= i < |parts| ==> !Truthy(parts[i])
  {
    if parts == [] then []
    else (if Truthy(parts[0]) then [parts[0].value] else []) + KeptParts(parts[1..])
  }

  /** `formatAddress`: the address line, city and postal code that are set, joined by ", ". */
  function FormatAddress(address: Option<string>, city: Option<string>, postalCode: Option<string>): string
  {
    Join(KeptParts([address, city, postalCode]), ", ")
  }

  /** The formatted address is empty exactly when no part is set. */
  lemma FormatAddressEmpty(address: Option<string>, city: Option<string>, postalCode: Option<string>)
    ensures FormatAddress(address, city, postalCode) == "" <==> !Truthy(address) && !Truthy(city) && !Truthy(postalCode)
  {
    var parts := [address, city, postalCode];
    JoinEmpty(KeptParts(parts), ", ");
    assert parts[0] == address && parts[1] == city && parts[2] == postalCode;
  }

  /** With every part set, the parts appear in order, separated by ", ". */
  lemma FormatAddressFull(address: string, city: string, postalCode: string)
    requires address != "" && city != "" && postalCode != ""
    ensures FormatAddress(Some(address), Some(city), Some(postalCode)) == address + ", " + city + ", " + postalCode
  {
    var parts := [Some(address), Some(city), Some(postalCode)];
    assert parts[1..][1..][1..] == [];
    assert KeptParts(parts[1..][1..]) == [postalCode];
    assert parts[1..][1..] == [Some(postalCode)];
    assert KeptParts(parts[1..]) == [city, postalCode];
    var kept := [address, city, postalCode];
    assert KeptParts(parts) == kept;
    assert kept[1..][1..] == [postalCode];
    assert Join(kept[1..][1..], ", ") == postalCode;
    assert kept[1..] == [city, postalCode];
    assert Join(kept[1..], ", ") == city + ", " + postalCode;
  }

  /** A missing or empty city is skipped together with its separator. */
  lemma FormatAddressSkipsCity(address: string, postalCode: string, city: Option<string>)
    requires address != "" && postalCode != "" && !Truthy(city)
    ensures FormatAddress(Some(address), city, Some(postalCode)) == address + ", " + postalCode
  {
    var parts := [Some(address), city, Some(postalCode)];
    assert parts[1..][1..][1..] == [];
    assert KeptParts(parts[1..][1..]) == [postalCode];
    assert KeptParts(parts[1..]) == [postalCode];
    var kept := [address, postalCode];
    assert KeptParts(parts) == kept;
    assert kept[1..] == [postalCode];
    assert Join(kept[1..], ", ") == postalCode;
  }
}
