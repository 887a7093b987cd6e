// The address autocomplete field's `parseAddress`: it splits a one-line
// suggestion such as "88 Hillside Blvd. Daly City, CA, 94014 USA" into
// street, city, state and postal code. The regular expressions it uses
// are written out as leftmost-match searches over the text.
module AddressParsing {
  import opened Wrappers
  import opened Strings

  datatype ParsedAddress = ParsedAddress(street: string, city: string, state: string, postalCode: string)

  datatype StreetCity = StreetCity(street: string, city: string)

  datatype CityState = CityState(city: string, state: string)

  // ------------------------------------------------------------ searching

  /** The three regular expressions the parser runs over a part of the address. */
  datatype Pattern =
    | PostalPattern       // \b\d{5}(?:-\d{4})?
    | WholePostalPattern  // \b\d{5}(?:-\d{4})?\b
    | CountryPattern      // \bUSA\b with the i flag

  predicate MatchesAt(p: Pattern, s: string, i: nat)
  {
    match p
    case PostalPattern => FiveDigitsAt(s, i)
    case WholePostalPattern => StrictPostalAt(s, i)
    case CountryPattern => CountryAt(s, i)
  }

  /** The first position from `from` on where the pattern matches: the one a regex engine reports. */
  function FirstMatch(p: Pattern, s: string, from: nat): (r: Option<nat>)
    requires from <= |s|
    ensures r.Some? ==> from <= r.value < |s| && MatchesAt(p, s, r.value)
    ensures r.Some? ==> (forall k :: from <= k < r.value ==> !MatchesAt(p, s, k))
    ensures r.None? ==> (forall k :: from <= k < |s| ==> !MatchesAt(p, s, k))
    decreases |s| - from
  {
    if from == |s| then None
    else if MatchesAt(p, s, from) then Some(from)
    else FirstMatch(p, s, from + 1)
  }

  /** A regex word character, `\w`. */
  predicate WordChar(c: char)
  {
    'a' <= c <= 'z' || 'A' <= c <= 'Z' || '0' <= c <= '9' || c == '_'
  }

  /** `\b` just before position i, when the character at i is a word character. */
  predicate StartsWord(s: string, i: nat)
    requires i <= |s|
  {
    i == 0 || !WordChar(s[i - 1])
  }

  /** `\b` at position j, when the character before j is a word character. */
  predicate EndsWord(s: string, j: nat)
    requires j <= |s|
  {
    j == |s| || !WordChar(s[j])
  }

  /** The text with the span [i, i + len) cut out. */
  function Cut(s: string, i: nat, len: nat): (r: string)
    requires i + len <= |s|
    ensures |r| == |s| - len
  {
    s[..i] + s[i + len..]
  }

  // ------------------------------------------------------------ postal codes

  /** `\b\d{5}` matches at i. */
  predicate FiveDigitsAt(s: string, i: nat)
  {
    i + 5 <= |s| && StartsWord(s, i) && AllDigits(s[i..i + 5])
  }

  /** The optional `-\d{4}` follows the five digits at i. */
  predicate PlusFourAt(s: string, i: nat)
  {
    i + 10 <= |s| && s[i + 5] == '-' && AllDigits(s[i + 6..i + 10])
  }

  /** The greedy `(?:-\d{4})?` takes the extension whenever it is there. */
  function PostalLength(s: string, i: nat): nat
  {
    if PlusFourAt(s, i) then 10 else 5
  }

  /** `match(/(\b\d{5}(?:-\d{4})?)/)`, group 1, or '' without a match. */
  function PostalCode(s: string): string
  {
    match FirstMatch(PostalPattern, s, 0)
    case None => ""
    case Some(i) => s[i..i + PostalLength(s, i)]
  }

  /**
   * The postal code is the leftmost five-digit number that starts a word,
   * with its four-digit extension when one follows, and is empty exactly
   * when there is no such number.
   */
  lemma PostalCodeMeaning(s: string)
    ensures PostalCode(s) == "" <==> forall i :: 0 <= i < |s| ==> !FiveDigitsAt(s, i)
    ensures PostalCode(s) != "" ==>
      exists i :: 0 <= i < |s| && FiveDigitsAt(s, i) && PostalCode(s) == s[i..i + PostalLength(s, i)]
        && forall j :: 0 <= j < i ==> !FiveDigitsAt(s, j)
    ensures PostalCode(s) != "" ==>
      AllDigits(PostalCode(s)[..5]) && (|PostalCode(s)| == 5 || (|PostalCode(s)| == 10 && PostalCode(s)[5] == '-'))
  {
    var m := FirstMatch(PostalPattern, s, 0);
    if m.Some? {
      var i := m.value;
      assert FiveDigitsAt(s, i);
      var code := s[i..i + PostalLength(s, i)];
      assert PostalCode(s) == code;
      assert code[..5] == s[i..i + 5];
      assert code != "";
      forall j | 0 <= j < i
        ensures !FiveDigitsAt(s, j)
      {
        assert !MatchesAt(PostalPattern, s, j);
      }
    } else {
      forall j | 0 <= j < |s|
        ensures !FiveDigitsAt(s, j)
      {
        assert !MatchesAt(PostalPattern, s, j);
      }
    }
  }

  /** A text that starts with a five-digit code not followed by '-' yields that code. */
  lemma PostalCodeLeading(code: string, rest: string)
    requires |code| == 5 && AllDigits(code)
    requires rest == [] || rest[0] != '-'
    ensures PostalCode(code + rest) == code
  {
    var s := code + rest;
    assert s[0..5] == code;
    assert FiveDigitsAt(s, 0);
    assert !PlusFourAt(s, 0) by {
      if |s| >= 10 {
        assert s[5] == rest[0];
      }
    }
  }

  /** A leading five-digit code with a four-digit extension yields both. */
  lemma PostalCodeExtended(code: string, ext: string, rest: string)
    requires |code| == 5 && AllDigits(code) && |ext| == 4 && AllDigits(ext)
    ensures PostalCode(code + "-" + ext + rest) == code + "-" + ext
  {
    var s := code + "-" + ext + rest;
    assert s[0..5] == code && s[5] == '-' && s[6..10] == ext;
    assert FiveDigitsAt(s, 0) && PlusFourAt(s, 0);
    assert s[0..10] == code + "-" + ext;
  }

  /** `\b\d{5}(?:-\d{4})?\b` matches at i: with the extension if a word ends after it, else without. */
  predicate StrictPostalAt(s: string, i: nat)
  {
    FiveDigitsAt(s, i) && ((PlusFourAt(s, i) && EndsWord(s, i + 10)) || EndsWord(s, i + 5))
  }

  function StrictPostalLength(s: string, i: nat): nat
    requires FiveDigitsAt(s, i)
  {
    if PlusFourAt(s, i) && EndsWord(s, i + 10) then 10 else 5
  }

  /** `replace(/\b\d{5}(?:-\d{4})?\b/, '')`: the first whole postal code removed. */
  function WithoutPostalCode(s: string): string
  {
    match FirstMatch(WholePostalPattern, s, 0)
    case None => s
    case Some(i) => Cut(s, i, StrictPostalLength(s, i))
  }

  /** The text changes exactly when it holds a whole postal code. */
  lemma WithoutPostalCodeMeaning(s: string)
    ensures WithoutPostalCode(s) == s <==> forall i :: 0 <= i < |s| ==> !StrictPostalAt(s, i)
  {
    var m := FirstMatch(WholePostalPattern, s, 0);
    if m.Some? {
      assert |WithoutPostalCode(s)| < |s|;
    } else {
      forall j | 0 <= j < |s|
        ensures !StrictPostalAt(s, j)
      {
        assert !MatchesAt(WholePostalPattern, s, j);
      }
    }
  }

  /** `\bUSA\b` under the `i` flag matches at i (the flag folds ASCII letters only). */
  predicate CountryAt(s: string, i: nat)
  {
    i + 3 <= |s| && StartsWord(s, i) && EndsWord(s, i + 3)
    && LowerChar(s[i]) == 'u' && LowerChar(s[i + 1]) == 's' && LowerChar(s[i + 2]) == 'a'
  }

  /** `replace(/\bUSA\b/i, '')`: the first whole word "USA", in any case, removed. */
  function WithoutCountry(s: string): string
  {
    match FirstMatch(CountryPattern, s, 0)
    case None => s
    case Some(i) => Cut(s, i, 3)
  }

  /** The text changes exactly when it holds the word "USA". */
  lemma WithoutCountryMeaning(s: string)
    ensures WithoutCountry(s) == s <==> forall i :: 0 <= i < |s| ==> !CountryAt(s, i)
  {
    var m := FirstMatch(CountryPattern, s, 0);
    if m.Some? {
      assert |WithoutCountry(s)| < |s|;
    } else {
      forall j | 0 <= j < |s|
        ensures !CountryAt(s, j)
      {
        assert !MatchesAt(CountryPattern, s, j);
      }
    }
  }

  // ------------------------------------------------------------ street and city

  /** The street suffixes that end the street part, as listed in the source. */
  const StreetSuffixes: seq<string> :=
    ["St", "Ave", "Blvd", "Dr", "Rd", "Lane", "Way", "Ct", "Pl", "Circle",
     "Street", "Avenue", "Boulevard", "Drive", "Road"]

  /** `replace(/[.,]/g, '')`. */
  function StripPunctuation(w: string): (r: string)
    ensures |r| <= |w| && '.' !in r && ',' !in r
  {
    if w == [] then []
    else (if w[0] == '.' || w[0] == ',' then [] else [w[0]]) + StripPunctuation(w[1..])
  }

  /** The word, without '.' and ',', equals a street suffix ignoring case. */
  predicate IsStreetSuffix(word: string)
  {
    exists k :: 0 <= k < |StreetSuffixes| && ToLower(StripPunctuation(word)) == ToLower(StreetSuffixes[k])
  }

  /** A trailing period is dropped and nothing else changes. */
  lemma {:induction false} StripTrailingPeriod(w: string)
    requires '.' !in w && ',' !in w
    ensures StripPunctuation(w + ".") == w
    decreases |w|
  {
    if w != [] {
      assert (w + ".")[1..] == w[1..] + ".";
      StripTrailingPeriod(w[1..]);
    }
  }

  /** A word without punctuation keeps it all. */
  lemma {:induction false} StripNothing(w: string)
    requires '.' !in w && ',' !in w
    ensures StripPunctuation(w) == w
    decreases |w|
  {
    if w != [] {
      StripNothing(w[1..]);
    }
  }

  /** "Blvd." is a suffix word exactly when "Blvd" is: a trailing period is ignored. */
  lemma StreetSuffixIgnoresPeriod(w: string)
    requires '.' !in w && ',' !in w
    ensures IsStreetSuffix(w + ".") <==> IsStreetSuffix(w)
  {
    StripTrailingPeriod(w);
    StripNothing(w);
  }

  /** `streetEndIndex`: the index of the first suffix word, or -1. */
  function StreetEnd(words: seq<string>): (k: int)
    ensures -1 <= k < |words|
    ensures k == -1 <==> forall i :: 0 <= i < |words| ==> !IsStreetSuffix(words[i])
    ensures k != -1 ==> IsStreetSuffix(words[k]) && forall i :: 0 <= i < k ==> !IsStreetSuffix(words[i])
    decreases |words|
  {
    if words == [] then -1
    else if IsStreetSuffix(words[0]) then 0
    else
      var k := StreetEnd(words[1..]);
      if k == -1 then -1 else k + 1
  }

  /** The search loop for the street's end. */
  method FindStreetEnd(words: seq<string>) returns (index: int)
    ensures index == StreetEnd(words)
  {
    var i := 0;
    while i < |words|
      invariant 0 <= i <= |words|
      invariant forall k :: 0 <= k < i ==> !IsStreetSuffix(words[k])
    {
      if IsStreetSuffix(words[i]) {
        return i;
      }
      i := i + 1;
    }
    return -1;
  }

  /**
   * Street and city from the first comma-separated part: up to and
   * including the suffix word when there is one, else all but the last
   * two words when there are at least three, else the whole part.
   */
  function SplitStreetCity(firstPart: string, end: int): StreetCity
    requires -1 <= end < |SplitOn(firstPart, ' ')|
  {
    var words := SplitOn(firstPart, ' ');
    if end != -1 then
      StreetCity(Join(words[..end + 1], " "), JsTrim(Join(words[end + 1..], " ")))
    else if |words| >= 3 then
      StreetCity(Join(words[..|words| - 2], " "), Join(words[|words| - 2..], " "))
    else
      StreetCity(firstPart, "")
  }

  /**
   * The street is the first words of the part: through the suffix word
   * when there is one, and the city is the rest of the part, trimmed;
   * without a suffix the city is the last two words of at least three.
   */
  lemma {:induction false} SplitStreetCityMeaning(firstPart: string, end: int)
    requires -1 <= end < |SplitOn(firstPart, ' ')|
    ensures var words := SplitOn(firstPart, ' ');
      var sc := SplitStreetCity(firstPart, end);
      && (end != -1 ==> SplitOn(sc.street, ' ') == words[..end + 1])
      && (end != -1 && end + 1 == |words| ==> sc == StreetCity(firstPart, ""))
      && (end != -1 && end + 1 < |words| ==>
            |sc.street| < |firstPart| && firstPart[..|sc.street|] == sc.street
            && firstPart[|sc.street|] == ' ' && sc.city == JsTrim(firstPart[|sc.street| + 1..]))
      && (end == -1 && |words| >= 3 ==>
            sc.street + " " + sc.city == firstPart && SplitOn(sc.city, ' ') == words[|words| - 2..])
      && (end == -1 && |words| < 3 ==> sc == StreetCity(firstPart, ""))
  {
    var words := SplitOn(firstPart, ' ');
    if end != -1 {
      SuffixStreet(firstPart, end);
      if end + 1 == |words| {
        SuffixLast(firstPart, end);
      } else {
        SuffixCity(firstPart, end);
      }
    } else if |words| >= 3 {
      LastTwoWordsCity(firstPart);
    }
  }

  lemma SuffixStreet(firstPart: string, end: nat)
    requires end < |SplitOn(firstPart, ' ')|
    ensures SplitOn(SplitStreetCity(firstPart, end).street, ' ') == SplitOn(firstPart, ' ')[..end + 1]
  {
    var front := SplitOn(firstPart, ' ')[..end + 1];
    assert forall i :: 0 <= i < |front| ==> ' ' !in front[i];
    SplitJoin(front, ' ');
  }

  lemma SuffixLast(firstPart: string, end: nat)
    requires end + 1 == |SplitOn(firstPart, ' ')|
    ensures SplitStreetCity(firstPart, end) == StreetCity(firstPart, "")
  {
    var words := SplitOn(firstPart, ' ');
    JoinSplit(firstPart, ' ');
    assert words[..end + 1] == words;
    assert Join(words[end + 1..], " ") == "";
  }

  lemma SuffixCity(firstPart: string, end: nat)
    requires end + 1 < |SplitOn(firstPart, ' ')|
    ensures var sc := SplitStreetCity(firstPart, end);
      |sc.street| < |firstPart| && firstPart[..|sc.street|] == sc.street
      && firstPart[|sc.street|] == ' ' && sc.city == JsTrim(firstPart[|sc.street| + 1..])
  {
    var words := SplitOn(firstPart, ' ');
    var street, rest := Join(words[..end + 1], " "), Join(words[end + 1..], " ");
    assert firstPart == street + [' '] + rest by {
      WordsAround(firstPart, end + 1);
    }
    assert SplitStreetCity(firstPart, end) == StreetCity(street, JsTrim(rest));
    ConcatAround(firstPart, street, rest, ' ');
  }

  lemma LastTwoWordsCity(firstPart: string)
    requires |SplitOn(firstPart, ' ')| >= 3
    ensures var sc := SplitStreetCity(firstPart, -1);
      sc.street + " " + sc.city == firstPart
      && SplitOn(sc.city, ' ') == SplitOn(firstPart, ' ')[|SplitOn(firstPart, ' ')| - 2..]
  {
    var words := SplitOn(firstPart, ' ');
    JoinSplit(firstPart, ' ');
    LastTwoWords(words);
  }

  /** Words split before the last two, and the last two joined and split again. */
  lemma LastTwoWords(words: seq<string>)
    requires |words| >= 3 && forall i :: 0 <= i < |words| ==> ' ' !in words[i]
    ensures var n := |words|;
      Join(words[..n - 2], " ") + " " + Join(words[n - 2..], " ") == Join(words, " ")
      && SplitOn(Join(words[n - 2..], " "), ' ') == words[n - 2..]
  {
    var n := |words|;
    JoinAppend(words[..n - 2], words[n - 2..], " ");
    assert words[..n - 2] + words[n - 2..] == words;
    var back := words[n - 2..];
    assert forall i :: 0 <= i < |back| ==> ' ' !in back[i];
    SplitJoin(back, ' ');
  }

  /** A text is the words before a position and the words after it, joined by a space. */
  lemma WordsAround(text: string, n: nat)
    requires 1 <= n < |SplitOn(text, ' ')|
    ensures var words := SplitOn(text, ' ');
      text == Join(words[..n], " ") + [' '] + Join(words[n..], " ")
  {
    var words := SplitOn(text, ' ');
    JoinSplit(text, ' ');
    JoinAppend(words[..n], words[n..], " ");
    assert words[..n] + words[n..] == words;
  }

  /** The pieces of a + [c] + b. */
  lemma ConcatAround(s: string, a: string, b: string, c: char)
    requires s == a + [c] + b
    ensures |a| < |s| && s[..|a|] == a && s[|a|] == c && s[|a| + 1..] == b
  {
  }

  // ------------------------------------------------------------ city and state

  /** The city-state-ZIP part without its postal code and country, trimmed. */
  function CityStateText(cityStateZip: string): string
  {
    JsTrim(WithoutCountry(WithoutPostalCode(cityStateZip)))
  }

  /** The last space-separated word of the text as state, the words before it as city. */
  function SplitLastWord(text: string): CityState
  {
    var words := SplitOn(text, ' ');
    CityState(Join(words[..|words| - 1], " "), words[|words| - 1])
  }

  /** State and city of the city-state-ZIP part. */
  function SplitCityState(cityStateZip: string): CityState
  {
    SplitLastWord(CityStateText(cityStateZip))
  }

  /** The state is one word; the city and the state rejoin to the whole text. */
  lemma SplitLastWordMeaning(text: string)
    ensures var cs := SplitLastWord(text);
      && ' ' !in cs.state
      && (' ' in text ==> cs.city + " " + cs.state == text)
      && (' ' !in text ==> cs.city == "" && cs.state == text)
  {
    var words := SplitOn(text, ' ');
    var n := |words|;
    SplitOnSingle(text, ' ');
    JoinSplit(text, ' ');
    if n >= 2 {
      JoinSnoc(words[..n - 1], words[n - 1], " ");
      assert words[..n - 1] + [words[n - 1]] == words;
    }
  }

  // ------------------------------------------------------------ the parser

  /** `split(',').map(part => part.trim())`. */
  function Parts(fullAddress: string): (parts: seq<string>)
    ensures |parts| == |SplitOn(fullAddress, ',')|
  {
    var pieces := SplitOn(fullAddress, ',');
    seq(|pieces|, i requires 0 <= i < |pieces| => JsTrim(pieces[i]))
  }

  /**
   * `parseAddress`: three or more parts give street and city from the
   * first, state from the second and the postal code from the third; two
   * parts give the street from the first and the rest from the second;
   * text without a comma is all street.
   */
  method ParseAddress(fullAddress: string) returns (r: ParsedAddress)
    ensures ',' !in fullAddress ==> r == ParsedAddress(fullAddress, "", "", "")
    ensures var parts := Parts(fullAddress);
      |parts| >= 3 ==>
        var words := SplitOn(parts[0], ' ');
        && r.state == parts[1] && r.postalCode == PostalCode(parts[2])
        && StreetCity(r.street, r.city) == SplitStreetCity(parts[0], StreetEnd(words))
    ensures var parts := Parts(fullAddress);
      |parts| == 2 ==>
        && r.street == parts[0] && r.postalCode == PostalCode(parts[1])
        && CityState(r.city, r.state) == SplitCityState(parts[1])
  {
    var parts := Parts(fullAddress);
    SplitOnSingle(fullAddress, ',');
    if |parts| >= 3 {
      var words := SplitOn(parts[0], ' ');
      var end := FindStreetEnd(words);
      var sc := SplitStreetCity(parts[0], end);
      r := ParsedAddress(sc.street, sc.city, parts[1], PostalCode(parts[2]));
    } else if |parts| == 2 {
      var cs := SplitCityState(parts[1]);
      r := ParsedAddress(parts[0], cs.city, cs.state, PostalCode(parts[1]));
    } else {
      r := ParsedAddress(fullAddress, "", "", "");
    }
  }
}
