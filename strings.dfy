// Text helpers shared by the services: decimal digits, Java and JavaScript
// whitespace and trimming, ASCII case mapping, splitting and joining.
module Strings {
  import opened Wrappers

  // ---------------------------------------------------------------- digits

  predicate IsDigit(c: char) { '0' <= c <= '9' }

  predicate AllDigits(s: string) { forall i :: 0 <= i < |s| ==> IsDigit(s[i]) }

  function DigitValue(c: char): (d: nat)
    requires IsDigit(c)
    ensures d < 10
  {
    (c as int) - ('0' as int)
  }

  function DigitChar(d: nat): (c: char)
    requires d < 10
    ensures IsDigit(c) && DigitValue(c) == d
  {
    (('0' as int) + d) as char
  }

  /** The decimal text of a natural number, without leading zeros. */
  function NatToString(n: nat): (s: string)
    ensures |s| >= 1 && AllDigits(s)
    ensures n >= 10 ==> s[0] != '0'
  {
    if n < 10 then [DigitChar(n)] else NatToString(n / 10) + [DigitChar(n % 10)]
  }

  /** The number a non-empty run of decimal digits denotes. */
  function ParseDigits(s: string): nat
    requires AllDigits(s)
  {
    if s == [] then 0 else ParseDigits(s[..|s| - 1]) * 10 + DigitValue(s[|s| - 1])
  }

  lemma {:induction false} ParseNatToString(n: nat)
    ensures ParseDigits(NatToString(n)) == n
  {
    if n >= 10 {
      var s := NatToString(n / 10);
      ParseNatToString(n / 10);
      assert (s + [DigitChar(n % 10)])[..|s|] == s;
    }
  }

  /** Java's and JavaScript's decimal rendering of an integer. */
  function IntToString(i: int): (s: string)
    ensures |s| >= 1
    ensures s[0] == '-' <==> i < 0
  {
    if i < 0 then "-" + NatToString(-i) else NatToString(i)
  }

  const LongMin: int := -0x8000_0000_0000_0000
  const LongMax: int := 0x7fff_ffff_ffff_ffff

  /**
   * Java's Long.parseLong: an optional sign then at least one decimal
   * digit, within the 64-bit range; None where Java throws
   * NumberFormatException.
   */
  function ParseLong(s: string): (r: Option<int>)
    ensures r.Some? ==> LongMin <= r.value <= LongMax
  {
    var negative := |s| > 0 && s[0] == '-';
    var body := if |s| > 0 && (s[0] == '-' || s[0] == '+') then s[1..] else s;
    if |body| == 0 || !AllDigits(body) then None
    else
      var v: int := if negative then -(ParseDigits(body) as int) else ParseDigits(body);
      if LongMin <= v <= LongMax then Some(v) else None
  }

  lemma ParseLongOfNat(n: nat)
    requires n <= LongMax
    ensures ParseLong(NatToString(n)) == Some(n)
  {
    ParseNatToString(n);
    assert IsDigit(NatToString(n)[0]);
  }

  /** Long.parseLong reads back every long's decimal text. */
  lemma ParseLongOfInt(i: int)
    requires LongMin <= i <= LongMax
    ensures ParseLong(IntToString(i)) == Some(i)
  {
    if i >= 0 {
      ParseLongOfNat(i);
    } else {
      var d := NatToString(-i);
      ParseNatToString(-i);
      assert IntToString(i)[1..] == d;
    }
  }

  /** The decimal text of an integer holds no space. */
  lemma DigitsHaveNoSpace(s: string)
    requires AllDigits(s)
    ensures ' ' !in s
  {
  }

  lemma IntTextHasNoSpace(i: int)
    ensures ' ' !in IntToString(i)
  {
    var s := IntToString(i);
    if i >= 0 {
      assert AllDigits(s);
    } else {
      assert AllDigits(s[1..]);
      assert forall k :: 0 < k < |s| ==> s[k] == s[1..][k - 1];
    }
  }

  // ------------------------------------------------------------ whitespace

  /** The characters Java's String.trim removes: code points up to U+0020. */
  predicate IsJavaSpace(c: char) { c <= ' ' }

  function JavaTrimLeft(s: string): (t: string)
    ensures |t| <= |s| && t == s[|s| - |t|..]
    ensures t == [] || !IsJavaSpace(t[0])
    ensures forall i :: 0 <= i < |s| - |t| ==> IsJavaSpace(s[i])
  {
    if s != [] && IsJavaSpace(s[0]) then JavaTrimLeft(s[1..]) else s
  }

  function JavaTrimRight(s: string): (t: string)
    ensures |t| <= |s| && t == s[..|t|]
    ensures t == [] || !IsJavaSpace(t[|t| - 1])
    ensures forall i :: |t| <= i < |s| ==> IsJavaSpace(s[i])
  {
    if s != [] && IsJavaSpace(s[|s| - 1]) then JavaTrimRight(s[..|s| - 1]) else s
  }

  /** Java's String.trim. */
  function JavaTrim(s: string): (t: string)
    ensures t == [] <==> forall i :: 0 <= i < |s| ==> IsJavaSpace(s[i])
    ensures t == [] || (!IsJavaSpace(t[0]) && !IsJavaSpace(t[|t| - 1]))
  {
    var l := JavaTrimLeft(s);
    var t := JavaTrimRight(l);
    assert t == [] ==> l == [];
    t
  }

  /** Trimming leaves a string alone when neither end is white space. */
  lemma JavaTrimKeeps(s: string)
    requires s != [] && !IsJavaSpace(s[0]) && !IsJavaSpace(s[|s| - 1])
    ensures JavaTrim(s) == s
  {
  }

  /** A trailing space is trimmed away like any other. */
  lemma JavaTrimTrailingSpace(s: string)
    requires s != [] && !IsJavaSpace(s[0])
    ensures JavaTrim(s + " ") == JavaTrim(s)
  {
    assert (s + " ")[..|s|] == s;
  }

  /** `s == null || s.trim().isEmpty()` for a non-null Java string. */
  predicate JavaBlank(s: string) { JavaTrim(s) == [] }

  /**
   * The characters JavaScript's `\s` and String.prototype.trim treat as
   * white space: WhiteSpace and LineTerminator of ECMA-262.
   */
  predicate IsJsSpace(c: char)
  {
    var n := c as int;
    n == 0x09 || n == 0x0A || n == 0x0B || n == 0x0C || n == 0x0D || n == 0x20
    || n == 0xA0 || n == 0x1680 || (0x2000 <= n <= 0x200A) || n == 0x2028 || n == 0x2029
    || n == 0x202F || n == 0x205F || n == 0x3000 || n == 0xFEFF
  }

  function JsTrimLeft(s: string): (t: string)
    ensures |t| <= |s| && t == s[|s| - |t|..]
    ensures t == [] || !IsJsSpace(t[0])
  {
    if s != [] && IsJsSpace(s[0]) then JsTrimLeft(s[1..]) else s
  }

  function JsTrimRight(s: string): (t: string)
    ensures |t| <= |s| && t == s[..|t|]
    ensures t == [] || !IsJsSpace(t[|t| - 1])
  {
    if s != [] && IsJsSpace(s[|s| - 1]) then JsTrimRight(s[..|s| - 1]) else s
  }

  /** JavaScript's String.prototype.trim. */
  function JsTrim(s: string): (t: string)
    ensures |t| <= |s|
    ensures t == [] || (!IsJsSpace(t[0]) && !IsJsSpace(t[|t| - 1]))
  {
    JsTrimRight(JsTrimLeft(s))
  }

  /** `s.replace(/\s/g, '')`: every JavaScript white-space character removed. */
  function RemoveJsSpaces(s: string): (t: string)
    ensures |t| <= |s|
  {
    if s == [] then []
    else if IsJsSpace(s[0]) then RemoveJsSpaces(s[1..])
    else [s[0]] + RemoveJsSpaces(s[1..])
  }

  // ------------------------------------------------------------ ASCII case

  function LowerChar(c: char): char
  {
    if 'A' <= c <= 'Z' then ((c as int) + 32) as char else c
  }

  function UpperChar(c: char): char
  {
    if 'a' <= c <= 'z' then ((c as int) - 32) as char else c
  }

  /** toLowerCase restricted to the ASCII letters. */
  function ToLower(s: string): (t: string)
    ensures |t| == |s|
  {
    seq(|s|, i requires 0 <= i < |s| => LowerChar(s[i]))
  }

  /** toUpperCase restricted to the ASCII letters. */
  function ToUpper(s: string): (t: string)
    ensures |t| == |s|
  {
    seq(|s|, i requires 0 <= i < |s| => UpperChar(s[i]))
  }

  // ------------------------------------------------------------ substrings

  predicate IsPrefix(p: string, s: string) { |p| <= |s| && s[..|p|] == p }

  predicate IsSuffix(p: string, s: string) { |p| <= |s| && s[|s| - |p|..] == p }

  /** `s.contains(sub)` / `s.includes(sub)`, computed by scanning. */
  predicate Contains(s: string, sub: string)
    decreases |s|
  {
    IsPrefix(sub, s) || (s != [] && Contains(s[1..], sub))
  }

  lemma {:induction false} ContainsAt(s: string, sub: string, k: nat)
    requires k + |sub| <= |s| && s[k..k + |sub|] == sub
    ensures Contains(s, sub)
    decreases k
  {
    if k > 0 {
      assert s[1..][k - 1..k - 1 + |sub|] == sub;
      ContainsAt(s[1..], sub, k - 1);
    }
  }

  /**
   * Java's `s.replace(pat, rep)`: every occurrence of pat, scanning left
   * to right without overlap, replaced by rep.
   */
  function ReplaceAll(s: string, pat: string, rep: string): string
    requires |pat| > 0
    decreases |s|
  {
    if |s| == 0 then s
    else if IsPrefix(pat, s) then rep + ReplaceAll(s[|pat|..], pat, rep)
    else [s[0]] + ReplaceAll(s[1..], pat, rep)
  }

  lemma {:induction false} ReplaceAllAbsent(s: string, pat: string, rep: string)
    requires |pat| > 0 && pat[0] !in s
    ensures ReplaceAll(s, pat, rep) == s
    decreases |s|
  {
    if |s| > 0 {
      assert s[0] != pat[0];
      ReplaceAllAbsent(s[1..], pat, rep);
    }
  }

  // -------------------------------------------------- splitting and joining

  /** `parts.join(sep)` / `String.join(sep, parts)`. */
  function Join(parts: seq<string>, sep: string): string
  {
    if |parts| == 0 then ""
    else if |parts| == 1 then parts[0]
    else parts[0] + sep + Join(parts[1..], sep)
  }

  /**
   * JavaScript's `s.split(c)` for a one-character separator: every piece,
   * empty ones included.
   */
  function SplitOn(s: string, c: char): (parts: seq<string>)
    ensures |parts| >= 1
    ensures forall i :: 0 <= i < |parts| ==> c !in parts[i]
  {
    if |s| == 0 then [""]
    else
      var rest := SplitOn(s[1..], c);
      if s[0] == c then [""] + rest else [[s[0]] + rest[0]] + rest[1..]
  }

  function DropTrailingEmpty(parts: seq<string>): (r: seq<string>)
    ensures |r| <= |parts| && r == parts[..|r|]
    ensures r == [] || r[|r| - 1] != ""
  {
    if |parts| > 0 && parts[|parts| - 1] == "" then DropTrailingEmpty(parts[..|parts| - 1])
    else parts
  }

  /**
   * Java's `s.split(regex)` for a regex matching the single character c:
   * the whole string when c does not occur, otherwise the pieces with the
   * trailing empty ones removed.
   */
  function JavaSplit(s: string, c: char): (parts: seq<string>)
    ensures c !in s ==> parts == [s]
  {
    if c !in s then [s] else DropTrailingEmpty(SplitOn(s, c))
  }

  lemma {:induction false} SplitOnNoSeparator(p: string, c: char)
    requires c !in p
    ensures SplitOn(p, c) == [p]
  {
    if |p| > 0 {
      SplitOnNoSeparator(p[1..], c);
      assert [p[0]] + p[1..] == p;
    }
  }

  lemma {:induction false} SplitOnPiece(p: string, c: char, r: string)
    requires c !in p
    ensures SplitOn(p + [c] + r, c) == [p] + SplitOn(r, c)
  {
    var s := p + [c] + r;
    if |p| == 0 {
      assert s[1..] == r;
    } else {
      assert s[1..] == p[1..] + [c] + r;
      SplitOnPiece(p[1..], c, r);
      assert [p[0]] + p[1..] == p;
    }
  }

  /** Two separator-free pieces joined by the separator split back into both. */
  lemma SplitTwo(a: string, b: string, c: char)
    requires c !in a && c !in b
    ensures SplitOn(a + [c] + b, c) == [a, b]
  {
    SplitOnPiece(a, c, b);
    SplitOnNoSeparator(b, c);
  }

  /** Splitting a join undoes it when no piece holds the separator. */
  lemma {:induction false} SplitJoin(parts: seq<string>, c: char)
    requires |parts| >= 1
    requires forall i :: 0 <= i < |parts| ==> c !in parts[i]
    ensures SplitOn(Join(parts, [c]), c) == parts
  {
    if |parts| == 1 {
      SplitOnNoSeparator(parts[0], c);
    } else {
      SplitJoin(parts[1..], c);
      SplitOnPiece(parts[0], c, Join(parts[1..], [c]));
      assert [parts[0]] + parts[1..] == parts;
    }
  }

  lemma JoinHasSeparator(parts: seq<string>, c: char)
    requires |parts| >= 2
    ensures c in Join(parts, [c])
  {
    assert Join(parts, [c])[|parts[0]|] == c;
  }

  /** Java's split undoes a join of non-empty pieces free of the separator. */
  lemma JavaSplitJoin(parts: seq<string>, c: char)
    requires |parts| >= 1
    requires forall i :: 0 <= i < |parts| ==> c !in parts[i] && parts[i] != ""
    ensures JavaSplit(Join(parts, [c]), c) == parts
  {
    if |parts| == 1 {
    } else {
      JoinHasSeparator(parts, c);
      SplitJoin(parts, c);
    }
  }

  /** Joining the pieces of a split gives back the text. */
  lemma {:induction false} JoinSplit(s: string, c: char)
    ensures Join(SplitOn(s, c), [c]) == s
    decreases |s|
  {
    if |s| > 0 {
      JoinSplit(s[1..], c);
      var rest := SplitOn(s[1..], c);
      if s[0] == c {
        assert ([""] + rest)[1..] == rest;
      } else if |rest| >= 2 {
        assert ([[s[0]] + rest[0]] + rest[1..])[1..] == rest[1..];
        assert Join(rest, [c]) == rest[0] + [c] + Join(rest[1..], [c]);
      }
      assert [s[0]] + s[1..] == s;
    }
  }

  /** A split yields one piece exactly when the separator does not occur. */
  lemma {:induction false} SplitOnSingle(s: string, c: char)
    ensures |SplitOn(s, c)| == 1 <==> c !in s
    decreases |s|
  {
    if |s| > 0 {
      SplitOnSingle(s[1..], c);
      assert s == [s[0]] + s[1..];
    }
  }

  /** Joining two non-empty runs of pieces puts one separator between their joins. */
  lemma {:induction false} JoinAppend(a: seq<string>, b: seq<string>, sep: string)
    requires |a| >= 1 && |b| >= 1
    ensures Join(a + b, sep) == Join(a, sep) + sep + Join(b, sep)
    decreases |a|
  {
    if |a| == 1 {
      assert (a + b)[1..] == b;
    } else {
      JoinAppend(a[1..], b, sep);
      assert (a + b)[1..] == a[1..] + b;
    }
  }

  /** Appending one more piece adds the separator only when there was a piece already. */
  lemma {:induction false} JoinSnoc(parts: seq<string>, p: string, sep: string)
    ensures Join(parts + [p], sep) == if parts == [] then p else Join(parts, sep) + sep + p
    decreases |parts|
  {
    if |parts| >= 2 {
      JoinSnoc(parts[1..], p, sep);
      assert (parts + [p])[1..] == parts[1..] + [p];
    } else if |parts| == 1 {
      assert (parts + [p])[1..] == [p];
    }
  }

  /** A join of non-empty pieces is empty exactly when there are no pieces. */
  lemma {:induction false} JoinEmpty(parts: seq<string>, sep: string)
    requires forall i :: 0 <= i < |parts| ==> |parts[i]| > 0
    ensures Join(parts, sep) == "" <==> parts == []
  {
    if |parts| >= 2 {
      assert |Join(parts, sep)| >= |parts[0]|;
    }
  }
  /** The first piece of SplitOn is the text before the first separator. */
  lemma {:induction false} SplitOnHead(s: string, c: char)
    ensures IsPrefix(SplitOn(s, c)[0], s)
    ensures |SplitOn(s, c)[0]| < |s| ==> s[|SplitOn(s, c)[0]|] == c
    decreases |s|
  {
    if |s| > 0 && s[0] != c {
      SplitOnHead(s[1..], c);
      var h := SplitOn(s[1..], c)[0];
      assert SplitOn(s, c)[0] == [s[0]] + h;
      assert s[..|h| + 1] == [s[0]] + s[1..][..|h|];
    }
  }

  /** Dropping the trailing empty pieces leaves nothing exactly when every piece is empty. */
  lemma {:induction false} DropAllEmpty(parts: seq<string>)
    ensures DropTrailingEmpty(parts) == [] <==> forall i :: 0 <= i < |parts| ==> parts[i] == ""
    decreases |parts|
  {
    if |parts| > 0 && parts[|parts| - 1] == "" {
      var init := parts[..|parts| - 1];
      DropAllEmpty(init);
      assert forall i :: 0 <= i < |init| ==> init[i] == parts[i];
    }
  }

  /** Every piece of SplitOn is empty exactly when every character is the separator. */
  lemma {:induction false} SplitOnAllEmpty(s: string, c: char)
    ensures (forall i :: 0 <= i < |SplitOn(s, c)| ==> SplitOn(s, c)[i] == "")
            <==> (forall k :: 0 <= k < |s| ==> s[k] == c)
    decreases |s|
  {
    if |s| > 0 {
      SplitOnAllEmpty(s[1..], c);
      var rest := SplitOn(s[1..], c);
      if s[0] == c {
        assert SplitOn(s, c) == [""] + rest;
        assert forall i :: 0 <= i < |rest| ==> (["" ] + rest)[i + 1] == rest[i];
        assert forall k :: 0 < k < |s| ==> s[k] == s[1..][k - 1];
      } else {
        assert SplitOn(s, c)[0] != "";
      }
    }
  }

  /**
   * `s.split(c)[0]` for a one-character separator: the text before the
   * first c, or None where Java's split is empty (s is non-empty and made
   * only of separators) and the indexing throws.
   */
  function SplitHead(s: string, c: char): (r: Option<string>)
    ensures r.None? <==> s != [] && forall i :: 0 <= i < |s| ==> s[i] == c
    ensures r.Some? ==> IsPrefix(r.value, s) && c !in r.value && (|r.value| < |s| ==> s[|r.value|] == c)
  {
    var parts := JavaSplit(s, c);
    SplitOnHead(s, c);
    DropAllEmpty(SplitOn(s, c));
    SplitOnAllEmpty(s, c);
    if parts == [] then None else Some(parts[0])
  }
}
