/**
 The string primitives of JavaScript that the storefront relies on:
 `String.prototype.trim`, ASCII `toLowerCase`, `Number.prototype.toString`
 for integers and `parseInt` without a radix.
 */
module Text {
  import opened Wrappers

  /** The characters `trim` and `parseInt` skip: the ECMAScript WhiteSpace
      and LineTerminator code points. */
  predicate IsSpace(c: char) {
    var n := c as int;
    || (0x09 <= n <= 0x0D) || n == 0x20 || n == 0xA0 || n == 0x1680
    || (0x2000 <= n <= 0x200A) || n == 0x2028 || n == 0x2029
    || n == 0x202F || n == 0x205F || n == 0x3000 || n == 0xFEFF
  }

  /** Every character of `s` is white space (vacuously true of ""). */
  predicate IsBlank(s: string) {
    forall i :: 0 <= i < |s| ==> IsSpace(s[i])
  }

  /** The first position at or after `k` that holds no white space, or
      `|s|` when there is none. */
  function TextStart(s: string, k: nat): (i: nat)
    requires k <= |s|
    ensures k <= i <= |s|
    ensures forall j :: k <= j < i ==> IsSpace(s[j])
    ensures i < |s| ==> !IsSpace(s[i])
    decreases |s| - k
  {
    if k == |s| || !IsSpace(s[k]) then k else TextStart(s, k + 1)
  }

  /** The position just past the last character before `k`, and not before
      `lo`, that is not white space; `lo` when there is none. */
  function TextEnd(s: string, lo: nat, k: nat): (j: nat)
    requires lo <= k <= |s|
    ensures lo <= j <= k
    ensures forall m :: j <= m < k ==> IsSpace(s[m])
    ensures j > lo ==> !IsSpace(s[j - 1])
    decreases k
  {
    if k == lo || !IsSpace(s[k - 1]) then k else TextEnd(s, lo, k - 1)
  }

  /** `s.trim()`: a contiguous piece of `s` that neither starts nor ends
      with white space, and outside of which `s` holds only white space. */
  function Trim(s: string): (r: string)
    ensures var i := TextStart(s, 0);
      && i + |r| <= |s| && r == s[i..i + |r|]
      && (forall k :: 0 <= k < i ==> IsSpace(s[k]))
      && (forall k :: i + |r| <= k < |s| ==> IsSpace(s[k]))
    ensures r == [] || (!IsSpace(r[0]) && !IsSpace(r[|r| - 1]))
  {
    var i := TextStart(s, 0);
    var j := TextEnd(s, i, |s|);
    assert i < |s| ==> j > i;
    s[i..j]
  }

  /** A field is empty after trimming exactly when it is blank. */
  lemma TrimEmptyIffBlank(s: string)
    ensures Trim(s) == "" <==> IsBlank(s)
  {
    var r := Trim(s);
    var i := TextStart(s, 0);
    if r != "" {
      assert r[0] == s[i];
    }
  }

  /** ASCII `toLowerCase` (the only letters the storefront lower-cases are
      ASCII category labels). */
  function LowerChar(c: char): (r: char)
    ensures 'A' <= c <= 'Z' ==> 'a' <= r <= 'z'
    ensures !('A' <= c <= 'Z') ==> r == c
  {
    if 'A' <= c <= 'Z' then (c as int + 32) as char else c
  }

  function ToLower(s: string): (r: string)
    ensures |r| == |s|
    ensures forall i :: 0 <= i < |s| ==> r[i] == LowerChar(s[i])
  {
    if |s| == 0 then "" else [LowerChar(s[0])] + ToLower(s[1..])
  }

  /** A string with no upper-case ASCII letter is its own lower case. */
  lemma {:induction false} ToLowerIdentity(s: string)
    requires forall i :: 0 <= i < |s| ==> !('A' <= s[i] <= 'Z')
    ensures ToLower(s) == s
  {
    if |s| > 0 {
      ToLowerIdentity(s[1..]);
    }
  }

  predicate IsDigit(c: char) {
    '0' <= c <= '9'
  }

  /** The value of `c` as a digit in any base up to 36: '0'..'9' are 0..9,
      'a'..'z' and 'A'..'Z' are 10..35; any other character gets 36, a
      digit in no base. */
  function DigitValue(c: char): (d: nat)
    ensures d <= 36
    ensures IsDigit(c) <==> d < 10
  {
    if '0' <= c <= '9' then c as int - '0' as int
    else if 'a' <= c <= 'z' then c as int - 'a' as int + 10
    else if 'A' <= c <= 'Z' then c as int - 'A' as int + 10
    else 36
  }

  predicate IsDigitIn(c: char, radix: nat) {
    DigitValue(c) < radix
  }

  predicate AllDigitsIn(s: string, radix: nat) {
    forall i :: 0 <= i < |s| ==> IsDigitIn(s[i], radix)
  }

  function DigitChar(d: nat): (c: char)
    requires d < 10
    ensures IsDigit(c) && DigitValue(c) == d
  {
    ('0' as int + d) as char
  }

  /** The value of a string of digits in base `radix`, most significant
      first. */
  function DigitsValue(s: string, radix: nat): nat
    requires AllDigitsIn(s, radix)
  {
    if |s| == 0 then 0
    else DigitsValue(s[..|s| - 1], radix) * radix + DigitValue(s[|s| - 1])
  }

  /** `n.toString()` for a natural number: no leading zeros. */
  function NatToString(n: nat): (r: string)
    ensures |r| > 0 && AllDigitsIn(r, 10)
    ensures |r| > 1 ==> r[0] != '0'
    decreases n
  {
    if n < 10 then [DigitChar(n)]
    else
      var r := NatToString(n / 10) + [DigitChar(n % 10)];
      assert r[0] == NatToString(n / 10)[0];
      r
  }

  /** `v.toString()` for an integer. */
  function IntToString(v: int): string {
    if v < 0 then "-" + NatToString(-v) else NatToString(v)
  }

  /** The longest prefix of `s` made of digits in base `radix`. */
  function DigitPrefix(s: string, radix: nat): (r: string)
    ensures |r| <= |s| && AllDigitsIn(r, radix) && r == s[..|r|]
    ensures |r| == |s| || !IsDigitIn(s[|r|], radix)
  {
    if |s| > 0 && IsDigitIn(s[0], radix) then
      var t := DigitPrefix(s[1..], radix);
      assert s[..|t| + 1] == [s[0]] + s[1..][..|t|];
      [s[0]] + t
    else ""
  }

  /** A "0x" or "0X" prefix, which makes `parseInt` without a radix read
      base 16. */
  predicate HexPrefixed(s: string) {
    |s| >= 2 && s[0] == '0' && (s[1] == 'x' || s[1] == 'X')
  }

  /** `parseInt(s)` with no radix argument: skip leading white space, read
      an optional sign, then base 16 after a "0x"/"0X" prefix and base 10
      otherwise, taking the longest run of digits of that base; `None` is
      `NaN` (no digit in the run). */
  function ParseInt(s: string): (r: Option<int>)
    ensures |s| == 0 ==> r.None?
    ensures |s| > 0 && !IsSpace(s[0]) && s[0] != '-' && s[0] != '+' && !IsDigit(s[0]) ==> r.None?
    ensures |s| > 0 && IsDigit(s[0]) && !HexPrefixed(s) ==> r.Some? && r.value >= 0
    ensures |s| > 0 && s[0] != '-' && !IsSpace(s[0]) && r.Some? ==> r.value >= 0
  {
    var t := s[TextStart(s, 0)..];
    var negative := |t| > 0 && t[0] == '-';
    var body := if |t| > 0 && (t[0] == '-' || t[0] == '+') then t[1..] else t;
    var radix := if HexPrefixed(body) then 16 else 10;
    var digits := DigitPrefix(if HexPrefixed(body) then body[2..] else body, radix);
    if |digits| == 0 then None
    else if negative then Some(-(DigitsValue(digits, radix) as int))
    else Some(DigitsValue(digits, radix))
  }

  lemma {:induction false} NatToStringValue(n: nat)
    ensures DigitsValue(NatToString(n), 10) == n
    decreases n
  {
    if n >= 10 {
      var r := NatToString(n);
      NatToStringValue(n / 10);
      assert r[..|r| - 1] == NatToString(n / 10);
    }
  }

  lemma AllDigitsPrefix(s: string, radix: nat)
    requires AllDigitsIn(s, radix)
    ensures DigitPrefix(s, radix) == s
  {
  }

  /** `parseInt(v.toString())` gives `v` back: `toString` never writes a
      hex prefix. */
  lemma ParseIntOfIntToString(v: int)
    ensures ParseInt(IntToString(v)) == Some(v)
  {
    var s := IntToString(v);
    var m := if v < 0 then -v else v;
    var digits := NatToString(m);
    NatToStringValue(m);
    AllDigitsPrefix(digits, 10);
    assert !IsSpace(s[0]);
    assert TextStart(s, 0) == 0;
    assert !HexPrefixed(digits);
    if v < 0 {
      assert s[1..] == digits;
    } else {
      assert s[0] != '-' && s[0] != '+';
    }
  }

  /** Without a radix, a "0x" prefix switches to base 16 and an empty hex
      run is `NaN`; a leading zero alone does not mean octal. */
  lemma ParseIntRadixExamples()
    ensures ParseInt("0x10") == Some(16)
    ensures ParseInt("0X1f") == Some(31)
    ensures ParseInt("-0x2") == Some(-2)
    ensures ParseInt("0x") == None
    ensures ParseInt("0xg") == None
    ensures ParseInt("010") == Some(10)
    ensures ParseInt(" 12abc") == Some(12)
  {
    HexTen();
    HexOneF();
    HexNegativeTwo();
    HexEmptyRuns();
    LeadingZeroDecimal();
    LeadingSpaceAndTrailingText();
  }

  lemma HexTen()
    ensures ParseInt("0x10") == Some(16)
  {
    assert TextStart("0x10", 0) == 0 && "0x10"[0..] == "0x10" && "0x10"[2..] == "10";
    assert "10"[1..] == "0" && DigitPrefix("10", 16) == "10";
    assert "10"[..1] == "1" && DigitsValue("1", 16) == 1;
  }

  lemma HexOneF()
    ensures ParseInt("0X1f") == Some(31)
  {
    assert TextStart("0X1f", 0) == 0 && "0X1f"[0..] == "0X1f" && "0X1f"[2..] == "1f";
    assert "1f"[1..] == "f" && DigitPrefix("1f", 16) == "1f";
    assert "1f"[..1] == "1" && DigitsValue("1", 16) == 1;
  }

  lemma HexNegativeTwo()
    ensures ParseInt("-0x2") == Some(-2)
  {
    assert TextStart("-0x2", 0) == 0 && "-0x2"[0..] == "-0x2" && "-0x2"[1..] == "0x2" && "0x2"[2..] == "2";
    assert DigitPrefix("2", 16) == "2";
  }

  lemma HexEmptyRuns()
    ensures ParseInt("0x") == None
    ensures ParseInt("0xg") == None
  {
    assert TextStart("0x", 0) == 0 && "0x"[0..] == "0x" && "0x"[2..] == "";
    assert TextStart("0xg", 0) == 0 && "0xg"[0..] == "0xg" && "0xg"[2..] == "g";
    assert DigitPrefix("g", 16) == "";
  }

  lemma LeadingZeroDecimal()
    ensures ParseInt("010") == Some(10)
  {
    assert TextStart("010", 0) == 0 && "010"[0..] == "010";
    assert "010"[1..] == "10" && "10"[1..] == "0" && DigitPrefix("010", 10) == "010";
    assert "010"[..2] == "01" && "01"[..1] == "0";
  }

  lemma LeadingSpaceAndTrailingText()
    ensures ParseInt(" 12abc") == Some(12)
  {
    var s := " 12abc";
    assert IsSpace(s[0]) && !IsSpace(s[1]);
    assert TextStart(s, 1) == 1;
    assert TextStart(s, 0) == 1;
    var t := s[1..];
    assert t == "12abc" && !HexPrefixed(t) && t[0] != '-' && t[0] != '+';
    assert DigitPrefix("abc", 10) == "";
    assert "12abc"[1..] == "2abc" && "2abc"[1..] == "abc";
    assert DigitPrefix("2abc", 10) == "2";
    assert DigitPrefix(t, 10) == "12";
    assert "12"[..1] == "1" && DigitsValue("12", 10) == 12;
  }
}
