/**
 * The pieces of Python's string handling that the menu extractor, the
 * result formatter and the cafeteria list rely on: `str.isspace`,
 * `str.strip`, the `in` operator on strings, `int()` on text, `str()` on
 * integers, the regular expression `(\d+)` and the ordering of strings.
 * Digits are the ASCII digits only.
 */
module Text {
  import opened Wrappers

  /** Python's `str.isspace()` on one character: exactly the characters `str.strip()` removes. */
  predicate IsSpace(c: char) {
    ('\t' <= c <= '\r') || ('\U{1C}' <= c <= ' ') || c == '\U{85}' || c == '\U{A0}'
    || c == '\U{1680}' || ('\U{2000}' <= c <= '\U{200A}') || c == '\U{2028}' || c == '\U{2029}'
    || c == '\U{202F}' || c == '\U{205F}' || c == '\U{3000}'
  }

  /** Neither end of `s` is whitespace. */
  predicate IsStripped(s: string) {
    s == [] || (!IsSpace(s[0]) && !IsSpace(s[|s| - 1]))
  }

  /**
   * The characters `int()` skips around a number: ASCII whitespace, and
   * the non-ASCII characters `str.isspace` accepts. U+001C to U+001F are
   * whitespace to `str.strip()` but not to `int()`.
   */
  predicate IsIntSpace(c: char) {
    c == ' ' || ('\t' <= c <= '\r') || (c >= '\U{80}' && IsSpace(c))
  }

  /** Whitespace to `str.strip()`, or, when `forInt` holds, to `int()`. */
  predicate Blank(c: char, forInt: bool) {
    if forInt then IsIntSpace(c) else IsSpace(c)
  }

  /** The index of the first character of `s` at or after `i` that is not blank, or `|s|`. */
  function SkipSpaces(s: string, i: nat, forInt: bool): (n: nat)
    requires i <= |s|
    ensures i <= n <= |s|
    ensures n == |s| || !Blank(s[n], forInt)
    ensures forall k :: i <= k < n ==> Blank(s[k], forInt)
    decreases |s| - i
  {
    if i < |s| && Blank(s[i], forInt) then SkipSpaces(s, i + 1, forInt) else i
  }

  /** The end of `s[lo..j]` once the blank characters at its end are dropped. */
  function SkipSpacesBack(s: string, lo: nat, j: nat, forInt: bool): (n: nat)
    requires lo <= j <= |s|
    ensures lo <= n <= j
    ensures n == lo || !Blank(s[n - 1], forInt)
    ensures forall k :: n <= k < j ==> Blank(s[k], forInt)
    decreases j
  {
    if lo < j && Blank(s[j - 1], forInt) then SkipSpacesBack(s, lo, j - 1, forInt) else j
  }

  /** Number of whitespace characters at the start of `s`. */
  function LeadingSpaces(s: string): (n: nat)
    ensures n <= |s|
  {
    SkipSpaces(s, 0, false)
  }

  /**
   * Python's `s.strip()`: the slice of `s` left after removing the
   * whitespace at both ends. It is empty exactly when `s` is all
   * whitespace, and it leaves a stripped string alone.
   */
  function Strip(s: string): (r: string)
    ensures IsStripped(r)
    ensures LeadingSpaces(s) + |r| <= |s| && r == s[LeadingSpaces(s)..LeadingSpaces(s) + |r|]
    ensures forall k :: 0 <= k < LeadingSpaces(s) ==> IsSpace(s[k])
    ensures forall k :: LeadingSpaces(s) + |r| <= k < |s| ==> IsSpace(s[k])
    ensures r == [] <==> forall k :: 0 <= k < |s| ==> IsSpace(s[k])
    ensures IsStripped(s) ==> r == s
  {
    var a := SkipSpaces(s, 0, false);
    var b := SkipSpacesBack(s, a, |s|, false);
    assert a < |s| ==> a < b;
    s[a..b]
  }

  /**
   * The text `int()` reads: `s` without the `IsIntSpace` characters at
   * both ends. A string with no such character at either end is read whole.
   */
  function IntStrip(s: string): (r: string)
    ensures |r| <= |s|
    ensures r == [] || (!IsIntSpace(r[0]) && !IsIntSpace(r[|r| - 1]))
    ensures (s == [] || (!IsIntSpace(s[0]) && !IsIntSpace(s[|s| - 1]))) ==> r == s
  {
    var a := SkipSpaces(s, 0, true);
    var b := SkipSpacesBack(s, a, |s|, true);
    assert a < |s| ==> a < b;
    s[a..b]
  }

  predicate StartsWith(s: string, prefix: string) {
    |prefix| <= |s| && s[..|prefix|] == prefix
  }

  /** Python's `sub in s` on two strings. */
  predicate Contains(s: string, sub: string)
    decreases |s|
  {
    StartsWith(s, sub) || (s != [] && Contains(s[1..], sub))
  }

  /** `sub` occurs in `s` starting at index `i`. */
  predicate OccursAt(s: string, sub: string, i: int) {
    0 <= i && i + |sub| <= |s| && s[i..i + |sub|] == sub
  }

  /** `Contains` finds exactly the substrings of `s`: those that occur at some position. */
  lemma {:induction false} ContainsIffOccurs(s: string, sub: string)
    ensures Contains(s, sub) <==> exists i :: OccursAt(s, sub, i)
    decreases |s|
  {
    if StartsWith(s, sub) {
      assert OccursAt(s, sub, 0);
    }
    if s != [] {
      ContainsIffOccurs(s[1..], sub);
      if Contains(s[1..], sub) {
        var i :| OccursAt(s[1..], sub, i);
        assert s[i + 1..i + 1 + |sub|] == s[1..][i..i + |sub|];
        assert OccursAt(s, sub, i + 1);
      }
      if exists i :: OccursAt(s, sub, i) {
        var i :| OccursAt(s, sub, i);
        if i > 0 {
          assert s[1..][i - 1..i - 1 + |sub|] == s[i..i + |sub|];
          assert OccursAt(s[1..], sub, i - 1);
        } else {
          assert StartsWith(s, sub);
        }
      }
    } else {
      if exists i :: OccursAt(s, sub, i) {
        var i :| OccursAt(s, sub, i);
        assert StartsWith(s, sub);
      }
    }
  }

  /** A string contains only strings made of its own characters. */
  lemma {:induction false} ContainsOnlyItsChars(s: string, sub: string, k: nat)
    requires Contains(s, sub) && k < |sub|
    ensures sub[k] in s
    decreases |s|
  {
    if StartsWith(s, sub) {
      assert s[k] == sub[k];
    } else {
      ContainsOnlyItsChars(s[1..], sub, k);
      assert s[1..] <= s[1..];
      assert forall c :: c in s[1..] ==> c in s;
    }
  }

  predicate IsDigit(c: char) {
    '0' <= c <= '9'
  }

  predicate AllDigits(s: string) {
    forall k :: 0 <= k < |s| ==> IsDigit(s[k])
  }

  function DigitValue(c: char): (d: nat)
    requires IsDigit(c)
    ensures d < 10
  {
    c as int - '0' as int
  }

  function DigitChar(d: nat): (c: char)
    requires d < 10
    ensures IsDigit(c) && DigitValue(c) == d
  {
    (d + '0' as int) as char
  }

  /** The value of a run of decimal digits, most significant first. */
  function DigitsValue(s: string): nat
    requires AllDigits(s)
  {
    if s == [] then 0 else DigitsValue(s[..|s| - 1]) * 10 + DigitValue(s[|s| - 1])
  }

  /** Python's `int(s)` on an unsigned string: `None` stands for the ValueError of anything but a non-empty run of digits. */
  function ParseDigits(s: string): (r: Option<nat>)
    ensures r.Some? <==> s != [] && AllDigits(s)
  {
    if s != [] && AllDigits(s) then Some(DigitsValue(s)) else None
  }

  /**
   * Python's `int(s)` for a string: surrounding `IsIntSpace` characters
   * and one leading sign are accepted, then a non-empty run of ASCII
   * digits; anything else is the ValueError, here `None`.
   */
  function PyInt(s: string): Option<int>
  {
    var t := IntStrip(s);
    if t != [] && (t[0] == '+' || t[0] == '-') then
      match ParseDigits(t[1..])
      case None => None
      case Some(n) => var v: int := n; Some(if t[0] == '-' then -v else v)
    else
      match ParseDigits(t)
      case None => None
      case Some(n) => Some(n)
  }

  /** Python's `str(n)` for a natural number: its decimal digits, without leading zeros. */
  function NatToString(n: nat): (s: string)
    ensures s != [] && AllDigits(s)
    ensures s[0] == '0' ==> n == 0
  {
    if n < 10 then [DigitChar(n)] else NatToString(n / 10) + [DigitChar(n % 10)]
  }

  /** Python's `str(i)` (or an f-string field) for an integer. */
  function IntToString(i: int): (s: string)
    ensures s != [] && IsStripped(s)
    ensures s[0] == '-' <==> i < 0
  {
    if i < 0 then "-" + NatToString(-i) else NatToString(i)
  }

  /** Reading back the digits `NatToString` writes gives the number again. */
  lemma {:induction false} ParseNatToString(n: nat)
    ensures ParseDigits(NatToString(n)) == Some(n)
    decreases n
  {
    var s := NatToString(n);
    if n >= 10 {
      ParseNatToString(n / 10);
      assert s[..|s| - 1] == NatToString(n / 10);
      assert DigitsValue(s) == DigitsValue(NatToString(n / 10)) * 10 + n % 10;
    } else {
      assert s[..|s| - 1] == [];
    }
  }

  /** `int(str(i)) == i`: the integer formatter and parser are inverse. */
  lemma IntToStringRoundTrip(i: int)
    ensures PyInt(IntToString(i)) == Some(i)
  {
    var s := IntToString(i);
    if i < 0 {
      var d := NatToString(-i);
      ParseNatToString(-i);
      assert s[1..] == d;
      PyIntNegative(s, -i);
    } else {
      ParseNatToString(i);
      PyIntDigits(s, i);
    }
  }

  lemma PyIntNegative(s: string, n: nat)
    requires IsStripped(s) && s != [] && s[0] == '-' && ParseDigits(s[1..]) == Some(n)
    ensures PyInt(s) == Some(-(n as int))
  {
    assert !IsIntSpace(s[0]) && !IsIntSpace(s[|s| - 1]);
  }

  lemma PyIntDigits(s: string, n: nat)
    requires IsStripped(s) && ParseDigits(s) == Some(n)
    ensures PyInt(s) == Some(n)
  {
    assert IsDigit(s[0]) && !IsIntSpace(s[0]) && !IsIntSpace(s[|s| - 1]);
  }

  /** Index of the first digit of `s` at or after `from`, or |s| when there is none. */
  function FirstDigitFrom(s: string, from: nat): (i: nat)
    requires from <= |s|
    ensures from <= i <= |s|
    ensures forall k :: from <= k < i ==> !IsDigit(s[k])
    ensures i < |s| ==> IsDigit(s[i])
    decreases |s| - from
  {
    if from == |s| || IsDigit(s[from]) then from else FirstDigitFrom(s, from + 1)
  }

  /** End of the run of digits that starts at `from`. */
  function DigitRunEnd(s: string, from: nat): (j: nat)
    requires from <= |s|
    ensures from <= j <= |s|
    ensures forall k :: from <= k < j ==> IsDigit(s[k])
    ensures j < |s| ==> !IsDigit(s[j])
    decreases |s| - from
  {
    if from < |s| && IsDigit(s[from]) then DigitRunEnd(s, from + 1) else from
  }

  /**
   * `re.search(r"(\d+)", s)`: the bounds `(i, j)` of the leftmost longest
   * run of digits, or `None` when `s` holds no digit at all.
   */
  function SearchDigits(s: string): (r: Option<(nat, nat)>)
    ensures r.None? <==> forall k :: 0 <= k < |s| ==> !IsDigit(s[k])
    ensures r.Some? ==>
      && r.value.0 < r.value.1 <= |s|
      && (forall k :: 0 <= k < r.value.0 ==> !IsDigit(s[k]))
      && (forall k :: r.value.0 <= k < r.value.1 ==> IsDigit(s[k]))
      && (r.value.1 == |s| || !IsDigit(s[r.value.1]))
  {
    var i := FirstDigitFrom(s, 0);
    if i == |s| then None else Some((i, DigitRunEnd(s, i)))
  }

  predicate IsHexDigit(c: char) {
    IsDigit(c) || 'a' <= c <= 'f' || 'A' <= c <= 'F'
  }

  function HexDigitValue(c: char): (d: nat)
    requires IsHexDigit(c)
    ensures d < 16
  {
    if IsDigit(c) then DigitValue(c)
    else if 'a' <= c <= 'f' then c as int - 'a' as int + 10
    else c as int - 'A' as int + 10
  }

  /** Python's `int(s, 16)` on a plain run of hexadecimal digits; `None` for the ValueError. */
  function ParseHex(s: string): (r: Option<nat>)
    ensures r.Some? ==> s != []
    ensures s == [] ==> r.None?
  {
    if s == [] || exists k :: 0 <= k < |s| && !IsHexDigit(s[k]) then None
    else Some(HexValue(s))
  }

  function HexValue(s: string): nat
    requires forall k :: 0 <= k < |s| ==> IsHexDigit(s[k])
  {
    if s == [] then 0 else HexValue(s[..|s| - 1]) * 16 + HexDigitValue(s[|s| - 1])
  }

  /** Python's `a < b` on strings: lexicographic order of code points. */
  predicate Less(a: string, b: string)
    decreases |a|
  {
    if a == [] then b != []
    else if b == [] then false
    else if a[0] != b[0] then a[0] < b[0]
    else Less(a[1..], b[1..])
  }

  lemma {:induction false} LessIrreflexive(a: string)
    ensures !Less(a, a)
    decreases |a|
  {
    if a != [] {
      LessIrreflexive(a[1..]);
    }
  }

  lemma {:induction false} LessTransitive(a: string, b: string, c: string)
    requires Less(a, b) && Less(b, c)
    ensures Less(a, c)
    decreases |a|
  {
    if a != [] && b != [] && c != [] && a[0] == b[0] && b[0] == c[0] {
      LessTransitive(a[1..], b[1..], c[1..]);
    }
  }

  /** Any two different strings are ordered one way or the other. */
  lemma {:induction false} LessTotal(a: string, b: string)
    ensures a == b || Less(a, b) || Less(b, a)
    decreases |a|
  {
    if a != [] && b != [] && a[0] == b[0] {
      LessTotal(a[1..], b[1..]);
      if a[1..] == b[1..] {
        assert a == [a[0]] + a[1..] && b == [b[0]] + b[1..];
      }
    }
  }

  lemma {:induction false} LessAsymmetric(a: string, b: string)
    requires Less(a, b)
    ensures !Less(b, a)
    decreases |a|
  {
    if a != [] && b != [] && a[0] == b[0] {
      LessAsymmetric(a[1..], b[1..]);
    }
  }
}
