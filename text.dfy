/** String helpers: substring search (the model of SQL `LIKE '%term%'`),
    PHP's notion of a blank string, and the JavaScript number/string
    conversions the client stores depend on (`parseInt`, `String(n)`). */
module Text {
  import opened Wrappers

  /** `term` occurs somewhere in `s` (a case-sensitive substring test). */
  predicate Contains(s: string, term: string)
  {
    exists i :: 0 <= i <= |s| - |term| && OccursAt(s, term, i)
  }

  predicate OccursAt(s: string, term: string, i: int)
  {
    0 <= i && i + |term| <= |s| && s[i..i + |term|] == term
  }

  /** `LIKE '%term%'` on a nullable column: SQL NULL never matches. */
  predicate ColumnContains(column: Option<string>, term: string)
  {
    column.Some? && Contains(column.value, term)
  }

  /** The characters PHP's `trim` removes. */
  predicate IsTrimmed(c: char)
  {
    c == ' ' || c == '\t' || c == '\n' || c == '\r' || c == '\0' || c == '\U{000B}'
  }

  /** A string that is empty once trimmed; Laravel's `required` refuses it. */
  predicate IsBlank(s: string)
  {
    forall i :: 0 <= i < |s| ==> IsTrimmed(s[i])
  }

  // ---------------------------------------------------------------------
  // JavaScript `parseInt(s)` with no radix, and `String(n)` for integers.
  // ---------------------------------------------------------------------

  /** White space that `parseInt` skips before the number: the ECMAScript
      WhiteSpace characters (tab, vertical tab, form feed, the byte order
      mark and every Unicode space separator) and LineTerminators. */
  predicate IsJsSpace(c: char)
  {
    || c == '\t' || c == '\U{000B}' || c == '\U{000C}' || c == '\U{FEFF}'
    || c == '\n' || c == '\r' || c == '\U{2028}' || c == '\U{2029}'
    || IsSpaceSeparator(c)
  }

  /** The Unicode general category Zs. */
  predicate IsSpaceSeparator(c: char)
  {
    || c == ' ' || c == '\U{00A0}' || c == '\U{1680}'
    || ('\U{2000}' <= c <= '\U{200A}')
    || c == '\U{202F}' || c == '\U{205F}' || c == '\U{3000}'
  }

  function TrimStart(s: string): string
  {
    if |s| > 0 && IsJsSpace(s[0]) then TrimStart(s[1..]) else s
  }

  /** `TrimStart` drops exactly the leading white space. */
  lemma {:induction false} TrimStartDropsLeadingSpace(s: string)
    ensures var r := TrimStart(s);
      && |r| <= |s| && r == s[|s| - |r|..]
      && (|r| > 0 ==> !IsJsSpace(r[0]))
      && forall i :: 0 <= i < |s| - |r| ==> IsJsSpace(s[i])
  {
    if |s| > 0 && IsJsSpace(s[0]) {
      TrimStartDropsLeadingSpace(s[1..]);
    }
  }

  /** The value of `c` as a digit in base `radix` (10 or 16), if it is one. */
  function DigitValue(c: char, radix: nat): (r: Option<nat>)
    requires radix == 10 || radix == 16
    ensures r.Some? ==> r.value < radix
  {
    if '0' <= c <= '9' then Some(c as nat - '0' as nat)
    else if radix == 16 && 'a' <= c <= 'f' then Some(c as nat - 'a' as nat + 10)
    else if radix == 16 && 'A' <= c <= 'F' then Some(c as nat - 'A' as nat + 10)
    else None
  }

  predicate IsDigit(c: char, radix: nat)
    requires radix == 10 || radix == 16
  {
    DigitValue(c, radix).Some?
  }

  /** The length of the run of base-`radix` digits `s` starts with. */
  function DigitCount(s: string, radix: nat): (r: nat)
    requires radix == 10 || radix == 16
    ensures r <= |s|
  {
    if |s| > 0 && IsDigit(s[0], radix) then 1 + DigitCount(s[1..], radix) else 0
  }

  /** `DigitCount` measures the longest digit prefix. */
  lemma {:induction false} DigitCountIsLongest(s: string, radix: nat)
    requires radix == 10 || radix == 16
    ensures var n := DigitCount(s, radix);
      (forall i :: 0 <= i < n ==> IsDigit(s[i], radix)) && (n < |s| ==> !IsDigit(s[n], radix))
  {
    if |s| > 0 && IsDigit(s[0], radix) {
      DigitCountIsLongest(s[1..], radix);
    }
  }

  /** The value of a digit string, most significant digit first. */
  function DigitsValue(ds: string, radix: nat): nat
    requires radix == 10 || radix == 16
  {
    if |ds| == 0 then 0
    else
      var d := DigitValue(ds[|ds| - 1], radix);
      DigitsValue(ds[..|ds| - 1], radix) * radix + (if d.Some? then d.value else 0)
  }

  /** `parseInt(s)`: skip leading white space, read an optional sign, switch to
      base 16 after `0x`/`0X`, then read the longest digit prefix. `None`
      stands for `NaN`, which equals no number. */
  function ParseInt(s: string): Option<int>
  {
    var t := TrimStart(s);
    var u := Unsigned(t);
    var radix := Radix(u);
    var w := Unprefixed(u);
    var n := DigitCount(w, radix);
    if n == 0 then None
    else
      var v: int := DigitsValue(w[..n], radix);
      Some(if |t| > 0 && t[0] == '-' then -v else v)
  }

  /** Text that starts with a letter or a bracket parses as `NaN`. */
  lemma ParseIntOfWord(s: string)
    requires |s| > 0 && (('a' <= s[0] <= 'z') || s[0] == '[')
    ensures ParseInt(s) == None
  {
    assert !IsJsSpace(s[0]);
    assert TrimStart(s) == s;
    assert Unsigned(s) == s && !HasHexPrefix(s);
    assert !IsDigit(s[0], 10);
  }

  function Unsigned(t: string): string
  {
    if |t| > 0 && (t[0] == '-' || t[0] == '+') then t[1..] else t
  }

  predicate HasHexPrefix(u: string)
  {
    |u| >= 2 && u[0] == '0' && (u[1] == 'x' || u[1] == 'X')
  }

  function Radix(u: string): (r: nat)
    ensures r == 10 || r == 16
  {
    if HasHexPrefix(u) then 16 else 10
  }

  function Unprefixed(u: string): string
  {
    if HasHexPrefix(u) then u[2..] else u
  }

  function DecimalDigit(d: nat): (c: char)
    requires d < 10
    ensures IsDigit(c, 10) && DigitValue(c, 10) == Some(d)
  {
    ('0' as nat + d) as char
  }

  /** The decimal numeral of `n`, as `String(n)` writes it. */
  function NatToString(n: nat): (r: string)
    ensures |r| > 0
  {
    if n < 10 then [DecimalDigit(n)] else NatToString(n / 10) + [DecimalDigit(n % 10)]
  }

  function NumberToString(n: int): string
  {
    if n < 0 then "-" + NatToString(-n) else NatToString(n)
  }

  /** A numeral is made of decimal digits only. */
  lemma {:induction false} NatToStringDigits(n: nat)
    ensures forall i :: 0 <= i < |NatToString(n)| ==> IsDigit(NatToString(n)[i], 10)
  {
    if n >= 10 {
      NatToStringDigits(n / 10);
    }
  }

  /** A numeral reads back as the number it was written from. */
  lemma {:induction false} NatToStringValue(n: nat)
    ensures DigitsValue(NatToString(n), 10) == n
  {
    var s := NatToString(n);
    if n >= 10 {
      NatToStringValue(n / 10);
      assert s[..|s| - 1] == NatToString(n / 10);
    }
  }

  /** A string of digits is one digit run from end to end. */
  lemma {:induction false} DigitCountOfDigits(s: string, radix: nat)
    requires radix == 10 || radix == 16
    requires forall i :: 0 <= i < |s| ==> IsDigit(s[i], radix)
    ensures DigitCount(s, radix) == |s|
  {
    if |s| > 0 {
      DigitCountOfDigits(s[1..], radix);
    }
  }

  /** `parseInt(String(n)) === n` for every integer `n`: a record's id found
      through its own printed form is that record's id. */
  lemma ParseIntOfNumberToString(n: int)
    ensures ParseInt(NumberToString(n)) == Some(n)
  {
    var s := NumberToString(n);
    var m: nat := if n < 0 then -n else n;
    var digits := NatToString(m);
    NatToStringDigits(m);
    assert IsDigit(digits[0], 10);
    assert !IsJsSpace(s[0]);
    assert TrimStart(s) == s;
    assert Unsigned(s) == digits;
    assert !HasHexPrefix(digits) by {
      if |digits| >= 2 { assert IsDigit(digits[1], 10); }
    }
    DigitCountOfDigits(digits, 10);
    assert digits[..|digits|] == digits;
    NatToStringValue(m);
  }
}
