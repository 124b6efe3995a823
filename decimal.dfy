/** Decimal text of integers: `str(i)` and the base-10 `int(s)` (for ASCII
    text: surrounding whitespace, an optional sign, digits that single
    underscores may group), both bounded by CPython's limit on the digits of
    an integer-string conversion. */
module Decimal {
  import opened Outcomes
  import opened Arithmetic

  /** CPython's default `sys.get_int_max_str_digits()`: `str()` of an integer
      with more decimal digits, and `int()` of text with more digits (the
      underscores not counted), raise `ValueError`. */
  const MaxStrDigits: nat := 4300

  predicate IsDigit(c: char)
  {
    '0' <= c <= '9'
  }

  predicate AllDigits(s: string)
  {
    forall k :: 0 <= k < |s| ==> IsDigit(s[k])
  }

  function DigitChar(d: nat): (c: char)
    requires d < 10
    ensures IsDigit(c)
  {
    ('0' as int + d) as char
  }

  function DigitValue(c: char): nat
    requires IsDigit(c)
  {
    c as int - '0' as int
  }

  /** The value of a string of decimal digits, most significant first. */
  function DigitsValue(s: string): nat
    requires AllDigits(s)
  {
    if s == [] then 0 else DigitsValue(s[..|s| - 1]) * 10 + DigitValue(s[|s| - 1])
  }

  /** `str(n)` for `n >= 0`: a non-empty digit string without a leading zero
      whose value is `n`. */
  function NatToDecimal(n: nat): (s: string)
    ensures s != [] && AllDigits(s)
    ensures DigitsValue(s) == n
    ensures |s| > 1 ==> s[0] != '0'
  {
    if n < 10 then [DigitChar(n)]
    else
      var s := NatToDecimal(n / 10) + [DigitChar(n % 10)];
      assert s[..|s| - 1] == NatToDecimal(n / 10);
      s
  }

  /** `str(i)`: a minus sign before the digits of `-i` when `i` is negative;
      `None` stands for the `ValueError` raised when there are more digits
      than the limit allows. */
  function IntToDecimal(i: int): Option<string>
  {
    var digits := NatToDecimal(if i < 0 then -i else i);
    if |digits| > MaxStrDigits then None
    else Some(if i < 0 then "-" + digits else digits)
  }

  /** The ASCII whitespace `int()` ignores around its argument. */
  predicate IsSpace(c: char)
  {
    c == ' ' || '\t' <= c <= '\r'
  }

  function StripLeading(s: string): string
  {
    if s != [] && IsSpace(s[0]) then StripLeading(s[1..]) else s
  }

  function StripTrailing(s: string): string
  {
    if s != [] && IsSpace(s[|s| - 1]) then StripTrailing(s[..|s| - 1]) else s
  }

  /** `s.strip()` for ASCII whitespace. */
  function Strip(s: string): string
  {
    StripTrailing(StripLeading(s))
  }

  /** Digits in which every underscore stands between two digits, as in `1_000`. */
  predicate IsDigitRun(s: string)
  {
    && s != []
    && (forall k :: 0 <= k < |s| ==> IsDigit(s[k]) || s[k] == '_')
    && (forall k :: 0 <= k < |s| && s[k] == '_' ==> 0 < k < |s| - 1 && IsDigit(s[k - 1]) && IsDigit(s[k + 1]))
  }

  function RemoveUnderscores(s: string): (r: string)
    requires forall k :: 0 <= k < |s| ==> IsDigit(s[k]) || s[k] == '_'
    ensures AllDigits(r)
    ensures AllDigits(s) ==> r == s
  {
    if s == [] then []
    else (if s[0] == '_' then [] else [s[0]]) + RemoveUnderscores(s[1..])
  }

  /** The unsigned part of `int(s)`: a digit run of at most `MaxStrDigits`
      digits. */
  function ParseDigits(t: string): Option<nat>
  {
    if IsDigitRun(t) then
      var digits := RemoveUnderscores(t);
      if |digits| > MaxStrDigits then None else Some(DigitsValue(digits))
    else None
  }

  /** `int(s)`; `None` stands for the `ValueError` it raises. */
  function ParseInt(s: string): Option<int>
  {
    var t := Strip(s);
    if t != [] && (t[0] == '+' || t[0] == '-') then
      match ParseDigits(t[1..])
      case None => None
      case Some(v) =>
        var i: int := v;
        Some(if t[0] == '-' then -i else i)
    else
      match ParseDigits(t)
      case None => None
      case Some(v) => Some(v)
  }

  lemma DigitsAreRun(s: string)
    requires s != [] && AllDigits(s)
    ensures IsDigitRun(s) && RemoveUnderscores(s) == s
  {
  }

  /** Text that neither starts nor ends with whitespace is not stripped. */
  lemma StripUnchanged(s: string)
    requires s != [] && !IsSpace(s[0]) && !IsSpace(s[|s| - 1])
    ensures Strip(s) == s
  {
    assert StripLeading(s) == s;
  }

  /** `int(str(n))` for a digit string within the limit: no whitespace to
      strip and no sign. */
  lemma ParseNatDecimal(n: nat)
    requires |NatToDecimal(n)| <= MaxStrDigits
    ensures ParseInt(NatToDecimal(n)) == Some(n)
  {
    var s := NatToDecimal(n);
    StripUnchanged(s);
    DigitsAreRun(s);
  }

  /** Round trip of the decimal text: `int(str(i)) == i` for every integer
      that `str` accepts. */
  lemma DecimalRoundTrip(i: int)
    ensures IntToDecimal(i).Some? ==> ParseInt(IntToDecimal(i).value) == Some(i)
  {
    if IntToDecimal(i).None? {
    } else if i < 0 {
      var s := IntToDecimal(i).value;
      var d := NatToDecimal(-i);
      assert s == "-" + d;
      assert s[1..] == d;
      assert s[|s| - 1] == d[|d| - 1];
      StripUnchanged(s);
      DigitsAreRun(d);
      assert DigitsValue(RemoveUnderscores(s[1..])) == -i;
    } else {
      ParseNatDecimal(i);
    }
  }

  /** `int()` refuses a digit string longer than the limit, whatever its
      value. */
  lemma ParseRejectsLong(s: string)
    requires AllDigits(s) && |s| > MaxStrDigits
    ensures ParseInt(s) == None
  {
    StripUnchanged(s);
    DigitsAreRun(s);
  }

  /** `10^k - 1` has `k` digits and `10^k` has `k + 1`. */
  lemma {:induction false} PowerOfTenDigits(k: nat)
    requires k > 0
    ensures Pow(10, k) > 1
    ensures |NatToDecimal(Pow(10, k) - 1)| == k
    ensures |NatToDecimal(Pow(10, k))| == k + 1
    decreases k
  {
    if k > 1 {
      PowerOfTenDigits(k - 1);
      var p := Pow(10, k - 1);
      DivUnique(Pow(10, k) - 1, 10, p - 1, 9);
      DivUnique(Pow(10, k), 10, p, 0);
    }
  }

  /** The limit is reached: `str(10**4300 - 1)` succeeds and
      `str(10**4300)` raises. */
  lemma LimitBoundary()
    ensures IntToDecimal(Pow(10, MaxStrDigits) - 1).Some?
    ensures IntToDecimal(Pow(10, MaxStrDigits)).None?
  {
    PowerOfTenDigits(MaxStrDigits);
  }

  /** A number below `2^k` has at most `k` decimal digits. */
  lemma {:induction false} DigitsBelowPowerOfTwo(n: nat, k: nat)
    requires k > 0 && n < Pow(2, k)
    ensures |NatToDecimal(n)| <= k
    decreases n
  {
    if n >= 10 {
      assert k > 1;
      assert n / 10 < Pow(2, k - 1);
      DigitsBelowPowerOfTwo(n / 10, k - 1);
    }
  }
}
