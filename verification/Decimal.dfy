/** Decimal text: `std::from_chars` on integer types, and the `{:d}` printer of unsigned numbers. */
module Decimal {
  /** Result of `std::from_chars`: a number, no digits at all, or digits that do not fit the type. */
  datatype Parsed = Number(value: int) | Invalid | OutOfRange

  const MAX_UINT64: int := 0xFFFF_FFFF_FFFF_FFFF
  const MAX_UINT32: int := 0xFFFF_FFFF
  const MAX_INT64: int := 0x7FFF_FFFF_FFFF_FFFF

  predicate IsDigit(c: char) { '0' <= c <= '9' }

  predicate AllDigits(s: string) { forall i :: 0 <= i < |s| ==> IsDigit(s[i]) }

  /** Number of leading digits. */
  function DigitCount(s: string): (n: nat)
    ensures n <= |s| && AllDigits(s[..n]) && (n < |s| ==> !IsDigit(s[n]))
  {
    if s == [] || !IsDigit(s[0]) then 0
    else
      var n := DigitCount(s[1..]);
      assert s[..n + 1] == [s[0]] + s[1..][..n];
      n + 1
  }

  /** The number that a row of digits denotes. */
  function Value(digits: string): nat
    requires AllDigits(digits)
  {
    if digits == [] then 0
    else 10 * Value(digits[..|digits| - 1]) + (digits[|digits| - 1] as int - '0' as int)
  }

  function FromDigits(s: string, negative: bool, lo: int, hi: int): Parsed {
    var n := DigitCount(s);
    if n == 0 then Invalid
    else
      var v := if negative then 0 - Value(s[..n]) else Value(s[..n]);
      if lo <= v <= hi then Number(v) else OutOfRange
  }

  /**
   `from_chars` for a type with the range `lo..hi`: a minus sign is read only for signed types; the rest is ignored.
   */
  function FromChars(s: string, lo: int, hi: int): Parsed {
    if lo < 0 && s != [] && s[0] == '-' then FromDigits(s[1..], true, lo, hi) else FromDigits(s, false, lo, hi)
  }

  /** The shortest decimal text of a natural number. */
  function Print(n: nat): (s: string)
    ensures s != [] && AllDigits(s)
  {
    if n < 10 then [('0' as int + n) as char] else Print(n / 10) + [('0' as int + n % 10) as char]
  }

  lemma {:induction false} ValueOfPrint(n: nat)
    ensures Value(Print(n)) == n
  {
    if n >= 10 {
      ValueOfPrint(n / 10);
      assert Print(n)[..|Print(n)| - 1] == Print(n / 10);
    }
  }

  lemma {:induction false} DigitCountOf(digits: string, rest: string)
    requires AllDigits(digits) && (rest != [] ==> !IsDigit(rest[0]))
    ensures DigitCount(digits + rest) == |digits|
  {
    if digits == [] {
      assert digits + rest == rest;
    } else {
      DigitCountOf(digits[1..], rest);
      assert (digits + rest)[1..] == digits[1..] + rest;
    }
  }

  /** Reading a printed number back gives the number, whatever non-digit text follows it. */
  lemma {:induction false} PrintedIsRead(n: nat, rest: string, lo: int, hi: int)
    requires lo <= n <= hi && (rest != [] ==> !IsDigit(rest[0]))
    ensures FromChars(Print(n) + rest, lo, hi) == Number(n)
  {
    DigitCountOf(Print(n), rest);
    ValueOfPrint(n);
    assert (Print(n) + rest)[..|Print(n)|] == Print(n);
  }

  /** The same for negative numbers of a signed type. */
  lemma {:induction false} NegativeIsRead(n: nat, rest: string, lo: int, hi: int)
    requires lo <= 0 - n <= hi && lo < 0 && (rest != [] ==> !IsDigit(rest[0]))
    ensures FromChars("-" + Print(n) + rest, lo, hi) == Number(0 - n)
  {
    DigitCountOf(Print(n), rest);
    ValueOfPrint(n);
    assert ("-" + Print(n) + rest)[1..] == Print(n) + rest;
    assert (Print(n) + rest)[..|Print(n)|] == Print(n);
  }

  // ---------- All texts ----------

  /** Decimal notation: the last digit of a number and the digits before it. */
  lemma {:induction false} PrintedDigits(n: nat, d: nat)
    requires d < 10
    ensures Print(d) == ["0123456789"[d]]
    ensures n > 0 ==> Print(10 * n + d) == Print(n) + ["0123456789"[d]]
  {
    if n > 0 {
      assert (10 * n + d) / 10 == n && (10 * n + d) % 10 == d;
    }
  }

  function Zeros(k: nat): string { seq(k, i => '0') }

  /** Every row of digits is the notation of its value, with zeros before it. */
  lemma {:induction false} DigitsArePrinted(digits: string) returns (k: nat)
    requires digits != [] && AllDigits(digits)
    ensures digits == Zeros(k) + Print(Value(digits))
    decreases |digits|
  {
    var front, last := digits[..|digits| - 1], digits[|digits| - 1];
    var d := last as int - '0' as int;
    assert digits == front + [last];
    if front == [] {
      k := 0;
      assert Value(digits) == d;
    } else {
      k := DigitsArePrinted(front);
      if Value(front) == 0 {
        k := k + 1;
        assert Zeros(k) == Zeros(k - 1) + Print(0);
      } else {
        assert (10 * Value(front) + d) / 10 == Value(front) && (10 * Value(front) + d) % 10 == d;
      }
    }
  }

  lemma {:induction false} LeadingZeros(k: nat, digits: string)
    requires AllDigits(digits)
    ensures AllDigits(Zeros(k) + digits) && Value(Zeros(k) + digits) == Value(digits)
    decreases |digits|, k
  {
    if digits != [] {
      var front := digits[..|digits| - 1];
      LeadingZeros(k, front);
      assert (Zeros(k) + digits)[..k + |digits| - 1] == Zeros(k) + front;
    } else if k > 0 {
      LeadingZeros(k - 1, []);
      assert (Zeros(k) + [])[..k - 1] == Zeros(k - 1) + [];
    }
  }

  /**
   Every text is an optional minus sign, digits, and a rest that does not begin with a digit; this says what is read of
   it: nothing without digits, else their value with the sign, if the type holds it. Only signed types read the sign.
   */
  lemma {:induction false} NumeralIsRead(negative: bool, digits: string, rest: string, lo: int, hi: int)
    requires AllDigits(digits) && (rest != "" ==> !IsDigit(rest[0]))
    requires if negative then lo < 0 else digits == "" && rest != "" && lo < 0 ==> rest[0] != '-'
    ensures FromChars((if negative then "-" else "") + digits + rest, lo, hi) ==
      if digits == "" then Invalid
      else if lo <= (if negative then 0 - Value(digits) else Value(digits)) <= hi then
        Number(if negative then 0 - Value(digits) else Value(digits))
      else OutOfRange
  {
    var s := (if negative then "-" else "") + digits + rest;
    DigitCountOf(digits, rest);
    assert (digits + rest)[..|digits|] == digits;
    if negative {
      assert s[1..] == digits + rest;
    } else {
      assert s == digits + rest;
    }
  }
}
