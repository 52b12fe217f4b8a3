/** Big-endian numerals in any base, with and without leading zeros. */
module Numerals {

  predicate InBase(digits: seq<nat>, base: nat) {
    forall i :: 0 <= i < |digits| ==> digits[i] < base
  }

  function Value(digits: seq<nat>, base: nat): nat {
    if digits == [] then 0 else Value(digits[..|digits| - 1], base) * base + digits[|digits| - 1]
  }

  /** The numeral without leading zeros; zero has no digits at all. */
  function Digits(value: nat, base: nat): (digits: seq<nat>)
    requires base >= 2
    ensures InBase(digits, base) && (value > 0 ==> digits != [] && digits[0] != 0)
  {
    if value == 0 then []
    else
      Shrinks(value, base);
      var front := Digits(value / base, base);
      if front == [] then LastDigit(value, base); [value % base] else front + [value % base]
  }

  lemma Shrinks(value: nat, base: nat)
    requires value > 0 && base >= 2
    ensures value / base < value
  {
    LastDigit(value, base);
    assert (value / base) * base >= (value / base) * 2;
  }

  lemma LastDigit(value: nat, base: nat)
    requires base > 0
    ensures value == (value / base) * base + value % base
  {
  }

  function Zeros(n: nat): seq<nat> { seq(n, _ => 0) }

  function Leading(digits: seq<nat>): (n: nat)
    ensures n <= |digits| && digits[..n] == Zeros(n) && (n < |digits| ==> digits[n] != 0)
  {
    if digits == [] || digits[0] != 0 then 0
    else
      var n := 1 + Leading(digits[1..]);
      assert digits[..n] == [0] + digits[1..][..n - 1];
      n
  }

  lemma {:induction false} ValueOfDigits(value: nat, base: nat)
    requires base >= 2
    ensures Value(Digits(value, base), base) == value
    decreases value
  {
    if value > 0 {
      Shrinks(value, base);
      ValueOfDigits(value / base, base);
      LastDigit(value, base);
      var digits := Digits(value, base);
      assert digits[..|digits| - 1] == Digits(value / base, base);
    }
  }

  lemma SmallMultiple(d: int, base: int)
    requires base > 0 && -base < d * base < base
    ensures d == 0
  {
  }

  lemma DivideBack(q: nat, r: nat, base: nat)
    requires r < base
    ensures (q * base + r) / base == q && (q * base + r) % base == r
  {
    var v := q * base + r;
    assert v == (v / base) * base + v % base;
    assert (v / base - q) * base == r - v % base;
    SmallMultiple(v / base - q, base);
  }

  lemma {:induction false} DigitsOfValue(digits: seq<nat>, base: nat)
    requires base >= 2 && InBase(digits, base) && (digits != [] ==> digits[0] != 0)
    ensures Digits(Value(digits, base), base) == digits
    decreases |digits|
  {
    if digits != [] {
      var n := |digits| - 1;
      var front, last := digits[..n], digits[n];
      DigitsOfValue(front, base);
      DivideBack(Value(front, base), last, base);
      assert digits == front + [last];
      if front != [] {
        NotLess(Value(front, base), base);
      }
    }
  }

  lemma NotLess(value: nat, base: nat)
    requires value > 0 && base > 0
    ensures value * base > 0
  {
  }

  lemma {:induction false} LeadingZerosAddNothing(n: nat, digits: seq<nat>, base: nat)
    ensures Value(Zeros(n) + digits, base) == Value(digits, base)
    decreases n + |digits|
  {
    var all := Zeros(n) + digits;
    if digits != [] {
      assert all[..|all| - 1] == Zeros(n) + digits[..|digits| - 1];
      LeadingZerosAddNothing(n, digits[..|digits| - 1], base);
    } else if n > 0 {
      assert all[..n - 1] == Zeros(n - 1) + [];
      LeadingZerosAddNothing(n - 1, [], base);
    }
  }

  lemma {:induction false} LeadingOf(n: nat, digits: seq<nat>)
    requires digits != [] ==> digits[0] != 0
    ensures Leading(Zeros(n) + digits) == n
    decreases n
  {
    if n > 0 {
      assert (Zeros(n) + digits)[1..] == Zeros(n - 1) + digits;
      LeadingOf(n - 1, digits);
    } else {
      assert Zeros(0) + digits == digits;
    }
  }

  /** The same value in another base, keeping the number of leading zeros. */
  function Rebase(digits: seq<nat>, from: nat, to: nat): (r: seq<nat>)
    requires to >= 2
    ensures InBase(r, to)
  {
    Zeros(Leading(digits)) + Digits(Value(digits, from), to)
  }

  lemma RebaseBack(digits: seq<nat>, from: nat, to: nat)
    requires from >= 2 && to >= 2 && InBase(digits, from)
    ensures Rebase(Rebase(digits, from, to), to, from) == digits
  {
    var n := Leading(digits);
    var rest := digits[n..];
    assert digits == Zeros(n) + rest;
    LeadingZerosAddNothing(n, rest, from);
    var value := Value(rest, from);
    LeadingOf(n, Digits(value, to));
    LeadingZerosAddNothing(n, Digits(value, to), to);
    ValueOfDigits(value, to);
    DigitsOfValue(rest, from);
  }
}
