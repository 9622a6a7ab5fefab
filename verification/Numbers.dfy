/**
 Numbers in names (kext/procfs_subr.c, procfs_atoi): the leading digits of a string as an int, and the
 decimal form that readdir prints.

 Signed overflow is undefined in C; it is taken to wrap around in 32 bits.
 */
module Numbers {
  import opened Common

  const INT_RANGE: int := 0x8000_0000

  predicate IsDigit(c: char) {
    '0' <= c <= '9'
  }

  function DigitOf(c: char): int {
    c as int - '0' as int
  }

  function Wrapped(v: int): int {
    (v + INT_RANGE) % TWO32 - INT_RANGE
  }

  function Value(s: string): int {
    if s == "" then 0 else Wrapped(Value(s[..|s| - 1]) * 10 + DigitOf(s[|s| - 1]))
  }

  /** How many digits `s` starts with. */
  function Leading(s: string): (n: nat)
    ensures n <= |s|
    ensures forall i :: 0 <= i < n ==> IsDigit(s[i])
    ensures n < |s| ==> !IsDigit(s[n])
  {
    if s == "" || !IsDigit(s[0]) then 0 else 1 + Leading(s[1..])
  }

  function AtoiValue(s: string): int {
    if Leading(s) == 0 then -1 else Value(s[..Leading(s)])
  }

  /** The value, or -1 when the string starts with no digit, and where the digits end. */
  method Atoi(s: string) returns (value: int, end: nat)
    ensures end == Leading(s) && value == AtoiValue(s)
  {
    var v, next := 0, 0;
    while next < |s| && IsDigit(s[next])
      invariant next <= |s| && v == Value(s[..next])
      invariant forall i :: 0 <= i < next ==> IsDigit(s[i])
    {
      v := Wrapped(v * 10 + s[next] as int - '0' as int);
      assert s[..next + 1][..next] == s[..next];
      next := next + 1;
    }
    end := next;
    LeadingIs(s, next);
    value := if next == 0 then -1 else v;
  }

  lemma LeadingIs(s: string, n: nat)
    requires n <= |s| && (forall i :: 0 <= i < n ==> IsDigit(s[i])) && (n < |s| ==> !IsDigit(s[n]))
    ensures Leading(s) == n
  {
  }

  function Decimal(n: nat): (s: string)
    ensures |s| > 0
  {
    (if n < 10 then "" else Decimal(n / 10)) + [(n % 10 + '0' as int) as char]
  }

  lemma ValueAppend(s: string, d: nat)
    requires d < 10
    ensures var c := (d + '0' as int) as char; IsDigit(c) && Value(s + [c]) == Wrapped(Value(s) * 10 + d)
  {
    var c := (d + '0' as int) as char;
    assert (s + [c])[..|s|] == s;
  }

  /** One more decimal digit of a number that fits an int. */
  lemma NextDigit(n: nat, q: nat, r: nat)
    requires n < INT_RANGE && q == n / 10 && r == n % 10
    ensures Wrapped(q * 10 + r) == n
  {
  }

  lemma {:induction false} DecimalDigits(n: nat)
    ensures forall i :: 0 <= i < |Decimal(n)| ==> IsDigit(Decimal(n)[i])
  {
    if n >= 10 {
      DecimalDigits(n / 10);
    }
  }

  lemma {:induction false} DecimalReads(n: nat)
    requires n < INT_RANGE
    ensures Value(Decimal(n)) == n
  {
    var q, r := n / 10, n % 10;
    var front := if n < 10 then "" else Decimal(q);
    if n >= 10 {
      DecimalReads(q);
    }
    assert Value(front) == q;
    ValueAppend(front, r);
    NextDigit(n, q, r);
  }

  /** Reading a printed number gives it back, whatever non-digit follows it. */
  lemma AtoiOfDecimal(n: nat, rest: string)
    requires n < INT_RANGE && (rest != "" ==> !IsDigit(rest[0]))
    ensures AtoiValue(Decimal(n) + rest) == n
    ensures Leading(Decimal(n) + rest) == |Decimal(n)|
  {
    var s := Decimal(n) + rest;
    DecimalReads(n);
    DecimalDigits(n);
    LeadingIs(s, |Decimal(n)|);
    assert s[..|Decimal(n)|] == Decimal(n);
  }

  // ----- bits -----

  function Pow2(k: nat): (r: nat)
    ensures r > 0
  {
    if k == 0 then 1 else 2 * Pow2(k - 1)
  }

  lemma Pow2Four(k: nat)
    ensures Pow2(k + 4) == 16 * Pow2(k)
  {
    assert Pow2(k + 4) == 2 * Pow2(k + 3) == 4 * Pow2(k + 2) == 8 * Pow2(k + 1);
  }

  lemma Pow2At24()
    ensures Pow2(24) == 0x100_0000
  {
    Pow2Four(0);
    Pow2Four(4);
    Pow2Four(8);
    Pow2Four(12);
    Pow2Four(16);
    Pow2Four(20);
  }

  /** Bitwise or of two unsigned numbers. */
  function Or(a: nat, b: nat): nat
    decreases a + b
  {
    if a == 0 && b == 0 then 0
    else 2 * Or(a / 2, b / 2) + (if a % 2 == 1 || b % 2 == 1 then 1 else 0)
  }

  /** Bit `i` of an unsigned number. */
  predicate Bit(n: nat, i: nat) {
    if i == 0 then n % 2 == 1 else Bit(n / 2, i - 1)
  }

  lemma {:induction false} OrBit(a: nat, b: nat, i: nat)
    ensures Bit(Or(a, b), i) <==> Bit(a, i) || Bit(b, i)
    decreases i
  {
    var r := Or(a, b);
    if a == 0 && b == 0 {
      ZeroBit(i);
    } else {
      assert r / 2 == Or(a / 2, b / 2) && (r % 2 == 1 <==> a % 2 == 1 || b % 2 == 1);
      if i > 0 { OrBit(a / 2, b / 2, i - 1); }
    }
  }

  lemma {:induction false} ZeroBit(i: nat)
    ensures !Bit(0, i)
  {
    if i > 0 { ZeroBit(i - 1); }
  }

  /** Shifting left by `k` moves every bit up by `k`. */
  lemma {:induction false} ShiftBit(m: nat, k: nat, i: nat)
    ensures Bit(m * Pow2(k), i) <==> i >= k && Bit(m, i - k)
    decreases k
  {
    if k > 0 {
      var h := m * Pow2(k - 1);
      assert m * Pow2(k) == 2 * h;
      assert 2 * h / 2 == h && 2 * h % 2 == 0;
      if i > 0 { ShiftBit(m, k - 1, i - 1); }
    }
  }

  /** Dropping what lies above bit `k` leaves the bits below it. */
  lemma {:induction false} LowBit(n: nat, k: nat, q: nat, r: nat, i: nat)
    requires i < k && r < Pow2(k) && n == Pow2(k) * q + r
    ensures Bit(r, i) <==> Bit(n, i)
    decreases k
  {
    var p := Pow2(k - 1);
    Twice(p, q);
    HalfOfSum(p * q, r);
    if i > 0 { LowBit(n / 2, k - 1, q, r / 2, i - 1); }
  }

  lemma Twice(p: nat, q: nat)
    ensures (2 * p) * q == 2 * (p * q)
  {
  }

  lemma HalfOfSum(m: nat, r: nat)
    ensures (2 * m + r) / 2 == m + r / 2 && (2 * m + r) % 2 == r % 2
  {
  }

  /** Numbers without a common bit: one below 2^k, the other a multiple of it. */
  lemma {:induction false} OrDisjoint(a: nat, m: nat, k: nat)
    requires a < Pow2(k)
    ensures Or(a, m * Pow2(k)) == a + m * Pow2(k)
    decreases k, m
  {
    if k == 0 {
      OrZero(m);
    } else {
      var b := m * Pow2(k - 1);
      assert m * Pow2(k) == 2 * b;
      OrDisjoint(a / 2, m, k - 1);
      OrDouble(a, b);
    }
  }

  lemma OrDouble(a: nat, b: nat)
    ensures Or(a, 2 * b) == 2 * Or(a / 2, b) + a % 2
  {
    assert 2 * b / 2 == b && 2 * b % 2 == 0;
  }

  lemma {:induction false} OrZero(m: nat)
    ensures Or(0, m) == m && Or(m, 0) == m
  {
    if m > 0 {
      OrZero(m / 2);
    }
  }
}
