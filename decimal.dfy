/** Decimal text of natural numbers, as JavaScript renders a non-negative
    integer below 10^21 with `n + ""`: the digits without padding or sign
    (larger numbers print in exponent form, which is not modelled).  The workout
    description uses it for the day of the month, and a workout id is the
    tail of the text of a millisecond timestamp. */
module Decimal {

  predicate IsDigit(c: char) {
    '0' <= c <= '9'
  }

  predicate AllDigits(s: string) {
    forall i :: 0 <= i < |s| ==> IsDigit(s[i])
  }

  /** The character that writes the digit `d`. */
  function DigitChar(d: nat): (c: char)
    requires d < 10
    ensures IsDigit(c)
    ensures c as int - '0' as int == d
  {
    ('0' as int + d) as char
  }

  /** The value of the digit character `c`. */
  function DigitValue(c: char): (d: nat)
    requires IsDigit(c)
    ensures d < 10
    ensures DigitChar(d) == c
  {
    c as int - '0' as int
  }

  /** The shortest decimal text of `n`: never empty, only digits, and no
      leading zero unless `n` is zero itself. */
  function NatToString(n: nat): (s: string)
    ensures |s| >= 1
    ensures AllDigits(s)
    ensures s[0] == '0' ==> n == 0 && s == "0"
    decreases n
  {
    if n < 10 then [DigitChar(n)] else NatToString(n / 10) + [DigitChar(n % 10)]
  }

  /** The value of a string of digits, read most significant digit first. */
  function ParseNat(s: string): (n: nat)
    requires AllDigits(s)
    decreases |s|
  {
    if s == [] then 0 else ParseNat(s[..|s| - 1]) * 10 + DigitValue(s[|s| - 1])
  }

  /** Reading back the text of `n` gives `n`. */
  lemma {:induction false} ParseNatToString(n: nat)
    ensures ParseNat(NatToString(n)) == n
    decreases n
  {
    var s := NatToString(n);
    if n < 10 {
      assert s[..|s| - 1] == [];
    } else {
      ParseNatToString(n / 10);
      assert s[..|s| - 1] == NatToString(n / 10);
    }
  }

  /** Different numbers have different texts. */
  lemma NatToStringInjective(a: nat, b: nat)
    ensures NatToString(a) == NatToString(b) ==> a == b
  {
    ParseNatToString(a);
    ParseNatToString(b);
  }

  function Pow10(k: nat): (p: nat)
    ensures p >= 1
  {
    if k == 0 then 1 else 10 * Pow10(k - 1)
  }

  /** The last `k` digits of `n`, padded with zeros on the left to exactly
      `k` characters: the text of `n % Pow10(k)` at width `k`. */
  function Padded(n: nat, k: nat): (s: string)
    ensures |s| == k
    ensures AllDigits(s)
  {
    if k == 0 then [] else Padded(n / 10, k - 1) + [DigitChar(n % 10)]
  }

  /** A number of exactly `k` digits is written as its `k`-wide padded form. */
  lemma {:induction false} NatToStringFullWidth(n: nat, k: nat)
    requires 1 <= k
    requires Pow10(k - 1) <= n < Pow10(k)
    ensures NatToString(n) == Padded(n, k)
  {
    if k == 1 {
      assert Padded(n / 10, 0) == [];
    } else {
      assert Pow10(k - 1) == 10 * Pow10(k - 2);
      NatToStringFullWidth(n / 10, k - 1);
    }
  }

  /** Splitting a number at the `k`-th digit from the right splits its text:
      the high part `q` is written without padding and the low part `r` at
      width `k`. */
  lemma {:induction false} NatToStringSplit(q: nat, r: nat, k: nat)
    requires q >= 1
    requires r < Pow10(k)
    ensures NatToString(q * Pow10(k) + r) == NatToString(q) + Padded(r, k)
  {
    if k > 0 {
      var p := Pow10(k - 1);
      ScaleByTen(q, p);
      var n := q * Pow10(k) + r;
      var m := q * p + r / 10;
      assert r / 10 < p;
      assert n == 10 * m + r % 10 && n >= 10;
      assert n / 10 == m && n % 10 == r % 10;
      NatToStringSplit(q, r / 10, k - 1);
      calc {
        NatToString(n);
        NatToString(m) + [DigitChar(r % 10)];
        (NatToString(q) + Padded(r / 10, k - 1)) + [DigitChar(r % 10)];
        NatToString(q) + (Padded(r / 10, k - 1) + [DigitChar(r % 10)]);
        NatToString(q) + Padded(r, k);
      }
    }
  }

  lemma ScaleByTen(q: nat, p: nat)
    requires q >= 1 && p >= 1
    ensures q * (10 * p) == 10 * (q * p)
    ensures q * p >= 1
  {
    assert q * p >= 1 * p;
  }

  /** `s.slice(-k)`: the last `k` characters, or all of `s` when it is
      shorter.  `slice(-0)` is `slice(0)`, the whole string. */
  function SliceFromEnd(s: string, k: nat): (r: string)
    ensures |r| == if k == 0 || |s| < k then |s| else k
    ensures r == s[|s| - |r|..]
  {
    if k == 0 || |s| <= k then s else s[|s| - k..]
  }

  /** The tail of a string of digits is digits too. */
  lemma SuffixOfDigits(s: string, k: nat)
    requires AllDigits(s)
    ensures AllDigits(SliceFromEnd(s, k))
  {
    var r := SliceFromEnd(s, k);
    forall i | 0 <= i < |r| ensures IsDigit(r[i]) {
      assert r[i] == s[|s| - |r| + i];
    }
  }

  /** Two numbers `Pow10(k)` apart end in the same `k` digits once they have
      at least `k` digits. */
  lemma LastDigitsRepeat(t: nat, k: nat)
    requires 1 <= k
    requires t >= Pow10(k - 1)
    ensures SliceFromEnd(NatToString(t + Pow10(k)), k) == SliceFromEnd(NatToString(t), k)
  {
    var p := Pow10(k);
    var low: string;
    if t < p {
      low := FullWidthTail(t, k);
    } else {
      var q, r := DivideBy(t, p);
      low := LongTail(q, r, k);
    }
    EndsWith(NatToString(t), low, k);
    EndsWith(NatToString(t + p), low, k);
  }

  /** A `k`-digit `t` is its own last `k` digits, and `t + Pow10(k)` is "1"
      followed by them. */
  lemma FullWidthTail(t: nat, k: nat) returns (low: string)
    requires 1 <= k
    requires Pow10(k - 1) <= t < Pow10(k)
    ensures |low| == k
    ensures NatToString(t) == low
    ensures NatToString(t + Pow10(k)) == "1" + low
  {
    NatToStringFullWidth(t, k);
    NatToStringSplit(1, t, k);
    assert 1 * Pow10(k) + t == t + Pow10(k);
    low := Padded(t, k);
    assert NatToString(1) == "1";
  }

  /** `q * p + r` and `(q + 1) * p + r` end in the same `k` characters. */
  lemma LongTail(q: nat, r: nat, k: nat) returns (low: string)
    requires q >= 1 && r < Pow10(k)
    ensures |low| == k
    ensures NatToString(q * Pow10(k) + r) == NatToString(q) + low
    ensures NatToString((q + 1) * Pow10(k) + r) == NatToString(q + 1) + low
  {
    low := Padded(r, k);
    NatToStringSplit(q, r, k);
    assert NatToString(q * Pow10(k) + r) == NatToString(q) + low;
    NatToStringSplit(q + 1, r, k);
    assert NatToString((q + 1) * Pow10(k) + r) == NatToString(q + 1) + low;
  }

  /** `t` as `q * p + r` with `r` below `p`; `q` is positive when `t >= p`. */
  lemma DivideBy(t: nat, p: nat) returns (q: nat, r: nat)
    requires 1 <= p <= t
    ensures t == q * p + r && r < p && q >= 1
    ensures t + p == (q + 1) * p + r
  {
    q, r := t / p, t % p;
    assert q == 0 ==> q * p == 0;
    assert (q + 1) * p == q * p + p;
  }

  /** A text that ends with the `k` characters `low` has them as its last `k`. */
  lemma EndsWith(s: string, low: string, k: nat)
    requires 1 <= k
    requires |low| == k && |s| >= k && s[|s| - k..] == low
    ensures SliceFromEnd(s, k) == low
  {
  }
}
