/** `luhn_check`: the double-add-double check of ISO/IEC 7812-1, Annex B. */
module Luhn {

  const U32_SIZE: int := 0x1_0000_0000

  /** `to_digit(10).unwrap_or(0)`. */
  function DigitOf(c: char): (d: nat)
    ensures d < 10
  {
    if '0' <= c <= '9' then c as int - '0' as int else 0
  }

  function Doubled(d: nat): (v: nat)
    requires d < 10
    ensures v < 10
  {
    if 2 * d > 9 then 2 * d - 9 else 2 * d
  }

  function Weighed(c: char, double: bool): (v: nat)
    ensures v < 10
  {
    if double then Doubled(DigitOf(c)) else DigitOf(c)
  }

  /** From the rightmost character, every second one doubled; `double` says whether it starts doubled. */
  function LuhnSum(s: string, double: bool): nat {
    if s == "" then 0
    else Weighed(s[|s| - 1], double) + LuhnSum(s[..|s| - 1], !double)
  }

  predicate Valid(s: string) {
    LuhnSum(s, false) % 10 == 0
  }

  /** `sum += val` on u32, which wraps in a release build. */
  function WrappingAdd(sum: nat, val: nat): nat {
    (sum + val) % U32_SIZE
  }

  lemma WrapOnce(total: nat, val: nat)
    ensures WrappingAdd(total % U32_SIZE, val) == (total + val) % U32_SIZE
  {
    var q := total / U32_SIZE;
    assert total + val == (total % U32_SIZE + val) + U32_SIZE * q;
  }

  lemma SumStep(s: string, double: bool)
    requires s != ""
    ensures LuhnSum(s, double) == Weighed(s[|s| - 1], double) + LuhnSum(s[..|s| - 1], !double)
  {
  }

  /** What is left of the sum after `i` characters from the right. */
  lemma LastOfPrefix(digits: string, i: nat)
    requires i < |digits|
    ensures var n := |digits| - i;
            LuhnSum(digits[..n], i % 2 == 1) ==
            Weighed(digits[n - 1], i % 2 == 1) + LuhnSum(digits[..n - 1], i % 2 != 1)
  {
    var front := digits[..|digits| - i];
    SumStep(front, i % 2 == 1);
    assert front[..|front| - 1] == digits[..|digits| - i - 1];
  }

  /** The digits stand for their places, and any other character for 0. */
  lemma DigitValues(c: char)
    ensures c in "0123456789" ==> "0123456789"[DigitOf(c)] == c
    ensures c !in "0123456789" ==> DigitOf(c) == 0
  {
    if '0' <= c <= '9' {
      assert "0123456789"[c as int - 48] == c;
    }
  }

  /** The first `k` positions from the right: the digit itself at odd ones, the digit sum of its double at even ones. */
  function PositionSum(s: string, k: nat): nat
    requires k <= |s|
  {
    if k == 0 then 0
    else
      var d := DigitOf(s[|s| - k]);
      PositionSum(s, k - 1) + if k % 2 == 1 then d else (2 * d) / 10 + (2 * d) % 10
  }

  /** Subtracting 9 from a double above 9 gives its digit sum. */
  lemma DigitSum(d: nat)
    requires d < 10
    ensures Doubled(d) == (2 * d) / 10 + (2 * d) % 10
  {
  }

  lemma PositionStep(s: string, k: nat)
    requires 0 < k <= |s|
    ensures PositionSum(s, k) == PositionSum(s, k - 1) + Weighed(s[|s| - k], (k - 1) % 2 == 1)
  {
    NextParity(k - 1);
    DigitSum(DigitOf(s[|s| - k]));
  }

  lemma {:induction false} SumByPositions(s: string, k: nat)
    requires k <= |s|
    ensures LuhnSum(s, false) == PositionSum(s, k) + LuhnSum(s[..|s| - k], k % 2 == 1)
    decreases k
  {
    if k == 0 {
      assert s[..|s|] == s;
    } else {
      SumByPositions(s, k - 1);
      LastOfPrefix(s, k - 1);
      NextParity(k - 1);
      PositionStep(s, k);
    }
  }

  /** A number is valid when the sum over all its positions ends in 0. */
  lemma ValidByPositions(s: string)
    ensures Valid(s) <==> PositionSum(s, |s|) % 10 == 0
  {
    SumByPositions(s, |s|);
    assert s[..0] == "";
  }

  method LuhnCheck(digits: string) returns (ok: bool)
    ensures ok <==> LuhnSum(digits, false) % 0x1_0000_0000 % 10 == 0
    ensures LuhnSum(digits, false) < 0x1_0000_0000 ==> (ok <==> Valid(digits))
  {
    var sum := 0;
    ghost var total: nat := 0;
    assert digits[..|digits|] == digits;
    for i := 0 to |digits|
      invariant total + LuhnSum(digits[..|digits| - i], i % 2 == 1) == LuhnSum(digits, false)
      invariant sum == total % U32_SIZE
    {
      LastOfPrefix(digits, i);
      NextParity(i);
      var d := DigitOf(digits[|digits| - 1 - i]);
      var val;
      if i % 2 == 1 {
        var dbl := d * 2;
        val := if dbl > 9 then dbl - 9 else dbl;
      } else {
        val := d;
      }
      assert val == Weighed(digits[|digits| - 1 - i], i % 2 == 1);
      WrapOnce(total, val);
      total := total + val;
      sum := WrappingAdd(sum, val);
    }
    assert digits[..0] == "" && total == LuhnSum(digits, false);
    if total < U32_SIZE {
      assert total % U32_SIZE == total;
    }
    ok := sum % 10 == 0;
  }

  lemma {:induction false} LuhnConcat(a: string, b: string, double: bool)
    ensures LuhnSum(a + b, double) == LuhnSum(b, double) + LuhnSum(a, if |b| % 2 == 1 then !double else double)
    decreases |b|
  {
    if b == "" {
      assert a + b == a;
    } else {
      assert (a + b)[..|a + b| - 1] == a + b[..|b| - 1];
      LuhnConcat(a, b[..|b| - 1], !double);
    }
  }

  predicate DoubledAt(s: string, i: nat)
    requires i < |s|
  {
    (|s| - 1 - i) % 2 == 1
  }

  /** The checksum without the character at `i`. */
  function RestSum(s: string, i: nat): nat
    requires i < |s|
  {
    LuhnSum(s[i + 1..], false) + LuhnSum(s[..i], !DoubledAt(s, i))
  }

  lemma SumWith(s: string, i: nat, c: char)
    requires i < |s|
    ensures LuhnSum(s[i := c], false) == RestSum(s, i) + Weighed(c, DoubledAt(s, i))
  {
    var a, b := s[..i], s[i + 1..];
    assert s[i := c] == (a + [c]) + b;
    LuhnConcat(a + [c], b, false);
    LuhnConcat(a, [c], DoubledAt(s, i));
    assert [c][..0] == "";
  }

  lemma SumIs(s: string, i: nat)
    requires i < |s|
    ensures LuhnSum(s, false) == RestSum(s, i) + Weighed(s[i], DoubledAt(s, i))
  {
    SumWith(s, i, s[i]);
    assert s[i := s[i]] == s;
  }

  /** Changing one digit of a valid number always makes it invalid. */
  lemma SubstitutionRejected(s: string, i: nat, c: char)
    requires Valid(s) && i < |s| && DigitOf(c) != DigitOf(s[i])
    ensures !Valid(s[i := c])
  {
    SumIs(s, i);
    SumWith(s, i, c);
    OneResidue(RestSum(s, i), Weighed(s[i], DoubledAt(s, i)), Weighed(c, DoubledAt(s, i)));
  }

  lemma OneResidue(rest: nat, a: nat, b: nat)
    requires a < 10 && b < 10 && (rest + a) % 10 == 0
    ensures (rest + b) % 10 == 0 <==> a == b
  {
  }

  /** Swapping two different neighbouring digits goes unnoticed exactly for 0 and 9. */
  lemma SwapMissedExactlyFor09(s: string, i: nat)
    requires Valid(s) && i + 1 < |s| && DigitOf(s[i]) != DigitOf(s[i + 1])
    ensures Valid(s[i := s[i + 1]][i + 1 := s[i]]) <==> {DigitOf(s[i]), DigitOf(s[i + 1])} == {0, 9}
  {
    var x, y := s[i], s[i + 1];
    var t := s[i := y];
    SwapSum(s, i);
    DoublingGap(DigitOf(x), DigitOf(y));
    SwapResidue(LuhnSum(s, false), LuhnSum(t[i + 1 := x], false), DigitOf(x), DigitOf(y));
  }

  /** A swap moves the sum by what doubling one digit instead of the other makes of them. */
  lemma SwapSum(s: string, i: nat)
    requires i + 1 < |s|
    ensures var a, b := DigitOf(s[i]), DigitOf(s[i + 1]);
            var gap := Doubled(a) - a - Doubled(b) + b;
            var after := LuhnSum(s[i := s[i + 1]][i + 1 := s[i]], false);
            after == LuhnSum(s, false) + gap || after == LuhnSum(s, false) - gap
  {
    var x, y := s[i], s[i + 1];
    var t := s[i := y];
    var d := DoubledAt(s, i);
    SumIs(s, i);
    SumWith(s, i, y);
    SumIs(t, i + 1);
    SumWith(t, i + 1, x);
    assert DoubledAt(t, i + 1) == !d by {
      NextParity(|s| - 2 - i);
    }
    assert LuhnSum(t[i + 1 := x], false)
        == LuhnSum(s, false) - Weighed(x, d) + Weighed(y, d) - Weighed(y, !d) + Weighed(x, !d);
    WeightsSwap(x, y, d);
  }

  lemma WeightsSwap(x: char, y: char, d: bool)
    ensures var a, b := DigitOf(x), DigitOf(y);
            var gap := Doubled(a) - a - Doubled(b) + b;
            Weighed(y, d) - Weighed(x, d) + Weighed(x, !d) - Weighed(y, !d) == if d then -gap else gap
  {
  }

  lemma NextParity(k: int)
    ensures (k + 1) % 2 == 1 <==> k % 2 != 1
  {
  }

  lemma SwapResidue(before: nat, after: nat, a: nat, b: nat)
    requires a < 10 && b < 10 && before % 10 == 0
    requires after == before + (Doubled(a) - a - Doubled(b) + b) || after == before - (Doubled(a) - a - Doubled(b) + b)
    ensures after % 10 == 0 <==> (Doubled(a) - a - Doubled(b) + b) % 10 == 0
  {
    TensShift(before, after - before);
  }

  lemma TensShift(tens: int, x: int)
    requires tens % 10 == 0
    ensures (tens + x) % 10 == 0 <==> x % 10 == 0
    ensures (tens + x) % 10 == 0 <==> (-x) % 10 == 0
  {
    var q := tens / 10;
    assert tens == 10 * q;
  }

  /** Doubling shifts two digits by the same amount modulo 10 only for 0 and 9. */
  lemma DoublingGap(a: nat, b: nat)
    requires a < 10 && b < 10 && a != b
    ensures (Doubled(a) - a - Doubled(b) + b) % 10 == 0 <==> {a, b} == {0, 9}
  {
    assert {a, b} == {0, 9} <==> (a == 0 && b == 9) || (a == 9 && b == 0) by {
      if {a, b} == {0, 9} { assert a in {a, b} && b in {a, b} && 0 in {a, b} && 9 in {a, b}; }
    }
  }

  /** Every prefix is completed by exactly one check digit. */
  lemma ExactlyOneCheckDigit(prefix: string, c: char)
    requires '0' <= c <= '9'
    ensures Valid(prefix + [c]) <==> DigitOf(c) == (10 - LuhnSum(prefix, true) % 10) % 10
  {
    SumStep(prefix + [c], false);
    assert (prefix + [c])[..|prefix|] == prefix;
    ClosesTen(LuhnSum(prefix, true), DigitOf(c));
  }

  lemma ClosesTen(l: nat, d: nat)
    requires d < 10
    ensures (d + l) % 10 == 0 <==> d == (10 - l % 10) % 10
  {
    var q, r := l / 10, l % 10;
    assert d + l == 10 * q + (d + r);
    assert (d + l) % 10 == (d + r) % 10;
  }
}
