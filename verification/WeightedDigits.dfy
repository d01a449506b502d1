/** The weighted checksums `pesel_check` (modulo 10) and `nip_check` (modulo 11). */
module WeightedDigits {

  type byte = b: int | 0 <= b < 256

  // ---------- weighted sums of any length ----------

  function WeightedSum(w: seq<int>, d: seq<int>): int
    requires |w| == |d|
    decreases |w|
  {
    if w == [] then 0 else w[0] * d[0] + WeightedSum(w[1..], d[1..])
  }

  lemma {:induction false} SumAfterChange(w: seq<int>, d: seq<int>, i: nat, x: int)
    requires |w| == |d| && i < |d|
    ensures WeightedSum(w, d[i := x]) == WeightedSum(w, d) + w[i] * (x - d[i])
    decreases |w|
  {
    if i == 0 {
      assert d[i := x][1..] == d[1..];
      assert w[0] * (x - d[0]) == w[0] * x - w[0] * d[0];
    } else {
      assert d[i := x][1..] == d[1..][i - 1 := x];
      SumAfterChange(w[1..], d[1..], i - 1, x);
    }
  }

  function Swapped(d: seq<int>, i: nat, j: nat): seq<int>
    requires i < |d| && j < |d|
  {
    d[i := d[j]][j := d[i]]
  }

  lemma SumAfterSwap(w: seq<int>, d: seq<int>, i: nat, j: nat, delta: int)
    requires |w| == |d| && i < |d| && j < |d| && i != j
    requires delta == (w[i] - w[j]) * (d[j] - d[i])
    ensures WeightedSum(w, Swapped(d, i, j)) == WeightedSum(w, d) + delta
  {
    var mid := d[i := d[j]];
    var p, q := w[i] * (d[j] - d[i]), w[j] * (d[i] - d[j]);
    assert p + q == delta by {
      Factor(w[i], w[j], d[j], d[i]);
    }
    AddedChange(w, d, i, d[j], p);
    AddedChange(w, mid, j, d[i], q);
  }

  lemma AddedChange(w: seq<int>, d: seq<int>, i: nat, x: int, delta: int)
    requires |w| == |d| && i < |d| && delta == w[i] * (x - d[i])
    ensures WeightedSum(w, d[i := x]) == WeightedSum(w, d) + delta
  {
    SumAfterChange(w, d, i, x);
  }

  lemma Factor(a: int, b: int, x: int, y: int)
    ensures a * (x - y) + b * (y - x) == (a - b) * (x - y)
  {
  }

  /** The whole number is in balance when its weighted sum vanishes modulo `m`. */
  predicate Balanced(w: seq<int>, d: seq<int>, m: int)
    requires |w| == |d| && m > 0
  {
    WeightedSum(w, d) % m == 0
  }

  /** The moduli of the two checks. */
  predicate Modulus(m: int) { m == 10 || m == 11 }

  lemma Shifted10(s: int, x: int)
    requires s % 10 == 0
    ensures (s + x) % 10 == 0 <==> x % 10 == 0
  {
    assert s == 10 * (s / 10);
  }

  lemma Shifted11(s: int, x: int)
    requires s % 11 == 0
    ensures (s + x) % 11 == 0 <==> x % 11 == 0
  {
    assert s == 11 * (s / 11);
  }

  lemma ShiftedMultiple(s: int, x: int, m: int)
    requires Modulus(m) && s % m == 0
    ensures (s + x) % m == 0 <==> x % m == 0
  {
    if m == 10 {
      Shifted10(s, x);
    } else {
      Shifted11(s, x);
    }
  }

  /** A balanced number stays balanced under a change exactly when the weighted change vanishes. */
  lemma ChangeBalance(w: seq<int>, d: seq<int>, i: nat, x: int, m: int)
    requires |w| == |d| && i < |d| && Modulus(m) && Balanced(w, d, m)
    ensures Balanced(w, d[i := x], m) <==> (w[i] * (x - d[i])) % m == 0
  {
    SumAfterChange(w, d, i, x);
    ShiftedMultiple(WeightedSum(w, d), w[i] * (x - d[i]), m);
  }

  /** .. and under a swap exactly when the difference of the weights times that of the digits does. */
  lemma SwapBalance(w: seq<int>, d: seq<int>, i: nat, j: nat, m: int)
    requires |w| == |d| && i < |d| && j < |d| && i != j && Modulus(m) && Balanced(w, d, m)
    ensures Balanced(w, Swapped(d, i, j), m) <==> ((w[i] - w[j]) * (d[j] - d[i])) % m == 0
  {
    var delta := (w[i] - w[j]) * (d[j] - d[i]);
    SumAfterSwap(w, d, i, j, delta);
    ShiftedMultiple(WeightedSum(w, d), delta, m);
  }

  lemma {:induction false} SumSnoc(w: seq<int>, d: seq<int>, v: int, x: int)
    requires |w| == |d|
    ensures WeightedSum(w + [v], d + [x]) == WeightedSum(w, d) + v * x
    decreases |w|
  {
    if w == [] {
      assert w + [v] == [v] && d + [x] == [x];
      assert [v][1..] == [] && [x][1..] == [];
    } else {
      assert (w + [v])[1..] == w[1..] + [v] && (d + [x])[1..] == d[1..] + [x];
      SumSnoc(w[1..], d[1..], v, x);
    }
  }

  // ---------- the two checks ----------

  const PESEL_WEIGHTS: seq<int> := [1, 3, 7, 9, 1, 3, 7, 9, 1, 3]
  const NIP_WEIGHTS: seq<int> := [6, 5, 7, 2, 3, 4, 5, 6, 7]

  predicate Digits(d: seq<int>) {
    forall i | 0 <= i < |d| :: 0 <= d[i] <= 9
  }

  predicate IsBalanced(w: seq<int>, d: seq<int>, m: int)
    requires m > 0
  {
    |d| == |w| && Digits(d) && Balanced(w, d, m)
  }

  /** The check digit joins the sum with weight 1. */
  predicate ValidPesel(d: seq<int>) {
    IsBalanced(PESEL_WEIGHTS + [1], d, 10)
  }

  /** The check digit joins the sum with weight 10, which is -1 modulo 11. */
  predicate ValidNip(d: seq<int>) {
    IsBalanced(NIP_WEIGHTS + [10], d, 11)
  }

  /** `b - b'0'` on u8, which wraps in a release build. */
  function DigitOf(b: byte): (d: int)
    ensures 0 <= d < 256
  {
    (b - 48) % 256
  }

  function DigitsOf(bytes: seq<byte>): (d: seq<int>)
    ensures |d| == |bytes| && forall i | 0 <= i < |d| :: d[i] == DigitOf(bytes[i]) >= 0
  {
    seq(|bytes|, i requires 0 <= i < |bytes| => DigitOf(bytes[i]))
  }

  /** The loop of both checks: the weighted sum, or failure when some weighted byte is not a digit. */
  method SumWeighted(weights: seq<int>, bytes: seq<byte>) returns (ok: bool, sum: int)
    requires |weights| <= |bytes|
    ensures ok <==> Digits(DigitsOf(bytes)[..|weights|])
    ensures ok ==> sum == WeightedSum(weights, DigitsOf(bytes)[..|weights|])
  {
    ok, sum := true, 0;
    ghost var d := DigitsOf(bytes);
    for i := 0 to |weights|
      invariant Digits(d[..i]) && sum == WeightedSum(weights[..i], d[..i])
    {
      var x := DigitOf(bytes[i]);
      if x > 9 {
        assert d[..|weights|][i] == x;
        return false, 0;
      }
      assert weights[..i + 1] == weights[..i] + [weights[i]] && d[..i + 1] == d[..i] + [d[i]];
      SumSnoc(weights[..i], d[..i], weights[i], d[i]);
      sum := sum + x * weights[i];
    }
    assert weights[..|weights|] == weights;
  }

  /** The check digit, with weight `v`, closes the balance exactly when it solves the congruence. */
  lemma Closing(w: seq<int>, v: int, m: int, d: seq<int>, ok: bool, sum: int)
    requires |d| == |w| + 1 && m > 0 && d[|w|] >= 0
    requires ok <==> Digits(d[..|w|])
    requires ok ==> sum == WeightedSum(w, d[..|w|])
    ensures IsBalanced(w + [v], d, m) <==> ok && d[|w|] <= 9 && (sum + v * d[|w|]) % m == 0
  {
    assert d == d[..|w|] + [d[|w|]];
    SumSnoc(w, d[..|w|], v, d[|w|]);
    assert forall i | 0 <= i < |w| :: d[..|w|][i] == d[i];
  }

  method Weigh(weights: seq<int>, v: int, m: int, bytes: seq<byte>) returns (ok: bool, sum: int)
    requires |bytes| == |weights| + 1 && m > 0
    ensures var last := DigitOf(bytes[|weights|]);
            IsBalanced(weights + [v], DigitsOf(bytes), m) <==> ok && last <= 9 && (sum + v * last) % m == 0
  {
    ok, sum := SumWeighted(weights, bytes);
    Closing(weights, v, m, DigitsOf(bytes), ok, sum);
  }

  // ---------- the congruences of the two numbers, spelled out ----------

  predicate AsciiDigits(bytes: seq<byte>) {
    forall b <- bytes :: 48 <= b <= 57
  }

  predicate PeselCongruence(d: seq<int>) {
    && |d| == 11
    && (d[0] + 3 * d[1] + 7 * d[2] + 9 * d[3] + d[4] + 3 * d[5] + 7 * d[6] + 9 * d[7] + d[8] + 3 * d[9] + d[10])
       % 10 == 0
  }

  /** The check digit is the remainder of the others, so -1 times it closes the sum; a remainder of 10 has no digit. */
  predicate NipCongruence(d: seq<int>) {
    && |d| == 10
    && (6 * d[0] + 5 * d[1] + 7 * d[2] + 2 * d[3] + 3 * d[4] + 4 * d[5] + 5 * d[6] + 6 * d[7] + 7 * d[8] - d[9])
       % 11 == 0
  }

  lemma Unrolled(w: seq<int>, d: seq<int>, i: nat)
    requires |w| == |d| && i < |w|
    ensures WeightedSum(w[i..], d[i..]) == w[i] * d[i] + WeightedSum(w[i + 1..], d[i + 1..])
  {
    assert w[i..][1..] == w[i + 1..] && d[i..][1..] == d[i + 1..];
  }

  lemma FiveTerms(w: seq<int>, d: seq<int>, i: nat)
    requires |w| == |d| && i + 5 <= |w|
    ensures WeightedSum(w[i..], d[i..])
         == w[i] * d[i] + w[i + 1] * d[i + 1] + w[i + 2] * d[i + 2] + w[i + 3] * d[i + 3] + w[i + 4] * d[i + 4]
            + WeightedSum(w[i + 5..], d[i + 5..])
  {
    Unrolled(w, d, i);
    Unrolled(w, d, i + 1);
    Unrolled(w, d, i + 2);
    Unrolled(w, d, i + 3);
    Unrolled(w, d, i + 4);
  }

  lemma TenTerms(w: seq<int>, d: seq<int>)
    requires |w| == |d| >= 10
    ensures WeightedSum(w, d)
         == w[0] * d[0] + w[1] * d[1] + w[2] * d[2] + w[3] * d[3] + w[4] * d[4]
            + (w[5] * d[5] + w[6] * d[6] + w[7] * d[7] + w[8] * d[8] + w[9] * d[9]) + WeightedSum(w[10..], d[10..])
  {
    assert w[0..] == w && d[0..] == d;
    FiveTerms(w, d, 0);
    FiveTerms(w, d, 5);
  }

  lemma PeselSum(d: seq<int>)
    requires |d| == 11
    ensures WeightedSum(PESEL_WEIGHTS + [1], d)
         == d[0] + 3 * d[1] + 7 * d[2] + 9 * d[3] + d[4] + 3 * d[5] + 7 * d[6] + 9 * d[7] + d[8] + 3 * d[9] + d[10]
  {
    var w := PESEL_WEIGHTS + [1];
    TenTerms(w, d);
    Unrolled(w, d, 10);
    assert WeightedSum(w[11..], d[11..]) == 0;
  }

  lemma NipSum(d: seq<int>)
    requires |d| == 10
    ensures WeightedSum(NIP_WEIGHTS + [10], d)
         == 6 * d[0] + 5 * d[1] + 7 * d[2] + 2 * d[3] + 3 * d[4] + 4 * d[5] + 5 * d[6] + 6 * d[7] + 7 * d[8] + 10 * d[9]
  {
    var w := NIP_WEIGHTS + [10];
    TenTerms(w, d);
    assert WeightedSum(w[10..], d[10..]) == 0;
  }

  lemma Elevens(x: int, y: int)
    ensures (x + 10 * y) % 11 == 0 <==> (x - y) % 11 == 0
  {
    assert x + 10 * y == (x - y) + 11 * y;
  }

  lemma DigitsAreAscii(bytes: seq<byte>)
    ensures Digits(DigitsOf(bytes)) <==> AsciiDigits(bytes)
    ensures AsciiDigits(bytes) ==> forall i | 0 <= i < |bytes| :: DigitsOf(bytes)[i] == bytes[i] - 48
  {
    if Digits(DigitsOf(bytes)) {
      forall b | b in bytes ensures 48 <= b <= 57 {
        var i :| 0 <= i < |bytes| && bytes[i] == b;
        assert 0 <= DigitsOf(bytes)[i] <= 9;
      }
    }
    assert forall i | 0 <= i < |bytes| :: bytes[i] in bytes;
  }

  lemma PeselSpelledOut(bytes: seq<byte>)
    ensures ValidPesel(DigitsOf(bytes)) <==> AsciiDigits(bytes) && PeselCongruence(DigitsOf(bytes))
  {
    DigitsAreAscii(bytes);
    if |bytes| == 11 {
      PeselSum(DigitsOf(bytes));
    }
  }

  lemma NipSpelledOut(bytes: seq<byte>)
    ensures ValidNip(DigitsOf(bytes)) <==> AsciiDigits(bytes) && NipCongruence(DigitsOf(bytes))
  {
    DigitsAreAscii(bytes);
    if |bytes| == 10 {
      var d := DigitsOf(bytes);
      NipSum(d);
      Elevens(6 * d[0] + 5 * d[1] + 7 * d[2] + 2 * d[3] + 3 * d[4] + 4 * d[5] + 5 * d[6] + 6 * d[7] + 7 * d[8], d[9]);
    }
  }

  method PeselCheck(bytes: seq<byte>) returns (ok: bool)
    ensures ok <==> ValidPesel(DigitsOf(bytes))
    ensures ok <==> AsciiDigits(bytes) && PeselCongruence(DigitsOf(bytes))
  {
    PeselSpelledOut(bytes);
    if |bytes| != 11 {
      return false;
    }
    var sum;
    ok, sum := Weigh(PESEL_WEIGHTS, 1, 10, bytes);
    if ok {
      var checksum := (10 - sum % 10) % 10;
      ok := checksum == DigitOf(bytes[10]);
    }
  }

  method NipCheck(bytes: seq<byte>) returns (ok: bool)
    ensures ok <==> ValidNip(DigitsOf(bytes))
    ensures ok <==> AsciiDigits(bytes) && NipCongruence(DigitsOf(bytes))
  {
    NipSpelledOut(bytes);
    if |bytes| != 10 {
      return false;
    }
    var sum;
    ok, sum := Weigh(NIP_WEIGHTS, 10, 11, bytes);
    if ok {
      var checksum := sum % 11;
      if checksum == 10 {
        return false;
      }
      ok := checksum == DigitOf(bytes[9]);
    }
  }

  // ---------- error detection ----------

  lemma PeselChangeRejected(d: seq<int>, i: nat, x: int)
    requires ValidPesel(d) && i < 11 && 0 <= x <= 9 && x != d[i]
    ensures !ValidPesel(d[i := x])
  {
    ChangeBalance(PESEL_WEIGHTS + [1], d, i, x, 10);
    NoMultipleOf10((PESEL_WEIGHTS + [1])[i], x - d[i]);
  }

  lemma NoMultipleOf10(w: int, x: int)
    requires w in {1, 3, 7, 9} && -9 <= x <= 9 && x != 0
    ensures (w * x) % 10 != 0
  {
    var v := if w == 3 then 7 else if w == 7 then 3 else w;
    if (w * x) % 10 == 0 {
      Regroup(v, w, x, (v * w - 1) / 10, (w * x) / 10, 10);
    }
  }

  /** If `v` inverts `w` modulo `m`, a multiple of `m` that is `w * x` makes `x` one. */
  lemma Regroup(v: int, w: int, x: int, k: int, q: int, m: int)
    requires w * x == m * q && v * w == 1 + m * k
    ensures x == m * (v * q - k * x)
  {
    assert v * (w * x) == (v * w) * x == x + (m * k) * x;
    assert (m * k) * x == m * (k * x);
    assert v * (m * q) == m * (v * q);
    assert m * (v * q - k * x) == m * (v * q) - m * (k * x);
  }

  lemma PeselSwapMissedExactlyBy5(d: seq<int>, i: nat)
    requires ValidPesel(d) && i < 10 && d[i] != d[i + 1]
    ensures ValidPesel(Swapped(d, i, i + 1)) <==> d[i] - d[i + 1] == 5 || d[i + 1] - d[i] == 5
  {
    SwapBalance(PESEL_WEIGHTS + [1], d, i, i + 1, 10);
    EvenWeightGap((PESEL_WEIGHTS + [1])[i] - (PESEL_WEIGHTS + [1])[i + 1], d[i + 1] - d[i]);
  }

  lemma EvenWeightGap(w: int, x: int)
    requires w in {-2, -4, 8, 2} && -9 <= x <= 9 && x != 0
    ensures (w * x) % 10 == 0 <==> x == 5 || x == -5
  {
    if w == 2 {
      assert (2 * x) % 10 == 0 <==> x == 5 || x == -5;
    } else if w == -2 {
      assert (-2 * x) % 10 == 0 <==> x == 5 || x == -5;
    } else if w == -4 {
      assert (-4 * x) % 10 == 0 <==> x == 5 || x == -5;
    } else {
      assert (8 * x) % 10 == 0 <==> x == 5 || x == -5;
    }
  }

  lemma NipChangeRejected(d: seq<int>, i: nat, x: int)
    requires ValidNip(d) && i < 10 && 0 <= x <= 9 && x != d[i]
    ensures !ValidNip(d[i := x])
  {
    ChangeBalance(NIP_WEIGHTS + [10], d, i, x, 11);
    NoMultipleOf11((NIP_WEIGHTS + [10])[i], x - d[i]);
  }

  lemma NoMultipleOf11(w: int, x: int)
    requires -10 <= w <= 10 && w != 0 && -9 <= x <= 9 && x != 0
    ensures (w * x) % 11 != 0
  {
    var v, k := Inverse11(w);
    if (w * x) % 11 == 0 {
      Regroup(v, w, x, k, (w * x) / 11, 11);
    }
  }

  lemma Inverse11(w: int) returns (v: int, k: int)
    requires -10 <= w <= 10 && w != 0
    ensures v * w == 1 + 11 * k
  {
    var size := if w < 0 then -w else w;
    v := [1, 6, 4, 3, 9, 2, 8, 7, 5, 10][size - 1];
    k := [0, 1, 1, 1, 4, 1, 5, 5, 4, 9][size - 1];
    assert v * size == 1 + 11 * k;
    if w < 0 {
      assert v * size == (-v) * w;
      v := -v;
    }
  }

  /** A swap at any two positions is missed exactly when both carry the same weight: 0/7, 1/6 and 2/8. */
  lemma NipSwapMissedExactly(d: seq<int>, i: nat, j: nat)
    requires ValidNip(d) && i < j < 10 && d[i] != d[j]
    ensures ValidNip(Swapped(d, i, j)) <==> (i, j) in {(0, 7), (1, 6), (2, 8)}
  {
    var w := NIP_WEIGHTS + [10];
    SwapBalance(w, d, i, j, 11);
    assert w[i] == w[j] <==> (i, j) in {(0, 7), (1, 6), (2, 8)};
    if w[i] != w[j] {
      NoMultipleOf11(w[i] - w[j], d[j] - d[i]);
    }
  }
}
