/** `iban_check`: ISO 13616-1 validation with the MOD 97-10 system of ISO/IEC 7064, on ASCII text. */
module Iban {

  predicate IsDigit(c: char) { '0' <= c <= '9' }

  predicate IsUpper(c: char) { 'A' <= c <= 'Z' }

  predicate Allowed(s: string) {
    forall c <- s :: IsDigit(c) || IsUpper(c)
  }

  /** A digit stands for itself, a letter for 10 .. 35. */
  function ValueOf(c: char): (v: nat)
    requires IsDigit(c) || IsUpper(c)
    ensures v < 36 && (IsDigit(c) <==> v < 10)
  {
    if IsDigit(c) then c as int - '0' as int else c as int - 'A' as int + 10
  }

  const SYMBOLS := "0123456789ABCDEFGHIJKLMNOPQRSTUVWXYZ"

  /** The value of the `v`-th symbol is `v`, and every allowed character is one of the 36 symbols. */
  lemma SymbolValues(v: nat, c: char)
    requires v < 36
    ensures |SYMBOLS| == 36
    ensures (IsDigit(SYMBOLS[v]) || IsUpper(SYMBOLS[v])) && ValueOf(SYMBOLS[v]) == v
    ensures IsDigit(c) || IsUpper(c) ==> SYMBOLS[ValueOf(c)] == c
  {
    SymbolAt(v);
    if IsDigit(c) || IsUpper(c) {
      SymbolAt(ValueOf(c));
    }
  }

  lemma SymbolAt(v: nat)
    requires v < 36
    ensures SYMBOLS[v] as int == if v < 10 then 48 + v else 55 + v
  {
  }

  // ---------- the definition of the standard, over the whole integer ----------

  function Rearranged(s: string): string
    requires |s| >= 4
  {
    s[4..] + s[..4]
  }

  /** The decimal digits of the number: one per digit, two per letter. */
  function Expand(s: string): seq<nat>
    requires Allowed(s)
  {
    if s == "" then []
    else Expand(s[..|s| - 1]) +
         var v := ValueOf(s[|s| - 1]); if v < 10 then [v] else [v / 10, v % 10]
  }

  function Decimal(digits: seq<nat>): nat {
    if digits == [] then 0 else 10 * Decimal(digits[..|digits| - 1]) + digits[|digits| - 1]
  }

  function Number(s: string): nat
    requires Allowed(s)
  {
    Decimal(Expand(s))
  }

  ghost predicate Accepted(s: string) {
    |s| >= 4 && Allowed(s) && Number(Rearranged(s)) % 97 == 1
  }

  // ---------- the iteration ----------

  /** One more character appended to the expanded number. */
  function Append(n: nat, c: char): nat
    requires IsDigit(c) || IsUpper(c)
  {
    if IsDigit(c) then 10 * n + ValueOf(c) else 100 * n + ValueOf(c)
  }

  lemma DecimalSnoc(digits: seq<nat>, d: nat)
    ensures Decimal(digits + [d]) == 10 * Decimal(digits) + d
  {
    assert (digits + [d])[..|digits|] == digits;
  }

  lemma NumberSnoc(s: string, c: char)
    requires Allowed(s) && (IsDigit(c) || IsUpper(c))
    ensures Allowed(s + [c]) && Number(s + [c]) == Append(Number(s), c)
  {
    var t, v := s + [c], ValueOf(c);
    assert t[..|t| - 1] == s;
    if v < 10 {
      DecimalSnoc(Expand(s), v);
    } else {
      DecimalSnoc(Expand(s), v / 10);
      DecimalSnoc(Expand(s) + [v / 10], v % 10);
      assert Expand(t) == Expand(s) + [v / 10] + [v % 10];
    }
  }

  /** One iteration on the remainder: times 10 for a digit, times 100 for a letter. */
  function StepRem(r: nat, c: char): (m: nat)
    requires IsDigit(c) || IsUpper(c)
    ensures m < 97
  {
    Append(r, c) % 97
  }

  lemma AddMultiple(x: int, k: int)
    ensures (x + 97 * k) % 97 == x % 97
  {
  }

  lemma SameRemainder(x: int, y: int)
    ensures x % 97 == y % 97 <==> (x - y) % 97 == 0
  {
  }

  lemma StepOfMod(n: nat, c: char)
    requires IsDigit(c) || IsUpper(c)
    ensures StepRem(n % 97, c) == Append(n, c) % 97
  {
    var q, r := n / 97, n % 97;
    assert n == 97 * q + r;
    if IsDigit(c) {
      AddMultiple(10 * r + ValueOf(c), 10 * q);
    } else {
      AddMultiple(100 * r + ValueOf(c), 100 * q);
    }
  }

  lemma RearrangedAllowed(s: string)
    requires |s| >= 4
    ensures Allowed(Rearranged(s)) <==> Allowed(s)
  {
    assert s == s[..4] + s[4..];
    assert forall c :: c in s <==> c in Rearranged(s);
  }

  method IbanCheck(iban: string) returns (ok: bool)
    requires |iban| >= 4
    ensures ok <==> Accepted(iban)
  {
    var rearranged := iban[4..] + iban[..4];
    RearrangedAllowed(iban);
    var remainder := 0;
    for i := 0 to |rearranged|
      invariant Allowed(rearranged[..i])
      invariant remainder == Number(rearranged[..i]) % 97
    {
      var c := rearranged[i];
      assert rearranged[..i + 1] == rearranged[..i] + [c];
      var val;
      if IsDigit(c) {
        val := c as int - '0' as int;
      } else if IsUpper(c) {
        val := c as int - 'A' as int + 10;
      } else {
        assert c in rearranged;
        return false;
      }
      NumberSnoc(rearranged[..i], c);
      StepOfMod(Number(rearranged[..i]), c);
      if val < 10 {
        remainder := (remainder * 10 + val) % 97;
      } else {
        remainder := (remainder * 100 + val) % 97;
      }
    }
    assert rearranged[..|rearranged|] == rearranged;
    ok := remainder == 1;
  }

  // ---------- error detection ----------

  /** The remainder after reading `s`, starting from remainder `r`. */
  function Rem(r: nat, s: string): (m: nat)
    requires Allowed(s) && r < 97
    ensures m < 97
    decreases |s|
  {
    if s == "" then r else Rem(StepRem(r, s[0]), s[1..])
  }

  lemma {:induction false} RemConcat(r: nat, a: string, b: string)
    requires Allowed(a) && Allowed(b) && r < 97
    ensures Allowed(a + b) && Rem(r, a + b) == Rem(Rem(r, a), b)
    decreases |a|
  {
    if a == "" {
      assert a + b == b;
    } else {
      assert (a + b)[1..] == a[1..] + b;
      RemConcat(StepRem(r, a[0]), a[1..], b);
    }
  }

  lemma {:induction false} RemIsNumber(s: string)
    requires Allowed(s)
    ensures Rem(0, s) == Number(s) % 97
  {
    if s != "" {
      var front, c := s[..|s| - 1], s[|s| - 1];
      assert s == front + [c];
      RemIsNumber(front);
      NumberSnoc(front, c);
      StepOfMod(Number(front), c);
      RemConcat(0, front, [c]);
    }
  }

  /** 10 and 100 are invertible modulo 97: 680 = 7 * 97 + 1 and 6500 = 67 * 97 + 1. */
  lemma Invertible(g: int)
    requires -97 < g < 97 && g != 0
    ensures (10 * g) % 97 != 0 && (100 * g) % 97 != 0
  {
    var k, l := (10 * g) / 97, (100 * g) / 97;
    assert g == 97 * (68 * k - 7 * g) + 68 * ((10 * g) % 97);
    assert g == 97 * (65 * l - 67 * g) + 65 * ((100 * g) % 97);
  }

  lemma StepInjective(r1: nat, r2: nat, c: char)
    requires r1 < 97 && r2 < 97 && r1 != r2 && (IsDigit(c) || IsUpper(c))
    ensures StepRem(r1, c) != StepRem(r2, c)
  {
    Invertible(r1 - r2);
    SameRemainder(Append(r1, c), Append(r2, c));
  }

  /** Different remainders never meet again. */
  lemma {:induction false} RemInjective(r1: nat, r2: nat, s: string)
    requires r1 < 97 && r2 < 97 && r1 != r2 && Allowed(s)
    ensures Rem(r1, s) != Rem(r2, s)
    decreases |s|
  {
    if s != "" {
      StepInjective(r1, r2, s[0]);
      RemInjective(StepRem(r1, s[0]), StepRem(r2, s[0]), s[1..]);
    }
  }

  lemma AcceptedIsRem(s: string)
    requires |s| >= 4 && Allowed(s)
    ensures Allowed(Rearranged(s)) && (Accepted(s) <==> Rem(0, Rearranged(s)) == 1)
  {
    RearrangedAllowed(s);
    RemIsNumber(Rearranged(s));
  }

  /** Two texts that differ in one stretch agree exactly when the stretches leave the same remainder. */
  lemma RemDiffers(pre: string, mid1: string, mid2: string, post: string)
    requires Allowed(pre) && Allowed(mid1) && Allowed(mid2) && Allowed(post)
    ensures Allowed(pre + mid1 + post) && Allowed(pre + mid2 + post)
    ensures Rem(0, pre + mid1 + post) == Rem(0, pre + mid2 + post) <==> Rem(Rem(0, pre), mid1) == Rem(Rem(0, pre), mid2)
  {
    RemConcat(0, pre, mid1);
    RemConcat(0, pre, mid2);
    RemConcat(0, pre + mid1, post);
    RemConcat(0, pre + mid2, post);
    var r1, r2 := Rem(Rem(0, pre), mid1), Rem(Rem(0, pre), mid2);
    if r1 != r2 {
      RemInjective(r1, r2, post);
    }
  }

  lemma NoSmallMultiple(x: int)
    requires -97 < x < 97 && x != 0
    ensures x % 97 != 0
  {
  }

  lemma RemOfOne(m: nat, c: char)
    requires m < 97 && (IsDigit(c) || IsUpper(c))
    ensures Rem(m, [c]) == StepRem(m, c)
  {
    assert [c][1..] == [];
    assert Rem(StepRem(m, c), []) == StepRem(m, c);
  }

  lemma RemSeparates(m: nat, a: char, b: char)
    requires m < 97 && a != b && ((IsDigit(a) && IsDigit(b)) || (IsUpper(a) && IsUpper(b)))
    ensures Rem(m, [a]) != Rem(m, [b])
  {
    RemOfOne(m, a);
    RemOfOne(m, b);
    SameRemainder(Append(m, a), Append(m, b));
    NoSmallMultiple(ValueOf(a) as int - ValueOf(b));
  }

  lemma RearrangedUpdate(s: string, i: nat, c: char) returns (j: nat)
    requires |s| >= 4 && i < |s|
    ensures j < |s| && Rearranged(s)[j] == s[i] && Rearranged(s[i := c]) == Rearranged(s)[j := c]
  {
    j := if i < 4 then |s| - 4 + i else i - 4;
  }

  lemma ReplacementSeparates(r: string, j: nat, c: char)
    requires Allowed(r) && j < |r| && c != r[j]
    requires (IsDigit(c) && IsDigit(r[j])) || (IsUpper(c) && IsUpper(r[j]))
    ensures Allowed(r[j := c]) && Rem(0, r[j := c]) != Rem(0, r)
  {
    var pre, post := r[..j], r[j + 1..];
    assert r == pre + [r[j]] + post && r[j := c] == pre + [c] + post;
    RemDiffers(pre, [r[j]], [c], post);
    RemSeparates(Rem(0, pre), r[j], c);
  }

  /** Replacing one digit by another digit, or one letter by another letter, is always rejected. */
  lemma SubstitutionRejected(s: string, i: nat, c: char)
    requires Accepted(s) && i < |s| && c != s[i]
    requires (IsDigit(c) && IsDigit(s[i])) || (IsUpper(c) && IsUpper(s[i]))
    ensures !Accepted(s[i := c])
  {
    var j := RearrangedUpdate(s, i, c);
    AcceptedIsRem(s);
    ReplacementSeparates(Rearranged(s), j, c);
    RearrangedAllowed(s[i := c]);
    AcceptedIsRem(s[i := c]);
  }

  /** The transpositions of a letter and a digit that MOD 97-10 cannot see. */
  predicate Blind(a: char, b: char) {
    (a, b) in {('B', '1'), ('1', 'B'), ('M', '2'), ('2', 'M'), ('X', '3'), ('3', 'X')}
  }

  lemma TwoSteps(m: nat, a: char, b: char)
    requires m < 97 && (IsDigit(a) || IsUpper(a)) && (IsDigit(b) || IsUpper(b))
    ensures Rem(m, [a, b]) == Append(Append(m, a), b) % 97
  {
    assert [a, b][1..] == [b];
    RemOfOne(StepRem(m, a), b);
    StepOfMod(Append(m, a), b);
  }

  /** 99 d = 9 l modulo 97 only when the letter's value is eleven times the digit. */
  lemma SwapGap(d: int, l: int)
    requires 0 <= d < 10 <= l < 36
    ensures (99 * d - 9 * l) % 97 == 0 <==> l == 11 * d
  {
    var k := (99 * d - 9 * l) / 97;
    if (99 * d - 9 * l) % 97 == 0 {
      assert -4 <= k <= 8;
      assert 99 * d - 9 * l == 97 * k;
    }
  }

  lemma BlindPairs(a: char, b: char)
    requires IsDigit(a) && IsUpper(b)
    ensures Blind(a, b) <==> ValueOf(b) == 11 * ValueOf(a)
    ensures Blind(b, a) <==> ValueOf(b) == 11 * ValueOf(a)
  {
  }

  lemma NoBlindDigits(x: int, y: int)
    requires -26 < x - y < 26 && x != y
    ensures (9 * (x - y)) % 97 != 0 && (99 * (x - y)) % 97 != 0
  {
    var g := x - y;
    assert 9 * g == 97 * ((9 * g) / 97) + (9 * g) % 97;
    assert 99 * g == 97 * ((99 * g) / 97) + (99 * g) % 97;
  }

  /** How far apart the two orders of reading `a` and `b` after `m` are. */
  lemma SwapDistance(m: nat, a: char, b: char)
    requires (IsDigit(a) || IsUpper(a)) && (IsDigit(b) || IsUpper(b))
    ensures var x: int, y: int := ValueOf(a), ValueOf(b);
            Append(Append(m, a), b) - Append(Append(m, b), a) ==
            if IsDigit(a) then if IsDigit(b) then 9 * (x - y) else 99 * x - 9 * y
            else if IsDigit(b) then 9 * x - 99 * y else 99 * (x - y)
  {
  }

  lemma SwapRemainders(m: nat, a: char, b: char)
    requires m < 97 && a != b && (IsDigit(a) || IsUpper(a)) && (IsDigit(b) || IsUpper(b))
    ensures Append(Append(m, a), b) % 97 == Append(Append(m, b), a) % 97 <==> Blind(a, b)
  {
    var p, q := Append(Append(m, a), b), Append(Append(m, b), a);
    SwapDistance(m, a, b);
    SwapDistance(m, b, a);
    SameRemainder(p, q);
    SameRemainder(q, p);
    if IsDigit(a) == IsDigit(b) {
      NoBlindDigits(ValueOf(a), ValueOf(b));
    } else if IsDigit(a) {
      BlindPairs(a, b);
      SwapGap(ValueOf(a), ValueOf(b));
    } else {
      BlindPairs(b, a);
      SwapGap(ValueOf(b), ValueOf(a));
    }
  }

  /** Swapping two different neighbours of the rearranged string is rejected, except for B/1, M/2 and X/3. */
  lemma SwapRejectedExactlyUnlessBlind(s: string, t: string, j: nat)
    requires Accepted(s) && |t| == |s| && j + 1 < |s|
    requires Rearranged(s)[j] != Rearranged(s)[j + 1]
    requires Rearranged(t) == Rearranged(s)[j := Rearranged(s)[j + 1]][j + 1 := Rearranged(s)[j]]
    ensures Accepted(t) <==> Blind(Rearranged(s)[j], Rearranged(s)[j + 1])
  {
    var r, q := Rearranged(s), Rearranged(t);
    var a, b, pre, post := r[j], r[j + 1], r[..j], r[j + 2..];
    AcceptedIsRem(s);
    assert r == pre + [a, b] + post && q == pre + [b, a] + post;
    assert forall x | x in pre || x in post || x == a || x == b :: x in r;
    RemDiffers(pre, [a, b], [b, a], post);
    RearrangedAllowed(t);
    AcceptedIsRem(t);
    TwoSteps(Rem(0, pre), a, b);
    TwoSteps(Rem(0, pre), b, a);
    SwapRemainders(Rem(0, pre), a, b);
  }

  // ---------- check digits ----------

  function TwoDigits(v: nat): string
    requires v < 100
  {
    [(v / 10) as char + '0', (v % 10) as char + '0']
  }

  /** A country code and a BBAN with check digits `v`. */
  function WithCheck(country: string, bban: string, v: nat): string
    requires v < 100
  {
    country + TwoDigits(v) + bban
  }

  lemma WithCheckNumber(country: string, bban: string, v: nat)
    requires |country| == 2 && Allowed(country) && Allowed(bban) && v < 100
    ensures Allowed(WithCheck(country, bban, v)) && Allowed(bban + country)
    ensures Allowed(Rearranged(WithCheck(country, bban, v)))
    ensures Number(Rearranged(WithCheck(country, bban, v))) == 100 * Number(bban + country) + v
  {
    var s, d := WithCheck(country, bban, v), TwoDigits(v);
    assert IsDigit(d[0]) && IsDigit(d[1]);
    var front := bban + country;
    assert Rearranged(s) == front + [d[0]] + [d[1]];
    NumberSnoc(front, d[0]);
    NumberSnoc(front + [d[0]], d[1]);
  }

  lemma ResidueOne(n: nat, v: nat)
    requires v < 100
    ensures (n + v) % 97 == 1 <==> v == 98 - n % 97 || v == 98 - n % 97 + 97 || v == 98 - n % 97 - 97
  {
    AddMultiple(n % 97 + v, n / 97);
    assert n + v == n % 97 + v + 97 * (n / 97);
  }

  /** With N the number whose check digits are 00: 98 - N mod 97 is accepted, and any other accepted
      check digits differ from it by 97. */
  lemma CheckDigitsExactly(country: string, bban: string, v: nat)
    requires |country| == 2 && Allowed(country) && Allowed(bban) && v < 100
    ensures Allowed(Rearranged(WithCheck(country, bban, 0)))
    ensures var good := 98 - Number(Rearranged(WithCheck(country, bban, 0))) % 97;
            Accepted(WithCheck(country, bban, v)) <==> v == good || v == good + 97 || v == good - 97
  {
    WithCheckNumber(country, bban, 0);
    WithCheckNumber(country, bban, v);
    ResidueOne(100 * Number(bban + country), v);
  }
}
