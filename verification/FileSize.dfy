/** File sizes: the parser of the policy crate and the printer of the policy editor. */
module FileSize {
  import opened Prelude

  const KB := 1024
  const MB := 1024 * 1024
  const GB := 1024 * 1024 * 1024

  /** Above this a JavaScript number no longer holds every integer. */
  const SAFE := 0x20_0000_0000_0000

  // ---------- decimal text ----------

  predicate DigitChar(c: char) {
    '0' <= c <= '9'
  }

  function DigitText(d: nat): char
    requires d < 10
  {
    "0123456789"[d]
  }

  function DigitValue(c: char): (d: nat)
    requires DigitChar(c)
    ensures d < 10 && DigitText(d) == c
  {
    c as int - '0' as int
  }

  function DecimalText(n: nat): (s: string)
    ensures s != "" && forall i | 0 <= i < |s| :: DigitChar(s[i])
  {
    (if n < 10 then "" else DecimalText(n / 10)) + [DigitText(n % 10)]
  }

  function DecimalValue(s: string): nat
    requires forall i | 0 <= i < |s| :: DigitChar(s[i])
  {
    if s == "" then 0 else 10 * DecimalValue(s[..|s| - 1]) + DigitValue(s[|s| - 1])
  }

  lemma {:induction false} DecimalRoundTrip(n: nat)
    ensures DecimalValue(DecimalText(n)) == n
    decreases n
  {
    DigitRoundTrip(n % 10);
    if n < 10 {
      DecimalValueSnoc("", DigitText(n % 10));
      assert DecimalText(n) == "" + [DigitText(n % 10)];
    } else {
      DecimalRoundTrip(n / 10);
      DecimalValueSnoc(DecimalText(n / 10), DigitText(n % 10));
    }
  }

  lemma DigitRoundTrip(d: nat)
    requires d < 10
    ensures DigitChar(DigitText(d)) && DigitValue(DigitText(d)) == d
  {
  }

  lemma DecimalValueSnoc(s: string, c: char)
    requires (forall i | 0 <= i < |s| :: DigitChar(s[i])) && DigitChar(c)
    ensures DecimalValue(s + [c]) == 10 * DecimalValue(s) + DigitValue(c)
  {
    assert (s + [c])[..|s|] == s;
  }

  // ---------- parse_size ----------

  /** Unicode White_Space. */
  predicate SpaceChar(c: char) {
    || 9 <= c as int <= 13 || c as int in {32, 0x85, 0xA0, 0x1680, 0x2028, 0x2029, 0x202F, 0x205F, 0x3000}
    || 0x2000 <= c as int <= 0x200A
  }

  function TrimStart(s: string): string {
    if s != "" && SpaceChar(s[0]) then TrimStart(s[1..]) else s
  }

  function TrimEnd(s: string): string {
    if s != "" && SpaceChar(s[|s| - 1]) then TrimEnd(s[..|s| - 1]) else s
  }

  function Trim(s: string): string {
    TrimEnd(TrimStart(s))
  }

  /** How many digits the text starts with. */
  function DigitRun(s: string): (n: nat)
    ensures n <= |s| && forall i | 0 <= i < n :: DigitChar(s[i])
    ensures n < |s| ==> !DigitChar(s[n])
  {
    if s == "" || !DigitChar(s[0]) then 0 else 1 + DigitRun(s[1..])
  }

  /** No other character has an upper case among the letters of the units. */
  function UpperChar(c: char): char {
    if 'a' <= c <= 'z' then (c as int - 32) as char else c
  }

  function Upper(s: string): (u: string)
    ensures |u| == |s| && forall i | 0 <= i < |s| :: u[i] == UpperChar(s[i])
  {
    if s == "" then "" else [UpperChar(s[0])] + Upper(s[1..])
  }

  function Multiplier(unit: string): Option<nat> {
    if unit == "" || unit == "B" then Some(1)
    else if unit == "KB" || unit == "K" then Some(KB)
    else if unit == "MB" || unit == "M" then Some(MB)
    else if unit == "GB" || unit == "G" then Some(GB)
    else None
  }

  datatype SizeError = InvalidNumber | UnknownUnit

  /** The product is taken modulo 2^64, as a release build does. */
  function ParseSize(text: string): Result<U64, SizeError> {
    var s := Trim(text);
    var split := DigitRun(s);
    var number := s[..split];
    if number == "" || DecimalValue(number) >= U64_SIZE then Err(InvalidNumber)
    else
      var m := Multiplier(Upper(Trim(s[split..])));
      if m.None? then Err(UnknownUnit) else Ok(DecimalValue(number) * m.value % U64_SIZE)
  }

  // ---------- prettySize ----------

  function PrettySize(n: nat): string {
    if n % GB == 0 && n >= GB then DecimalText(n / GB) + "GB"
    else if n % MB == 0 && n >= MB then DecimalText(n / MB) + "MB"
    else if n % KB == 0 && n >= KB then DecimalText(n / KB) + "KB"
    else DecimalText(n) + "B"
  }

  // ---------- the texts that parse ----------

  /** Unicode White_Space, code point by code point. */
  ghost predicate Blank(s: string) {
    forall c <- s :: c as int in {
      0x09, 0x0A, 0x0B, 0x0C, 0x0D, 0x20, 0x85, 0xA0, 0x1680,
      0x2000, 0x2001, 0x2002, 0x2003, 0x2004, 0x2005, 0x2006, 0x2007, 0x2008, 0x2009, 0x200A,
      0x2028, 0x2029, 0x202F, 0x205F, 0x3000}
  }

  predicate Digits(d: string) {
    d != "" && forall i | 0 <= i < |d| :: '0' <= d[i] <= '9'
  }

  /** The spellings of the units and what they multiply by. */
  predicate UnitFactor(u: string, factor: nat) {
    || (u in {"", "B", "b"} && factor == 1)
    || (u in {"K", "k", "KB", "Kb", "kB", "kb"} && factor == 1024)
    || (u in {"M", "m", "MB", "Mb", "mB", "mb"} && factor == 1048576)
    || (u in {"G", "g", "GB", "Gb", "gB", "gb"} && factor == 1073741824)
  }

  /** A number and a unit, with white space around and between them. */
  ghost predicate Spells(text: string, p: string, d: string, q: string, u: string, r: string, factor: nat) {
    && text == p + (d + (q + (u + r)))
    && Blank(p) && Blank(q) && Blank(r) && Digits(d) && UnitFactor(u, factor)
  }

  lemma BlankIsSpaces(s: string)
    ensures Blank(s) <==> forall i | 0 <= i < |s| :: SpaceChar(s[i])
  {
    if Blank(s) {
      forall i | 0 <= i < |s| ensures SpaceChar(s[i]) {
        assert s[i] in s;
      }
    }
    if forall i | 0 <= i < |s| :: SpaceChar(s[i]) {
      forall c | c in s ensures Blank([c]) {
        var i :| 0 <= i < |s| && s[i] == c;
      }
      assert forall c | c in s :: c in [c];
    }
  }

  lemma {:induction false} TrimStartOf(p: string, s: string)
    requires (forall i | 0 <= i < |p| :: SpaceChar(p[i])) && (s != "" ==> !SpaceChar(s[0]))
    ensures TrimStart(p + s) == s
  {
    if p == "" {
      assert p + s == s;
    } else {
      ConcatFirst(p, s);
      TrimStartOf(p[1..], s);
    }
  }

  lemma {:induction false} TrimEndOf(s: string, r: string)
    requires (forall i | 0 <= i < |r| :: SpaceChar(r[i])) && (s != "" ==> !SpaceChar(s[|s| - 1]))
    ensures TrimEnd(s + r) == s
  {
    if r == "" {
      assert s + r == s;
    } else {
      assert (s + r)[..|s + r| - 1] == s + r[..|r| - 1] && (s + r)[|s + r| - 1] == r[|r| - 1];
      TrimEndOf(s, r[..|r| - 1]);
    }
  }

  lemma {:induction false} TrimStartBlank(s: string)
    requires forall i | 0 <= i < |s| :: SpaceChar(s[i])
    ensures TrimStart(s) == ""
  {
    TrimStartOf(s, "");
    assert s + "" == s;
  }

  lemma TrimOf(p: string, s: string, r: string)
    requires Blank(p) && Blank(r) && (s != "" ==> !SpaceChar(s[0]) && !SpaceChar(s[|s| - 1]))
    ensures Trim(p + (s + r)) == s
  {
    BlankIsSpaces(p);
    BlankIsSpaces(r);
    if s == "" {
      assert s + r == r;
      TrimStartBlank(p + r);
    } else {
      ConcatFirst(s, r);
      TrimStartOf(p, s + r);
      TrimEndOf(s, r);
    }
  }

  lemma {:induction false} StartSplits(s: string) returns (p: string)
    ensures s == p + TrimStart(s) && forall i | 0 <= i < |p| :: SpaceChar(p[i])
    ensures TrimStart(s) != "" ==> !SpaceChar(TrimStart(s)[0])
  {
    p := "";
    if s != "" && SpaceChar(s[0]) {
      var more := StartSplits(s[1..]);
      p := [s[0]] + more;
      assert p + TrimStart(s) == [s[0]] + s[1..];
    }
  }

  lemma {:induction false} EndSplits(s: string) returns (r: string)
    ensures s == TrimEnd(s) + r && forall i | 0 <= i < |r| :: SpaceChar(r[i])
  {
    r := "";
    if s != "" && SpaceChar(s[|s| - 1]) {
      var more := EndSplits(s[..|s| - 1]);
      r := more + [s[|s| - 1]];
      assert TrimEnd(s) + r == s[..|s| - 1] + [s[|s| - 1]];
    }
  }

  /** What trimming cuts off is white space. */
  lemma TrimSplits(s: string) returns (p: string, r: string)
    ensures s == p + (Trim(s) + r) && Blank(p) && Blank(r)
  {
    p := StartSplits(s);
    r := EndSplits(TrimStart(s));
    BlankIsSpaces(p);
    BlankIsSpaces(r);
  }

  lemma {:induction false} DigitRunOf(digits: string, rest: string)
    requires forall i | 0 <= i < |digits| :: DigitChar(digits[i])
    requires rest == "" || !DigitChar(rest[0])
    ensures DigitRun(digits + rest) == |digits|
  {
    if digits == "" {
      assert digits + rest == rest;
    } else {
      ConcatFirst(digits, rest);
      DigitRunOf(digits[1..], rest);
    }
  }

  /** The multiplier of the upper-cased unit, by its spellings. */
  lemma MultiplierExactly(u: string, factor: nat)
    ensures Multiplier(Upper(u)) == Some(factor) <==> UnitFactor(u, factor)
  {
    if |u| == 0 {
      assert u == "";
    } else if |u| == 1 {
      assert u == [u[0]];
    } else if |u| == 2 {
      assert u == [u[0], u[1]];
      assert Upper(u) == [UpperChar(u[0]), UpperChar(u[1])];
    }
  }

  lemma UnitEnds(u: string, factor: nat)
    requires UnitFactor(u, factor) && u != ""
    ensures !SpaceChar(u[0]) && !SpaceChar(u[|u| - 1]) && !DigitChar(u[0])
  {
  }

  /** What is left after trimming, and how it splits into the number and the unit. */
  lemma TrimmedSize(text: string, p: string, d: string, q: string, u: string, r: string, factor: nat)
    requires Spells(text, p, d, q, u, r, factor)
    ensures var t := Trim(text); DigitRun(t) == |d| && t[..|d|] == d && Trim(t[|d|..]) == u
  {
    var rest := if u == "" then "" else q + u;
    var t := d + rest;
    var tail := if u == "" then q + r else r;
    BlankIsSpaces(q);
    if u != "" {
      UnitEnds(u, factor);
      assert t[|t| - 1] == u[|u| - 1];
    }
    assert d + (q + (u + r)) == t + tail;
    TrimOf(p, t, tail);
    DigitRunOf(d, rest);
    assert t[|d|..] == rest && t[..|d|] == d;
    TrimOf(q, u, "");
    assert u + "" == u;
    if u == "" {
      TrimOf("", "", "");
      assert "" + ("" + "") == "";
    }
  }

  /** A spelled size parses to the product, reduced modulo 2^64, unless its number alone is too large. */
  lemma ParseSpelled(text: string, p: string, d: string, q: string, u: string, r: string, factor: nat)
    requires Spells(text, p, d, q, u, r, factor)
    ensures ParseSize(text) == if DecimalValue(d) < 0x1_0000_0000_0000_0000
                               then Ok(DecimalValue(d) * factor % 0x1_0000_0000_0000_0000) else Err(InvalidNumber)
  {
    TrimmedSize(text, p, d, q, u, r, factor);
    MultiplierExactly(u, factor);
  }

  lemma ModExact(x: nat)
    ensures x % U64_SIZE == x <==> x < U64_SIZE
  {
  }

  lemma NoSmaller(k: nat, factor: nat)
    requires factor >= 1
    ensures k * factor >= k
  {
  }

  /** It parses to the size it names exactly when that size fits 64 bits. */
  lemma ParsesExactlyWhenItFits(p: string, k: nat, q: string, u: string, r: string, factor: nat)
    requires Blank(p) && Blank(q) && Blank(r) && UnitFactor(u, factor)
    ensures ParseSize(p + (DecimalText(k) + (q + (u + r)))) == Ok(k * factor) <==>
              k * factor < 0x1_0000_0000_0000_0000
  {
    ParseSpelled(p + (DecimalText(k) + (q + (u + r))), p, DecimalText(k), q, u, r, factor);
    DecimalRoundTrip(k);
    NoSmaller(k, factor);
    ModExact(k * factor);
  }

  lemma Rejoin(text: string, t: string, p: string, d: string, rest: string, q: string, u: string, end: string,
          r: string)
    requires text == p + (t + r) && t == d + rest && rest == q + (u + end)
    ensures text == p + (d + (q + (u + (end + r))))
  {
  }

  lemma SpellingOf(text: string)
    returns (p: string, d: string, q: string, u: string, r: string, factor: nat)
    requires ParseSize(text).Ok?
    ensures Spells(text, p, d, q, u, r, factor) && DecimalValue(d) < 0x1_0000_0000_0000_0000
  {
    var t := Trim(text);
    var n := DigitRun(t);
    var inner, end;
    p, inner := TrimSplits(text);
    q, end := TrimSplits(t[n..]);
    d, u, r := t[..n], Trim(t[n..]), end + inner;
    factor := Multiplier(Upper(u)).value;
    MultiplierExactly(u, factor);
    BlankConcat(end, inner);
    assert t == d + t[n..];
    Rejoin(text, t, p, d, t[n..], q, u, end, inner);
  }

  /** Every other text is an error: what parses is a spelled size whose number fits 64 bits. */
  lemma OnlySpelledSizesParse(text: string)
    ensures ParseSize(text).Ok? <==>
              exists p, d, q, u, r, factor :: Spells(text, p, d, q, u, r, factor)
                                              && DecimalValue(d) < 0x1_0000_0000_0000_0000
  {
    if ParseSize(text).Ok? {
      var p, d, q, u, r, factor := SpellingOf(text);
    }
    forall p, d, q, u, r, factor | Spells(text, p, d, q, u, r, factor) && DecimalValue(d) < 0x1_0000_0000_0000_0000
      ensures ParseSize(text).Ok?
    {
      ParseSpelled(text, p, d, q, u, r, factor);
    }
  }

  /** White space, then a number that fits 64 bits, then something that does not go on with a digit. */
  ghost predicate StartsWithNumber(text: string, p: string, d: string, rest: string) {
    && text == p + (d + rest) && Blank(p) && Digits(d) && DecimalValue(d) < 0x1_0000_0000_0000_0000
    && (rest != "" ==> !('0' <= rest[0] <= '9'))
  }

  lemma {:induction false} TrimEndKeeps(d: string, rest: string) returns (left: string)
    requires Digits(d) && (rest != "" ==> !DigitChar(rest[0]))
    ensures TrimEnd(d + rest) == d + left && (left != "" ==> !DigitChar(left[0]))
    decreases |rest|
  {
    left := rest;
    if rest == "" {
      assert d + rest == d;
    } else {
      assert (d + rest)[..|d + rest| - 1] == d + rest[..|rest| - 1] && (d + rest)[|d + rest| - 1] == rest[|rest| - 1];
      if SpaceChar(rest[|rest| - 1]) {
        left := TrimEndKeeps(d, rest[..|rest| - 1]);
      }
    }
  }

  lemma NumberOf(text: string) returns (p: string, d: string, rest: string)
    requires ParseSize(text) != Err(InvalidNumber)
    ensures StartsWithNumber(text, p, d, rest)
  {
    var t := Trim(text);
    var n := DigitRun(t);
    var r;
    p, r := TrimSplits(text);
    d, rest := t[..n], t[n..] + r;
    assert t == d + t[n..];
    assert text == p + (d + rest) by {
      assert (d + t[n..]) + r == d + rest;
    }
    if t[n..] == "" && r != "" {
      assert rest == r;
      BlankIsSpaces(r);
    }
  }

  lemma NumberIsRead(text: string, p: string, d: string, rest: string)
    requires StartsWithNumber(text, p, d, rest)
    ensures ParseSize(text) != Err(InvalidNumber)
  {
    BlankIsSpaces(p);
    TrimStartOf(p, d + rest);
    var left := TrimEndKeeps(d, rest);
    DigitRunOf(d, left);
    assert (d + left)[..|d|] == d;
  }

  /** The number is the complaint exactly when the text does not start with one that fits; else it is the unit. */
  lemma InvalidNumberExactly(text: string)
    ensures ParseSize(text) == Err(InvalidNumber) <==> !exists p, d, rest :: StartsWithNumber(text, p, d, rest)
  {
    if ParseSize(text) != Err(InvalidNumber) {
      var p, d, rest := NumberOf(text);
    }
    forall p, d, rest | StartsWithNumber(text, p, d, rest) ensures ParseSize(text) != Err(InvalidNumber) {
      NumberIsRead(text, p, d, rest);
    }
  }

  lemma BlankConcat(a: string, b: string)
    requires Blank(a) && Blank(b)
    ensures Blank(a + b)
  {
  }

  // ---------- printing and parsing ----------

  predicate UnitText(unit: string) {
    unit == "B" || unit == "KB" || unit == "MB" || unit == "GB"
  }

  /** `k` of the unit. */
  function Scaled(k: nat, unit: string): (n: nat)
    requires UnitText(unit)
    ensures n >= k
  {
    if unit == "GB" then k * GB else if unit == "MB" then k * MB else if unit == "KB" then k * KB else k
  }

  lemma ParseNumberUnit(k: nat, unit: string)
    requires UnitText(unit) && k < U64_SIZE
    ensures ParseSize(DecimalText(k) + unit) == Ok(Scaled(k, unit) % U64_SIZE)
  {
    var factor := if unit == "GB" then GB else if unit == "MB" then MB else if unit == "KB" then KB else 1;
    var text := DecimalText(k) + unit;
    assert text == "" + (DecimalText(k) + ("" + (unit + "")));
    ParseSpelled(text, "", DecimalText(k), "", unit, "", factor);
    DecimalRoundTrip(k);
  }

  /** The largest unit that divides `n`, bytes for zero; `k` of it make `n`. */
  ghost predicate LargestUnit(n: nat, k: nat, unit: string) {
    && UnitText(unit) && n == Scaled(k, unit)
    && (n % GB == 0 && n > 0 <==> unit == "GB")
    && (n % MB == 0 && n > 0 <==> unit == "GB" || unit == "MB")
    && (n % KB == 0 && n > 0 <==> unit == "GB" || unit == "MB" || unit == "KB")
  }

  lemma LargerUnitsDivide(n: nat)
    ensures n % GB == 0 ==> n % MB == 0
    ensures n % MB == 0 ==> n % KB == 0
    ensures n % GB == 0 && n > 0 ==> n >= GB && n == n / GB * GB
    ensures n % MB == 0 && n > 0 ==> n >= MB && n == n / MB * MB
    ensures n % KB == 0 && n > 0 ==> n >= KB && n == n / KB * KB
  {
    if n % GB == 0 {
      GbAreMb(n, n / GB);
    }
    if n % MB == 0 {
      MbAreKb(n, n / MB);
    }
  }

  lemma NoRemainder(t: int, r: int, unit: int)
    requires unit == KB || unit == MB
    requires 0 <= r < unit && unit * t == r
    ensures r == 0
  {
  }

  lemma GbAreMb(n: nat, k: nat)
    requires n == GB * k
    ensures n % MB == 0
  {
    assert n == MB * (n / MB) + n % MB;
    NoRemainder(1024 * k - n / MB, n % MB, MB);
  }

  lemma MbAreKb(n: nat, k: nat)
    requires n == MB * k
    ensures n % KB == 0
  {
    assert n == KB * (n / KB) + n % KB;
    NoRemainder(1024 * k - n / KB, n % KB, KB);
  }

  lemma PrettyUnit(n: nat) returns (k: nat, unit: string)
    ensures LargestUnit(n, k, unit) && PrettySize(n) == DecimalText(k) + unit
  {
    LargerUnitsDivide(n);
    if n % GB == 0 && n >= GB {
      k, unit := n / GB, "GB";
    } else if n % MB == 0 && n >= MB {
      k, unit := n / MB, "MB";
    } else if n % KB == 0 && n >= KB {
      k, unit := n / KB, "KB";
    } else {
      k, unit := n, "B";
    }
  }

  /** Printing and parsing gives the size back, for every size that a JavaScript number can hold. */
  lemma ParsePretty(n: nat)
    requires n < SAFE
    ensures ParseSize(PrettySize(n)) == Ok(n)
  {
    var k, unit := PrettyUnit(n);
    ParseNumberUnit(k, unit);
    ModExact(n);
  }

  /** Whatever was typed, its re-printed form has the same value and the largest unit that divides it. */
  lemma ReprintKeepsValue(text: string)
    requires ParseSize(text).Ok? && ParseSize(text).value < SAFE
    ensures var n := ParseSize(text).value;
            && ParseSize(PrettySize(n)) == Ok(n)
            && exists k, unit :: LargestUnit(n, k, unit) && PrettySize(n) == DecimalText(k) + unit
  {
    var n := ParseSize(text).value;
    ParsePretty(n);
    var k, unit := PrettyUnit(n);
  }
}
