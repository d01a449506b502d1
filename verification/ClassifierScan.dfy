/**
 The filters of the IBAN and card scanners over the spans that their patterns find. Text is ASCII;
 spans come from the regex engine in ascending order and do not overlap.
 */
module ClassifierScan {
  import opened Prelude
  import FileSize
  import Iban
  import Luhn

  datatype Found = Found(start: nat, raw: string) {
    function End(): nat {
      start + |raw|
    }
  }

  datatype Match = Match(classifier: string, start: nat, end: nat, redacted: string, last4: string)

  /** `chars().filter(..)`. */
  function Filtered(s: string, keep: char -> bool): (t: string)
    ensures |t| <= |s|
  {
    if s == "" then "" else (if keep(s[0]) then [s[0]] else []) + Filtered(s[1..], keep)
  }

  function NotSpace(c: char): bool {
    !FileSize.SpaceChar(c)
  }

  function IsDigit(c: char): bool {
    '0' <= c <= '9'
  }

  function Stripped(raw: string): string {
    Filtered(raw, NotSpace)
  }

  function DigitsIn(raw: string): string {
    Filtered(raw, IsDigit)
  }

  function Last4(s: string): string
    requires |s| >= 4
  {
    s[|s| - 4..]
  }

  function RedactIban(s: string): string
    requires |s| >= 4
  {
    s[..2] + "**..." + Last4(s)
  }

  function RedactCard(s: string): string
    requires |s| >= 4
  {
    "**** **** **** " + Last4(s)
  }

  // ---------- what is reported ----------

  ghost predicate IsIban(raw: string) {
    15 <= |Stripped(raw)| <= 34 && Iban.Accepted(Stripped(raw))
  }

  predicate IsCard(raw: string) {
    13 <= |DigitsIn(raw)| <= 19 && Luhn.Valid(DigitsIn(raw))
  }

  ghost function IbanReport(f: Found): Option<Match> {
    if IsIban(f.raw) then
      Some(Match("iban", f.start, f.End(), RedactIban(Stripped(f.raw)), Last4(Stripped(f.raw))))
    else None
  }

  function CardReport(f: Found): Option<Match> {
    if IsCard(f.raw) then
      Some(Match("credit_card", f.start, f.End(), RedactCard(DigitsIn(f.raw)), Last4(DigitsIn(f.raw))))
    else None
  }

  function Reported(found: seq<Found>, report: Found -> Option<Match>): seq<Match> {
    if found == [] then []
    else
      var n := |found| - 1;
      Reported(found[..n], report) + if report(found[n]).Some? then [report(found[n]).value] else []
  }

  /** A report keeps the place of its span. */
  ghost predicate InPlace(report: Found -> Option<Match>) {
    forall f :: report(f).Some? ==> report(f).value.start == f.start && report(f).value.end == f.End()
  }

  lemma BothInPlace()
    ensures InPlace(IbanReport) && InPlace(CardReport)
  {
  }

  ghost predicate Apart(found: seq<Found>) {
    forall i, j | 0 <= i < j < |found| :: found[i].End() <= found[j].start
  }

  /** The reports are in text order and do not overlap. */
  ghost predicate InTextOrder(out: seq<Match>) {
    forall i, j | 0 <= i < j < |out| :: out[i].end <= out[j].start
  }

  lemma {:induction false} ReportedMembers(found: seq<Found>, report: Found -> Option<Match>, m: Match)
    ensures m in Reported(found, report) <==> exists f <- found :: report(f) == Some(m)
  {
    if found != [] {
      var n := |found| - 1;
      ReportedMembers(found[..n], report, m);
      assert found == found[..n] + [found[n]];
    }
  }

  lemma {:induction false} ReportedInOrder(found: seq<Found>, report: Found -> Option<Match>)
    requires Apart(found) && InPlace(report)
    ensures InTextOrder(Reported(found, report))
    ensures found != [] ==> forall m <- Reported(found, report) :: m.end <= found[|found| - 1].End()
  {
    if found != [] {
      var n := |found| - 1;
      var front := Reported(found[..n], report);
      ReportedInOrder(found[..n], report);
      if n > 0 {
        assert found[n - 1].End() <= found[n].start <= found[n].End();
      }
      forall m | m in front ensures m.end <= found[n].start {
        assert m.end <= found[n - 1].End();
      }
    }
  }

  /** What both scanners promise: exactly the accepted spans, and, the spans being apart, in text order. */
  lemma ReportsExactly(found: seq<Found>, report: Found -> Option<Match>)
    requires InPlace(report)
    ensures forall m :: m in Reported(found, report) <==> exists f <- found :: report(f) == Some(m)
    ensures Apart(found) ==> InTextOrder(Reported(found, report))
  {
    forall m ensures m in Reported(found, report) <==> exists f <- found :: report(f) == Some(m) {
      ReportedMembers(found, report, m);
    }
    if Apart(found) {
      ReportedInOrder(found, report);
    }
  }

  /** What is reported of a span, and when. */
  ghost predicate ReportsIban(f: Found, m: Match) {
    var s := Stripped(f.raw);
    && 15 <= |s| <= 34 && Iban.Accepted(s)
    && m.classifier == "iban" && m.start == f.start && m.end == f.start + |f.raw|
    && m.last4 == s[|s| - 4..] && m.redacted == s[..2] + "**..." + s[|s| - 4..]
  }

  ghost predicate ReportsCard(f: Found, m: Match) {
    var s := DigitsIn(f.raw);
    && 13 <= |s| <= 19 && Luhn.PositionSum(s, |s|) % 10 == 0
    && m.classifier == "credit_card" && m.start == f.start && m.end == f.start + |f.raw|
    && m.last4 == s[|s| - 4..] && m.redacted == "**** **** **** " + s[|s| - 4..]
  }

  lemma IbanReportIs(f: Found, m: Match)
    ensures IbanReport(f) == Some(m) <==> ReportsIban(f, m)
  {
  }

  lemma CardReportIs(f: Found, m: Match)
    ensures CardReport(f) == Some(m) <==> ReportsCard(f, m)
  {
    Luhn.ValidByPositions(DigitsIn(f.raw));
  }

  method ScanIban(found: seq<Found>) returns (out: seq<Match>)
    ensures out == Reported(found, IbanReport)
    ensures forall m :: m in out <==> exists f <- found :: ReportsIban(f, m)
    ensures Apart(found) ==> InTextOrder(out)
  {
    out := [];
    for i := 0 to |found|
      invariant out == Reported(found[..i], IbanReport)
    {
      assert found[..i + 1][..i] == found[..i];
      var f := found[i];
      var stripped := Stripped(f.raw);
      if !(15 <= |stripped| <= 34) {
        continue;
      }
      var ok := Iban.IbanCheck(stripped);
      if !ok {
        continue;
      }
      out := out + [Match("iban", f.start, f.End(), RedactIban(stripped), Last4(stripped))];
    }
    assert found[..|found|] == found;
    BothInPlace();
    ReportsExactly(found, IbanReport);
    forall f, m ensures IbanReport(f) == Some(m) <==> ReportsIban(f, m) {
      IbanReportIs(f, m);
    }
  }

  lemma {:induction false} ShortSums(s: string, double: bool)
    ensures Luhn.LuhnSum(s, double) <= 9 * |s|
  {
    if s != "" {
      ShortSums(s[..|s| - 1], !double);
    }
  }

  method ScanCards(found: seq<Found>) returns (out: seq<Match>)
    ensures out == Reported(found, CardReport)
    ensures forall m :: m in out <==> exists f <- found :: ReportsCard(f, m)
    ensures Apart(found) ==> InTextOrder(out)
  {
    out := [];
    for i := 0 to |found|
      invariant out == Reported(found[..i], CardReport)
    {
      assert found[..i + 1][..i] == found[..i];
      var f := found[i];
      var digits := DigitsIn(f.raw);
      if !(13 <= |digits| <= 19) {
        continue;
      }
      ShortSums(digits, false);
      var ok := Luhn.LuhnCheck(digits);
      if !ok {
        continue;
      }
      out := out + [Match("credit_card", f.start, f.End(), RedactCard(digits), Last4(digits))];
    }
    assert found[..|found|] == found;
    BothInPlace();
    ReportsExactly(found, CardReport);
    forall f, m ensures CardReport(f) == Some(m) <==> ReportsCard(f, m) {
      CardReportIs(f, m);
    }
  }

  // ---------- theorems ----------

  lemma FilteredCons(c: char, rest: string, keep: char -> bool)
    ensures Filtered([c] + rest, keep) == (if keep(c) then [c] else []) + Filtered(rest, keep)
  {
    assert ([c] + rest)[1..] == rest;
  }

  lemma {:induction false} FilteredConcat(a: string, b: string, keep: char -> bool)
    ensures Filtered(a + b, keep) == Filtered(a, keep) + Filtered(b, keep)
  {
    if a == "" {
      assert a + b == b;
    } else {
      FilteredConcat(a[1..], b, keep);
      ConcatFirst(a, b);
    }
  }

  lemma {:induction false} FilteredCount(s: string, keep: char -> bool, c: char)
    ensures multiset(Filtered(s, keep))[c] == if keep(c) then multiset(s)[c] else 0
  {
    if s != "" {
      FilteredCount(s[1..], keep, c);
      assert s == [s[0]] + s[1..];
    }
  }

  lemma TheDigits(c: char)
    ensures IsDigit(c) <==> c in {'0', '1', '2', '3', '4', '5', '6', '7', '8', '9'}
  {
  }

  lemma OneBlank(c: char)
    ensures FileSize.Blank([c]) <==> !NotSpace(c)
  {
    FileSize.BlankIsSpaces([c]);
    assert [c][0] == c;
  }

  /** What the scanners keep of a span: all that is not white space, and exactly the ten digits. */
  lemma KeptCharacters(raw: string, c: char)
    ensures multiset(Stripped(raw))[c] == if FileSize.Blank([c]) then 0 else multiset(raw)[c]
    ensures multiset(DigitsIn(raw))[c]
         == if c in {'0', '1', '2', '3', '4', '5', '6', '7', '8', '9'} then multiset(raw)[c] else 0
  {
    FilteredCount(raw, NotSpace, c);
    FilteredCount(raw, IsDigit, c);
    OneBlank(c);
    TheDigits(c);
  }

  /** How a number is grouped with spaces makes no difference. */
  lemma SpacesDoNotMatter(raw: string, i: nat, space: char)
    requires i <= |raw| && !NotSpace(space)
    ensures Stripped(raw[..i] + [space] + raw[i..]) == Stripped(raw)
    ensures IsIban(raw[..i] + [space] + raw[i..]) <==> IsIban(raw)
  {
    var a, b := raw[..i], raw[i..];
    assert Filtered([space], NotSpace) == "" by {
      assert [space][1..] == "";
    }
    FilteredConcat(a, [space], NotSpace);
    FilteredConcat(a + [space], b, NotSpace);
    FilteredConcat(a, b, NotSpace);
    assert raw == a + b;
  }

  lemma FilteredMiddle(pre: string, c: char, post: string, keep: char -> bool)
    requires keep(c)
    ensures Filtered(pre + ([c] + post), keep) == Filtered(pre, keep) + ([c] + Filtered(post, keep))
  {
    FilteredConcat(pre, [c] + post, keep);
    FilteredCons(c, post, keep);
  }

  /** Replacing one kept character replaces one character of the filtered text. */
  lemma FilteredUpdate(raw: string, i: nat, c: char, keep: char -> bool) returns (j: nat)
    requires i < |raw| && keep(raw[i]) && keep(c)
    ensures var t := Filtered(raw, keep);
            j < |t| && t[j] == raw[i] && Filtered(raw[i := c], keep) == t[j := c]
  {
    j := |Filtered(raw[..i], keep)|;
    var pre, post := raw[..i], raw[i + 1..];
    assert raw == pre + ([raw[i]] + post) && raw[i := c] == pre + ([c] + post);
    FilteredMiddle(pre, raw[i], post, keep);
    FilteredMiddle(pre, c, post, keep);
  }

  /** A reported IBAN with one digit mistyped is never reported, however it is grouped. */
  lemma MistypedIbanIsNotReported(f: Found, i: nat, c: char)
    requires IbanReport(f).Some? && i < |f.raw| && IsDigit(f.raw[i]) && IsDigit(c) && c != f.raw[i]
    ensures IbanReport(f.(raw := f.raw[i := c])).None?
  {
    var j := FilteredUpdate(f.raw, i, c, NotSpace);
    Iban.SubstitutionRejected(Stripped(f.raw), j, c);
  }

  lemma MistypedCardIsNotReported(f: Found, i: nat, c: char)
    requires CardReport(f).Some? && i < |f.raw| && IsDigit(f.raw[i]) && IsDigit(c) && c != f.raw[i]
    ensures CardReport(f.(raw := f.raw[i := c])).None?
  {
    var j := FilteredUpdate(f.raw, i, c, IsDigit);
    Luhn.SubstitutionRejected(DigitsIn(f.raw), j, c);
  }

  /** A redacted IBAN tells two numbers apart exactly by their country and last four characters. */
  lemma RedactedIbanHides(a: string, b: string)
    requires |a| >= 15 && |b| >= 15
    ensures RedactIban(a) == RedactIban(b) <==> a[..2] == b[..2] && Last4(a) == Last4(b)
  {
    var middle := "**...";
    assert RedactIban(a)[..2] == a[..2] && RedactIban(b)[..2] == b[..2];
    assert RedactIban(a)[7..] == Last4(a) && RedactIban(b)[7..] == Last4(b);
  }

  lemma RedactedCardHides(a: string, b: string)
    requires |a| >= 13 && |b| >= 13
    ensures RedactCard(a) == RedactCard(b) <==> Last4(a) == Last4(b)
  {
    assert RedactCard(a)[15..] == Last4(a) && RedactCard(b)[15..] == Last4(b);
  }
}
