/**
 The subset of block YAML that the policy editor writes: lines of the form `key:`, `key: scalar` and
 `key: [a, b]`, nested by indentation, with `- ` opening a sequence item. Writing goes from a tree to
 lines to text; reading goes back.
 */
module YamlText {
  import opened Prelude
  import opened YamlScalar

  datatype Value = Nothing | Scalar(text: string) | Items(texts: seq<string>)

  datatype Line = Line(indent: nat, dash: bool, key: string, value: Value)

  // ---------- one line ----------

  function Spaces(n: nat): string {
    if n == 0 then "" else " " + Spaces(n - 1)
  }

  function ItemsText(texts: seq<string>): string {
    if texts == [] then ""
    else if |texts| == 1 then YamlString(texts[0])
    else YamlString(texts[0]) + (", " + ItemsText(texts[1..]))
  }

  function ValueText(v: Value): string {
    match v
    case Nothing => ""
    case Scalar(t) => " " + YamlString(t)
    case Items(ts) => " [" + (ItemsText(ts) + "]")
  }

  function LineText(l: Line): string {
    Spaces(l.indent) + ((if l.dash then "- " else "") + (YamlString(l.key) + (":" + ValueText(l.value))))
  }

  function ReadItems(s: string): Option<seq<string>>
    decreases |s|
  {
    var first := ReadScalar(s);
    if first.None? then None
    else
      var rest := first.value.1;
      if rest == "]" then Some([first.value.0])
      else if |rest| < 2 || rest[0] != ',' || rest[1] != ' ' then None
      else
        var more := ReadItems(rest[2..]);
        if more.None? then None else Some([first.value.0] + more.value)
  }

  /** A bare `-` that ends its line opens a block sequence, which is an error after a key. */
  function ReadValue(s: string): Option<Value> {
    if s == "" then Some(Nothing)
    else if s[0] != ' ' then None
    else if |s| > 1 && s[1] == '[' then
      var items := ReadItems(s[2..]);
      if items.None? then None else Some(Items(items.value))
    else
      var scalar := ReadScalar(s[1..]);
      if scalar.None? || scalar.value.1 != "" || scalar.value.0 == "-" then None else Some(Scalar(scalar.value.0))
  }

  /** The longest written form of a key (YAML 1.2 section 8.2.2). */
  const KEY_LIMIT := 1024

  function ReadKey(s: string, indent: nat, dash: bool): Option<Line> {
    var key := ReadScalar(s);
    if key.None? || key.value.1 == "" || key.value.1[0] != ':' || |s| - |key.value.1| > KEY_LIMIT then None
    else
      var value := ReadValue(key.value.1[1..]);
      if value.None? then None else Some(Line(indent, dash, key.value.0, value.value))
  }

  function SpaceRun(s: string): (n: nat)
    ensures n <= |s|
  {
    if s == "" || s[0] != ' ' then 0 else 1 + SpaceRun(s[1..])
  }

  function ReadLine(s: string): Option<Line> {
    var n := SpaceRun(s);
    var rest := s[n..];
    if |rest| >= 2 && rest[0] == '-' && rest[1] == ' ' then ReadKey(rest[2..], n, true) else ReadKey(rest, n, false)
  }

  /** A line that the editor can write: it never writes an empty flow list. */
  predicate Writable(l: Line) {
    l.value.Items? ==> l.value.texts != []
  }

  predicate LegibleKey(key: string) {
    |YamlString(key)| <= 1024
  }

  /** A written line that a YAML reader accepts. */
  predicate Legible(l: Line) {
    LegibleKey(l.key) && l.value != Scalar("-")
  }

  lemma ReadLastItem(s: string, x: string)
    requires ReadScalar(s) == Some((x, "]"))
    ensures ReadItems(s) == Some([x])
  {
  }

  lemma ReadItemsCons(s: string, x: string, rest: string, more: seq<string>)
    requires ReadScalar(s) == Some((x, ", " + rest)) && ReadItems(rest) == Some(more)
    ensures ReadItems(s) == Some([x] + more)
  {
    assert (", " + rest)[2..] == rest;
  }

  lemma {:induction false} ReadItemsText(texts: seq<string>)
    requires texts != []
    ensures ReadItems(ItemsText(texts) + "]") == Some(texts)
  {
    var s := ItemsText(texts) + "]";
    if |texts| == 1 {
      ReadYamlString(texts[0], "]");
      ReadLastItem(s, texts[0]);
      assert [texts[0]] == texts;
    } else {
      var rest := ItemsText(texts[1..]) + "]";
      assert s == YamlString(texts[0]) + (", " + rest);
      ReadYamlString(texts[0], ", " + rest);
      ReadItemsText(texts[1..]);
      ReadItemsCons(s, texts[0], rest, texts[1..]);
      assert [texts[0]] + texts[1..] == texts;
    }
  }

  lemma StartOfYamlString(s: string)
    ensures YamlString(s) != "" && (YamlString(s)[0] == '"' || PlainChar(YamlString(s)[0]))
    ensures |YamlString(s)| >= 2 && YamlString(s)[0] == '-' ==> YamlString(s)[1] != ' '
  {
  }

  lemma ReadScalarText(t: string)
    ensures ReadValue(" " + YamlString(t)) == if t == "-" then None else Some(Scalar(t))
  {
    var s := " " + YamlString(t);
    StartOfYamlString(t);
    ReadYamlString(t, "");
    assert YamlString(t) + "" == YamlString(t) == s[1..];
    assert s[1] == YamlString(t)[0];
  }

  lemma ReadItemsValue(ts: seq<string>)
    requires ts != []
    ensures ReadValue(" [" + (ItemsText(ts) + "]")) == Some(Items(ts))
  {
    var s := " [" + (ItemsText(ts) + "]");
    ReadItemsText(ts);
    assert s[2..] == ItemsText(ts) + "]";
  }

  lemma ReadValueText(v: Value)
    requires v.Items? ==> v.texts != []
    ensures ReadValue(ValueText(v)) == if v == Scalar("-") then None else Some(v)
  {
    match v {
      case Nothing =>
      case Scalar(t) => ReadScalarText(t);
      case Items(ts) => ReadItemsValue(ts);
    }
  }

  lemma {:induction false} SpaceRunOf(n: nat, rest: string)
    requires rest == "" || rest[0] != ' '
    ensures SpaceRun(Spaces(n) + rest) == n && |Spaces(n)| == n
  {
    if n == 0 {
      assert Spaces(0) + rest == rest;
    } else {
      assert (Spaces(n) + rest)[1..] == Spaces(n - 1) + rest;
      SpaceRunOf(n - 1, rest);
    }
  }

  lemma ReadKeyText(l: Line)
    requires Writable(l)
    ensures ReadKey(YamlString(l.key) + (":" + ValueText(l.value)), l.indent, l.dash)
         == if Legible(l) then Some(l) else None
  {
    var rest := ":" + ValueText(l.value);
    ReadYamlString(l.key, rest);
    assert rest[1..] == ValueText(l.value);
    ReadValueText(l.value);
  }

  lemma ReadLineText(l: Line)
    requires Writable(l)
    ensures ReadLine(LineText(l)) == if Legible(l) then Some(l) else None
  {
    var body := YamlString(l.key) + (":" + ValueText(l.value));
    StartOfYamlString(l.key);
    ReadKeyText(l);
    var rest := (if l.dash then "- " else "") + body;
    SpaceRunOf(l.indent, rest);
    assert LineText(l)[l.indent..] == rest;
    if l.dash {
      assert rest[2..] == body;
    } else {
      assert rest == body;
      assert body[0] == '-' ==> body[1] != ' ';
    }
  }

  // ---------- a document ----------

  /** `lines.join('\n') + '\n'`. */
  function JoinLines(texts: seq<string>): string {
    if texts == [] then "\n"
    else if |texts| == 1 then texts[0] + "\n"
    else texts[0] + ("\n" + JoinLines(texts[1..]))
  }

  function LineTexts(lines: seq<Line>): seq<string> {
    if lines == [] then [] else [LineText(lines[0])] + LineTexts(lines[1..])
  }

  function DocumentText(lines: seq<Line>): string {
    JoinLines(LineTexts(lines))
  }

  function BreakAt(s: string): (n: nat)
    ensures n <= |s| && (n < |s| ==> s[n] == '\n')
  {
    if s == "" || s[0] == '\n' then 0 else 1 + BreakAt(s[1..])
  }

  function SplitLines(s: string): seq<string>
    decreases |s|
  {
    if s == "" then []
    else
      var n := BreakAt(s);
      [s[..n]] + (if n < |s| then SplitLines(s[n + 1..]) else [])
  }

  function ReadAll(texts: seq<string>): Option<seq<Line>> {
    if texts == [] then Some([])
    else
      var first := ReadLine(texts[0]);
      var more := ReadAll(texts[1..]);
      if first.None? || more.None? then None else Some([first.value] + more.value)
  }

  function ReadLines(s: string): Option<seq<Line>> {
    ReadAll(SplitLines(s))
  }

  /** Printable, and neither a control character nor any of YAML's line breaks or its byte order mark. */
  predicate TextChar(c: char) {
    var n := c as int;
    32 <= n <= 0x7E || (0xA0 <= n && n != 0x2028 && n != 0x2029 && n != 0xFEFF && n != 0xFFFE && n != 0xFFFF)
  }

  predicate OneLine(s: string) {
    forall i | 0 <= i < |s| :: TextChar(s[i])
  }

  predicate Printable(l: Line) {
    && OneLine(l.key)
    && (l.value.Scalar? ==> OneLine(l.value.text))
    && (l.value.Items? ==> forall i | 0 <= i < |l.value.texts| :: OneLine(l.value.texts[i]))
  }

  lemma {:induction false} OneLineEscape(s: string)
    requires OneLine(s)
    ensures OneLine(Escape(s))
  {
    if s != "" {
      OneLineEscape(s[1..]);
    }
  }

  lemma OneLineYamlString(s: string)
    requires OneLine(s)
    ensures OneLine(YamlString(s))
  {
    TwoPassesAreOne(s);
    OneLineEscape(s);
  }

  lemma {:induction false} OneLineItemsText(texts: seq<string>)
    requires forall i | 0 <= i < |texts| :: OneLine(texts[i])
    ensures OneLine(ItemsText(texts))
  {
    if texts != [] {
      OneLineYamlString(texts[0]);
      OneLineItemsText(texts[1..]);
    }
  }

  lemma {:induction false} OneLineSpaces(n: nat)
    ensures OneLine(Spaces(n))
  {
    if n > 0 {
      OneLineSpaces(n - 1);
    }
  }

  lemma OneLineText(l: Line)
    requires Printable(l)
    ensures OneLine(LineText(l))
  {
    OneLineSpaces(l.indent);
    OneLineYamlString(l.key);
    OneLineValue(l.value);
    var tail := ":" + ValueText(l.value);
    OneLineJoin(":", ValueText(l.value));
    OneLineJoin(YamlString(l.key), tail);
    OneLineJoin(if l.dash then "- " else "", YamlString(l.key) + tail);
    OneLineJoin(Spaces(l.indent), (if l.dash then "- " else "") + (YamlString(l.key) + tail));
  }

  lemma OneLineJoin(a: string, b: string)
    requires OneLine(a) && OneLine(b)
    ensures OneLine(a + b)
  {
  }

  lemma OneLineValue(v: Value)
    requires v.Scalar? ==> OneLine(v.text)
    requires v.Items? ==> forall i | 0 <= i < |v.texts| :: OneLine(v.texts[i])
    ensures OneLine(ValueText(v))
  {
    match v {
      case Nothing =>
      case Scalar(t) => OneLineYamlString(t);
      case Items(ts) => OneLineItemsText(ts);
    }
  }

  lemma {:induction false} BreakAfter(s: string, rest: string)
    requires OneLine(s)
    ensures BreakAt(s + ("\n" + rest)) == |s|
  {
    var text := s + ("\n" + rest);
    if s != "" {
      assert text[1..] == s[1..] + ("\n" + rest);
      BreakAfter(s[1..], rest);
    }
  }

  lemma SplitFirst(first: string, rest: string)
    requires OneLine(first)
    ensures SplitLines(first + ("\n" + rest)) == [first] + SplitLines(rest)
  {
    var text := first + ("\n" + rest);
    BreakAfter(first, rest);
    assert text[..|first|] == first && text[|first| + 1..] == rest;
  }

  lemma {:induction false} SplitJoined(texts: seq<string>)
    requires texts != [] && forall i | 0 <= i < |texts| :: OneLine(texts[i])
    ensures SplitLines(JoinLines(texts)) == texts
  {
    if |texts| == 1 {
      SplitFirst(texts[0], "");
      assert "\n" + "" == "\n" && [texts[0]] + [] == texts;
    } else {
      SplitFirst(texts[0], JoinLines(texts[1..]));
      SplitJoined(texts[1..]);
      assert [texts[0]] + texts[1..] == texts;
    }
  }

  lemma {:induction false} LineTextsAreLines(lines: seq<Line>)
    requires forall i | 0 <= i < |lines| :: Printable(lines[i])
    ensures |LineTexts(lines)| == |lines| && forall i | 0 <= i < |lines| :: OneLine(LineTexts(lines)[i])
  {
    if lines != [] {
      OneLineText(lines[0]);
      LineTextsAreLines(lines[1..]);
    }
  }

  lemma ReadAllCons(text: string, rest: seq<string>)
    ensures ReadAll([text] + rest) == if ReadLine(text).None? || ReadAll(rest).None? then None
                                      else Some([ReadLine(text).value] + ReadAll(rest).value)
  {
    assert ([text] + rest)[1..] == rest;
  }

  predicate AllLegible(lines: seq<Line>) {
    forall i | 0 <= i < |lines| :: Legible(lines[i])
  }

  lemma AllLegibleCons(lines: seq<Line>)
    requires lines != []
    ensures AllLegible(lines) <==> Legible(lines[0]) && AllLegible(lines[1..])
  {
    if AllLegible(lines[1..]) && Legible(lines[0]) {
      forall i | 0 <= i < |lines| ensures Legible(lines[i]) {
        assert i > 0 ==> lines[i] == lines[1..][i - 1];
      }
    }
  }

  lemma ReadFirstText(text: string, rest: seq<string>, lines: seq<Line>)
    requires lines != []
    requires ReadLine(text) == if Legible(lines[0]) then Some(lines[0]) else None
    requires ReadAll(rest) == if AllLegible(lines[1..]) then Some(lines[1..]) else None
    ensures ReadAll([text] + rest) == if AllLegible(lines) then Some(lines) else None
  {
    AllLegibleCons(lines);
    ReadAllCons(text, rest);
    assert [lines[0]] + lines[1..] == lines;
  }

  lemma {:induction false} ReadAllTexts(lines: seq<Line>)
    requires forall i | 0 <= i < |lines| :: Writable(lines[i])
    ensures ReadAll(LineTexts(lines)) == if AllLegible(lines) then Some(lines) else None
  {
    if lines != [] {
      ReadLineText(lines[0]);
      ReadAllTexts(lines[1..]);
      ReadFirstText(LineText(lines[0]), LineTexts(lines[1..]), lines);
    }
  }

  /** Reading a written document gives its lines back exactly when every line is legible. */
  lemma ReadDocument(lines: seq<Line>)
    requires lines != []
    requires forall i | 0 <= i < |lines| :: Writable(lines[i]) && Printable(lines[i])
    ensures ReadLines(DocumentText(lines)) == if AllLegible(lines) then Some(lines) else None
  {
    LineTextsAreLines(lines);
    SplitJoined(LineTexts(lines));
    ReadAllTexts(lines);
  }
}
