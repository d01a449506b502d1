/** How the policy editor writes a string as a YAML scalar, and how a YAML reader takes it apart again. */
module YamlScalar {
  import opened Prelude

  /** The characters that are written without quotes. */
  predicate PlainChar(c: char) {
    || 'A' <= c <= 'Z' || 'a' <= c <= 'z' || '0' <= c <= '9'
    || c == '_' || c == '.' || c == '/' || c == '-'
  }

  predicate IsPlain(s: string) {
    s != "" && forall i | 0 <= i < |s| :: PlainChar(s[i])
  }

  /** A global replacement of one character. */
  function Replace(s: string, c: char, with: string): string {
    if s == "" then "" else if s[0] == c then with + Replace(s[1..], c, with) else [s[0]] + Replace(s[1..], c, with)
  }

  /** Bare when only safe characters occur; otherwise quoted, with backslashes escaped before quotes. */
  function YamlString(s: string): string {
    if s == "" then "\"\""
    else if IsPlain(s) then s
    else "\"" + Replace(Replace(s, '\\', "\\\\"), '"', "\\\"") + "\""
  }

  // ---------- reading ----------

  /**
   The body of a double-quoted scalar up to its first unescaped quote, and what follows that quote.
   Only the two escapes that the editor writes are read (YAML 1.2 section 5.7).
   */
  function ReadQuoted(s: string): (r: Option<(string, string)>)
    ensures r.Some? ==> |r.value.1| < |s|
  {
    if s == "" then None
    else if s[0] == '"' then Some(("", s[1..]))
    else if s[0] == '\\' then
      if |s| < 2 || (s[1] != '\\' && s[1] != '"') then None else Prepend(s[1], ReadQuoted(s[2..]))
    else Prepend(s[0], ReadQuoted(s[1..]))
  }

  function Prepend(c: char, r: Option<(string, string)>): Option<(string, string)> {
    if r.None? then None else Some(([c] + r.value.0, r.value.1))
  }

  /** The longest run of plain characters, and the rest. */
  function ReadPlain(s: string): (r: (string, string))
    ensures r.0 + r.1 == s
  {
    if s == "" || !PlainChar(s[0]) then ("", s)
    else var r := ReadPlain(s[1..]); ([s[0]] + r.0, r.1)
  }

  function ReadScalar(s: string): (r: Option<(string, string)>)
    ensures r.Some? ==> |r.value.1| < |s|
  {
    if s == "" then None
    else if s[0] == '"' then ReadQuoted(s[1..])
    else
      var r := ReadPlain(s);
      if r.0 == "" then None else Some(r)
  }

  // ---------- the two replacement passes ----------

  /** One pass over the string. */
  function Escape(s: string): string {
    if s == "" then ""
    else if s[0] == '\\' || s[0] == '"' then ['\\', s[0]] + Escape(s[1..])
    else [s[0]] + Escape(s[1..])
  }

  lemma {:induction false} TwoPassesAreOne(s: string)
    ensures Replace(Replace(s, '\\', "\\\\"), '"', "\\\"") == Escape(s)
  {
    if s != "" {
      var first := Replace(s[1..], '\\', "\\\\");
      TwoPassesAreOne(s[1..]);
      if s[0] == '\\' {
        var t := "\\\\" + first;
        assert t[1..] == "\\" + first && t[1..][1..] == first;
        assert Replace(t, '"', "\\\"") == "\\" + ("\\" + Replace(first, '"', "\\\""));
      } else {
        assert ([s[0]] + first)[1..] == first;
      }
    }
  }

  /** Bare are exactly the non-empty strings of letters, digits and `_./-`; the rest is quoted and escaped. */
  lemma BareExactly(s: string)
    ensures YamlString(s) == s <==>
              s != "" && forall i | 0 <= i < |s| :: var c := s[i] as int;
                65 <= c <= 90 || 97 <= c <= 122 || 48 <= c <= 57 || c == 95 || c == 46 || c == 47 || c == 45
    ensures YamlString(s) != s ==> YamlString(s) == "\"" + Escape(s) + "\""
  {
    TwoPassesAreOne(s);
    if !IsPlain(s) {
      EscapeNoShorter(s);
    }
  }

  lemma {:induction false} EscapeNoShorter(s: string)
    ensures |Escape(s)| >= |s|
  {
    if s != "" {
      EscapeNoShorter(s[1..]);
    }
  }

  // ---------- reading undoes writing ----------

  lemma {:induction false} ReadEscaped(s: string, rest: string)
    ensures ReadQuoted(Escape(s) + "\"" + rest) == Some((s, rest))
  {
    var text := Escape(s) + "\"" + rest;
    if s == "" {
      assert text == "\"" + rest && text[1..] == rest;
    } else {
      ReadEscaped(s[1..], rest);
      var tail := Escape(s[1..]) + "\"" + rest;
      if s[0] == '\\' || s[0] == '"' {
        assert text == ['\\', s[0]] + tail && text[2..] == tail;
      } else {
        assert text == [s[0]] + tail && text[1..] == tail;
      }
      assert [s[0]] + s[1..] == s;
    }
  }

  lemma {:induction false} ReadPlainRun(s: string, rest: string)
    requires forall i | 0 <= i < |s| :: PlainChar(s[i])
    requires rest == "" || !PlainChar(rest[0])
    ensures ReadPlain(s + rest) == (s, rest)
  {
    if s == "" {
      assert s + rest == rest;
    } else {
      assert (s + rest)[1..] == s[1..] + rest;
      ReadPlainRun(s[1..], rest);
      assert [s[0]] + s[1..] == s;
    }
  }

  lemma ReadEmpty(rest: string)
    ensures ReadScalar("\"\"" + rest) == Some(("", rest))
  {
    var text := "\"\"" + rest;
    assert text[1..] == "\"" + rest && text[1..][1..] == rest;
  }

  lemma ReadQuotedString(s: string, rest: string)
    ensures ReadScalar("\"" + Escape(s) + "\"" + rest) == Some((s, rest))
  {
    var text := "\"" + Escape(s) + "\"" + rest;
    assert text[1..] == Escape(s) + "\"" + rest;
    ReadEscaped(s, rest);
  }

  lemma ReadPlainString(s: string, rest: string)
    requires IsPlain(s) && (rest == "" || !PlainChar(rest[0]))
    ensures ReadScalar(s + rest) == Some((s, rest))
  {
    ReadPlainRun(s, rest);
    assert PlainChar((s + rest)[0]);
  }

  /**
   Whatever follows, as long as it cannot continue a bare scalar, reading stops exactly at the end of
   the written string and returns it.
   */
  lemma ReadYamlString(s: string, rest: string)
    requires rest == "" || !PlainChar(rest[0])
    ensures ReadScalar(YamlString(s) + rest) == Some((s, rest))
  {
    if s == "" {
      ReadEmpty(rest);
    } else if IsPlain(s) {
      ReadPlainString(s, rest);
    } else {
      TwoPassesAreOne(s);
      ReadQuotedString(s, rest);
    }
  }

  lemma YamlStringInjective(a: string, b: string)
    requires YamlString(a) == YamlString(b)
    ensures a == b
  {
    ReadYamlString(a, "");
    ReadYamlString(b, "");
    assert YamlString(a) + "" == YamlString(b) + "";
  }

  // ---------- quotes ----------

  /** Position `i` is a character of an escape pair that starts before it, counting from the left. */
  function OpenEscape(s: string, i: nat): bool
    requires i <= |s|
  {
    i > 0 && s[i - 1] == '\\' && !OpenEscape(s, i - 1)
  }

  lemma {:induction false} EscapeHidesQuotes(s: string, i: nat)
    requires i <= |Escape(s)|
    ensures i < |Escape(s)| && Escape(s)[i] == '"' ==> OpenEscape(Escape(s), i)
    ensures i == |Escape(s)| ==> !OpenEscape(Escape(s), i)
  {
    if s != "" {
      var tail := Escape(s[1..]);
      var n := if s[0] == '\\' || s[0] == '"' then 2 else 1;
      assert Escape(s) == Escape(s)[..n] + tail;
      assert !OpenEscape(Escape(s), 0) && (n == 2 ==> OpenEscape(Escape(s), 1) && !OpenEscape(Escape(s), 2));
      if i >= n {
        EscapeHidesQuotes(s[1..], i - n);
        OpenEscapeShift(Escape(s), n, i);
        assert Escape(s)[n..] == tail;
      }
    }
  }

  lemma {:induction false} OpenEscapeShift(s: string, n: nat, i: nat)
    requires n <= i <= |s| && !OpenEscape(s, n)
    ensures OpenEscape(s, i) == OpenEscape(s[n..], i - n)
    decreases i
  {
    if i > n {
      OpenEscapeShift(s, n, i - 1);
      assert s[n..][i - n - 1] == s[i - 1];
    }
  }

  lemma {:induction false} OpenEscapePrefix(s: string, p: string, i: nat)
    requires p <= s && i <= |p|
    ensures OpenEscape(s, i) == OpenEscape(p, i)
    decreases i
  {
    if i > 0 {
      OpenEscapePrefix(s, p, i - 1);
    }
  }

  /** A reader that starts at the beginning of `body` stops at its last character, a quote. */
  ghost predicate OnlyLastCloses(body: string) {
    && body != ""
    && forall i | 0 <= i < |body| :: (body[i] == '"' && !OpenEscape(body, i)) == (i == |body| - 1)
  }

  lemma EscapedBody(s: string)
    ensures OnlyLastCloses(Escape(s) + "\"")
  {
    var text := Escape(s);
    var body := text + "\"";
    forall i | 0 <= i < |body| ensures (body[i] == '"' && !OpenEscape(body, i)) == (i == |body| - 1) {
      EscapeHidesQuotes(s, i);
      OpenEscapePrefix(body, text, i);
    }
  }

  /** Between the quotes every quote is escaped, and the closing one is not. */
  lemma OnlyLastQuoteCloses(s: string)
    requires s != "" && !IsPlain(s)
    ensures YamlString(s)[..1] == "\"" && OnlyLastCloses(YamlString(s)[1..])
  {
    TwoPassesAreOne(s);
    EscapedBody(s);
    assert YamlString(s)[1..] == Escape(s) + "\"";
  }
}
