/** The escaping of the two service definition formats: three replacements for XML, a character loop for systemd. */
module ServiceText {
  import opened Text

  // ---- XML ----

  function XmlEscape(s: string): string {
    Replace(Replace(Replace(s, ['&'], "&amp;"), ['<'], "&lt;"), ['>'], "&gt;")
  }

  function XmlUnescape(s: string): string {
    Replace(Replace(Replace(s, "&lt;", "<"), "&gt;", ">"), "&amp;", "&")
  }

  /** A character with `&`, `<` and `>` escaped as asked. */
  function XmlChar(c: char, amp: bool, lt: bool, gt: bool): string {
    if amp && c == '&' then "&amp;" else if lt && c == '<' then "&lt;" else if gt && c == '>' then "&gt;" else [c]
  }

  function XmlEscaped(s: string): string {
    MapChars(s, c => XmlChar(c, true, true, true))
  }

  lemma XmlEscapedNext(s: string)
    ensures XmlEscaped([]) == []
    ensures s != [] ==> XmlEscaped(s) == XmlChar(s[0], true, true, true) + XmlEscaped(s[1..])
  {
  }

  lemma {:induction false} SkipOther(a: string, rest: string, pat: string, with: string)
    requires pat != [] && pat[0] !in a
    ensures Replace(a + rest, pat, with) == a + Replace(rest, pat, with)
  {
    if a == [] {
      assert a + rest == rest;
    } else {
      var s := a + rest;
      assert s[1..] == a[1..] + rest && s[0] == a[0];
      SkipOther(a[1..], rest, pat, with);
      if |s| >= |pat| {
        assert s[..|pat|][0] == a[0] != pat[0];
        assert Replace(s, pat, with) == [a[0]] + Replace(s[1..], pat, with);
      } else {
        assert Replace(rest, pat, with) == rest;
      }
    }
  }

  predicate IsEntity(s: string) {
    s == "&amp;" || s == "&lt;" || s == "&gt;"
  }

  /** One entity, or one character that starts none. */
  predicate IsUnit(s: string) {
    IsEntity(s) || (|s| == 1 && s[0] != '&')
  }

  lemma SkipUnit(u: string, rest: string, pat: string, with: string)
    requires IsEntity(pat) && IsUnit(u)
    ensures Replace(u + rest, pat, with) == (if u == pat then with else u) + Replace(rest, pat, with)
  {
    var s := u + rest;
    if u == pat {
      assert s[..|pat|] == pat && s[|pat|..] == rest;
    } else if IsEntity(u) {
      SkipEntity(u, rest, pat, with);
    } else {
      SkipOther(u, rest, pat, with);
    }
  }

  lemma SkipEntity(u: string, rest: string, pat: string, with: string)
    requires IsEntity(pat) && IsEntity(u) && u != pat
    ensures Replace(u + rest, pat, with) == u + Replace(rest, pat, with)
  {
    hide Replace;
    var s, body := u + rest, u[1..];
    assert u == ['&'] + body && s[1..] == body + rest && '&' !in body;
    SkipOther(body, rest, pat, with);
    assert u[1] != pat[1];
    SkipFirst(s, pat, with);
    assert ['&'] + (body + Replace(rest, pat, with)) == u + Replace(rest, pat, with);
  }

  lemma SkipFirst(s: string, pat: string, with: string)
    requires |s| >= 2 && |pat| >= 2 && s[1] != pat[1]
    ensures Replace(s, pat, with) == [s[0]] + Replace(s[1..], pat, with)
  {
    if |s| >= |pat| {
      assert s[..|pat|][1] != pat[1];
    }
  }

  lemma {:induction false} UnescapeStep(s: string, f: char -> string, pat: string, with: string, g: char -> string)
    requires IsEntity(pat)
    requires forall c :: IsUnit(f(c)) && g(c) == if f(c) == pat then with else f(c)
    ensures Replace(MapChars(s, f), pat, with) == MapChars(s, g)
  {
    if s != [] {
      hide Replace, IsEntity, IsUnit;
      UnescapeStep(s[1..], f, pat, with, g);
      SkipUnit(f(s[0]), MapChars(s[1..], f), pat, with);
    }
  }

  /** `&` is escaped first and so is not escaped twice. */
  lemma XmlEscapeIsOneMap(s: string)
    ensures XmlEscape(s) == XmlEscaped(s)
  {
    hide MapChars;
    var f0 := c => XmlChar(c, false, false, false);
    var f1 := c => XmlChar(c, true, false, false);
    var f2 := c => XmlChar(c, true, true, false);
    MapCharsIdentity(s, f0);
    forall c ensures f1(c) == Replace(f0(c), ['&'], "&amp;") && f2(c) == Replace(f1(c), ['<'], "&lt;")
        && XmlChar(c, true, true, true) == Replace(f2(c), ['>'], "&gt;") {
      ReplaceInUnit(f0(c), '&', "&amp;");
      ReplaceInUnit(f1(c), '<', "&lt;");
      ReplaceInUnit(f2(c), '>', "&gt;");
    }
    hide Replace, XmlChar;
    ReplaceAfterMap(s, f0, '&', "&amp;", f1);
    ReplaceAfterMap(s, f1, '<', "&lt;", f2);
    ReplaceAfterMap(s, f2, '>', "&gt;", c => XmlChar(c, true, true, true));
  }

  lemma ReplaceInUnit(s: string, c: char, with: string)
    requires s == [c] || c !in s
    ensures Replace(s, [c], with) == if s == [c] then with else s
  {
    if s == [c] {
      assert s[1..] == [];
    } else {
      SkipOther(s, [], [c], with);
      assert s + [] == s;
    }
  }

  /** The three replacements back undo the three replacements. */
  lemma XmlRoundTrip(s: string)
    ensures XmlUnescape(XmlEscape(s)) == s
  {
    hide MapChars, XmlEscape, Replace;
    XmlEscapeIsOneMap(s);
    var f3 := c => XmlChar(c, true, true, true);
    var f2 := c => XmlChar(c, true, false, true);
    var f1 := c => XmlChar(c, true, false, false);
    var f0 := c => XmlChar(c, false, false, false);
    UnescapeStep(s, f3, "&lt;", "<", f2);
    UnescapeStep(s, f2, "&gt;", ">", f1);
    UnescapeStep(s, f1, "&amp;", "&", f0);
    MapCharsIdentity(s, f0);
  }

  /** Escaped text opens and closes no tag. */
  lemma XmlEscapeHasNoTags(s: string)
    ensures '<' !in XmlEscape(s) && '>' !in XmlEscape(s)
    ensures '\n' !in s ==> '\n' !in XmlEscape(s)
  {
    hide MapChars;
    XmlEscapeIsOneMap(s);
    MapCharsLacks(s, c => XmlChar(c, true, true, true), '<');
    MapCharsLacks(s, c => XmlChar(c, true, true, true), '>');
    XmlKeepsLines(s);
  }

  lemma {:induction false} XmlKeepsLines(s: string)
    ensures '\n' !in s ==> '\n' !in XmlEscaped(s)
  {
    hide XmlEscaped;
    XmlEscapedNext(s);
    if s != [] {
      XmlKeepsLines(s[1..]);
    }
  }

  lemma {:induction false} TrimStartOfEscaped(s: string)
    ensures TrimStart(XmlEscaped(s)) == XmlEscaped(TrimStart(s))
  {
    hide XmlEscaped;
    XmlEscapedNext(s);
    if s != [] {
      var u := XmlChar(s[0], true, true, true);
      assert XmlEscaped(s)[0] == u[0] && (IsWhitespace(u[0]) <==> IsWhitespace(s[0]));
      if IsWhitespace(s[0]) {
        assert u == [s[0]] && XmlEscaped(s)[1..] == XmlEscaped(s[1..]);
        TrimStartOfEscaped(s[1..]);
      }
    }
  }

  lemma XmlEscapedLast(s: string)
    requires s != []
    ensures XmlEscaped(s) == XmlEscaped(s[..|s| - 1]) + XmlChar(s[|s| - 1], true, true, true)
  {
    var n := |s| - 1;
    assert s == s[..n] + [s[n]];
    MapCharsConcat(s[..n], [s[n]], c => XmlChar(c, true, true, true));
    XmlEscapedNext([s[n]]);
    assert [s[n]][1..] == [];
  }

  lemma {:induction false} TrimEndOfEscaped(s: string)
    ensures TrimEnd(XmlEscaped(s)) == XmlEscaped(TrimEnd(s))
  {
    hide XmlEscaped;
    XmlEscapedNext([]);
    if s != [] {
      XmlEscapedLast(s);
      var n := |s| - 1;
      var e, u := XmlEscaped(s), XmlChar(s[n], true, true, true);
      assert e[|e| - 1] == u[|u| - 1] && (IsWhitespace(u[|u| - 1]) <==> IsWhitespace(s[n]));
      if IsWhitespace(s[n]) {
        assert u == [s[n]] && e[..|e| - 1] == XmlEscaped(s[..n]);
        TrimEndOfEscaped(s[..n]);
      }
    }
  }

  /** Trimming the escaped text trims the text. */
  lemma UnescapeOfTrimmed(s: string)
    ensures XmlUnescape(Trim(XmlEscape(s))) == Trim(s)
  {
    hide TrimStart, TrimEnd, XmlEscape, XmlUnescape, XmlEscaped;
    XmlEscapeIsOneMap(s);
    TrimStartOfEscaped(s);
    TrimEndOfEscaped(TrimStart(s));
    XmlEscapeIsOneMap(Trim(s));
    XmlRoundTrip(Trim(s));
  }

  // ---- systemd ----

  function QuoteChar(c: char): string {
    match c
    case '\\' => "\\\\"
    case '"' => "\\\""
    case '\n' => "\\n"
    case '\r' => "\\r"
    case '\t' => "\\t"
    case '%' => "%%"
    case _ => [c]
  }

  function QuoteBody(s: string): string {
    MapChars(s, QuoteChar)
  }

  function Quote(s: string): string {
    "\"" + QuoteBody(s) + "\""
  }

  lemma QuoteBodyNext(s: string, c: char)
    ensures QuoteBody([]) == []
    ensures QuoteBody(s + [c]) == QuoteBody(s) + QuoteChar(c)
    ensures QuoteBody([c] + s) == QuoteChar(c) + QuoteBody(s)
  {
    MapCharsConcat(s, [c], QuoteChar);
    MapCharsConcat([c], s, QuoteChar);
    assert [c][1..] == [];
    assert MapChars([c], QuoteChar) == QuoteChar(c);
  }

  method SystemdQuote(value: string) returns (quoted: string)
    ensures quoted == Quote(value)
  {
    hide QuoteBody;
    var escaped := "";
    QuoteBodyNext([], 'x');
    for i := 0 to |value|
      invariant escaped == QuoteBody(value[..i])
    {
      QuoteBodyNext(value[..i], value[i]);
      assert value[..i] + [value[i]] == value[..i + 1];
      escaped := escaped + QuoteChar(value[i]);
    }
    assert value[..|value|] == value;
    quoted := "\"" + escaped + "\"";
  }

  /** One character taken from a non-empty input: what it stands for, and how many characters it takes. */
  function UnquoteOne(s: string): (r: (string, nat))
    requires s != []
    ensures 1 <= r.1 <= |s|
  {
    if s[0] == '\\' then
      if |s| == 1 then ([], 1)
      else if s[1] == 'n' then (['\n'], 2)
      else if s[1] == 'r' then (['\r'], 2)
      else if s[1] == 't' then (['\t'], 2)
      else ([s[1]], 2)
    else if s[0] == '%' then (['%'], if |s| > 1 && s[1] == '%' then 2 else 1)
    else ([s[0]], 1)
  }

  function Unquote(s: string): string {
    if s == [] then [] else
      var (text, taken) := UnquoteOne(s);
      text + Unquote(s[taken..])
  }

  lemma UnquoteAt(s: string, i: nat, text: string, next: nat)
    requires i < next <= |s| && UnquoteOne(s[i..]) == (text, next - i)
    ensures Unquote(s[i..]) == text + Unquote(s[next..])
  {
    assert s[i..][next - i..] == s[next..];
  }

  lemma UnquoteEnd(s: string)
    ensures Unquote(s[|s|..]) == []
  {
  }

  method SystemdUnquote(value: string) returns (out: string)
    ensures out == Unquote(value)
  {
    hide Unquote;
    out := "";
    var i := 0;
    assert value[0..] == value;
    while i < |value|
      invariant i <= |value|
      invariant out + Unquote(value[i..]) == Unquote(value)
      decreases |value| - i
    {
      var ch := value[i];
      var text := "";
      ghost var start := i;
      i := i + 1;
      if ch == '\\' {
        if i < |value| {
          var next := value[i];
          i := i + 1;
          text := if next == 'n' then "\n" else if next == 'r' then "\r" else if next == 't' then "\t" else [next];
        }
      } else if ch == '%' {
        if i < |value| && value[i] == '%' {
          i := i + 1;
        }
        text := "%";
      } else {
        text := [ch];
      }
      UnquoteAt(value, start, text, i);
      out := out + text;
    }
    UnquoteEnd(value);
  }

  lemma UnquoteChar(c: char, rest: string)
    ensures Unquote(QuoteChar(c) + rest) == [c] + Unquote(rest)
  {
    var s := QuoteChar(c) + rest;
    assert s[|QuoteChar(c)|..] == rest;
    assert UnquoteOne(s) == ([c], |QuoteChar(c)|);
  }

  lemma {:induction false} SystemdRoundTrip(s: string)
    ensures Unquote(QuoteBody(s)) == s
  {
    hide QuoteBody, QuoteChar, UnquoteOne;
    if s == [] {
      QuoteBodyNext([], 'x');
    } else {
      QuoteBodyNext(s[1..], s[0]);
      assert [s[0]] + s[1..] == s;
      UnquoteChar(s[0], QuoteBody(s[1..]));
      SystemdRoundTrip(s[1..]);
    }
  }

  lemma QuoteIsOneLine(s: string)
    ensures '\n' !in Quote(s) && '\r' !in Quote(s) && '\t' !in Quote(s)
  {
    hide MapChars;
    MapCharsLacks(s, QuoteChar, '\n');
    MapCharsLacks(s, QuoteChar, '\r');
    MapCharsLacks(s, QuoteChar, '\t');
  }
}
