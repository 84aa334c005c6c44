/**
 The two escaping printers of the command line: the one-line display of an argument vector and
 the JSON string. Each comes with a reader that is defined on its own and recovers the input.
 */
module Display {
  import opened Options
  import opened Text

  // ---- The argument vector on one line ----

  /** Characters that put an argument into quotes; so does being empty. */
  predicate WantsQuote(c: char) {
    c == ' ' || c == '\t' || c == '\n' || c == '\r' || c == '"'
  }

  predicate NeedsQuote(a: string) {
    a == "" || exists i :: 0 <= i < |a| && WantsQuote(a[i])
  }

  /** The five replacements, one after the other over the whole argument. */
  function EscapeArg(a: string): string {
    var backslashes := Replace(a, ['\\'], "\\\\");
    var quotes := Replace(backslashes, ['"'], "\\\"");
    Replace(Replace(Replace(quotes, ['\n'], "\\n"), ['\r'], "\\r"), ['\t'], "\\t")
  }

  function FmtArg(a: string): string {
    if NeedsQuote(a) then "\"" + EscapeArg(a) + "\"" else EscapeArg(a)
  }

  function FmtArgs(argv: seq<string>): (r: seq<string>)
    ensures |r| == |argv|
  {
    if argv == [] then [] else [FmtArg(argv[0])] + FmtArgs(argv[1..])
  }

  function FmtArgv(argv: seq<string>): string {
    Join(FmtArgs(argv), " ")
  }

  // ---- Reading the display back ----

  function Unescape(c: char): Option<char> {
    match c
    case '\\' => Some('\\')
    case '"' => Some('"')
    case 'n' => Some('\n')
    case 'r' => Some('\r')
    case 't' => Some('\t')
    case _ => None
  }

  /** One argument and what is left: up to the closing quote, or up to a space or the end. */
  function ReadArg(s: string, quoted: bool): (r: Option<(string, string)>)
    ensures r.Some? ==> |r.value.1| <= |s|
  {
    if s == [] then if quoted then None else Some(([], []))
    else if quoted && s[0] == '"' then Some(([], s[1..]))
    else if !quoted && s[0] == ' ' then Some(([], s))
    else if s[0] == '\\' then
      if |s| < 2 || Unescape(s[1]).None? then None else Prepend(Unescape(s[1]).value, ReadArg(s[2..], quoted))
    else Prepend(s[0], ReadArg(s[1..], quoted))
  }

  function Prepend(c: char, r: Option<(string, string)>): Option<(string, string)> {
    if r.Some? then Some(([c] + r.value.0, r.value.1)) else None
  }

  function ReadArgs(s: string): Option<seq<string>>
    decreases |s|
  {
    var quoted := s != [] && s[0] == '"';
    match ReadArg(if quoted then s[1..] else s, quoted)
    case None => None
    case Some((a, rest)) =>
      if rest == [] then Some([a])
      else if rest[0] != ' ' then None
      else
        var others := ReadArgs(rest[1..]);
        if others.Some? then Some([a] + others.value) else None
  }

  function ReadArgv(s: string): Option<seq<string>> {
    if s == [] then Some([]) else ReadArgs(s)
  }

  // ---- The replacements are one character map ----

  const PATTERNS := ['\\', '"', '\n', '\r', '\t']
  const NAMES := ['\\', '"', 'n', 'r', 't']

  /** A character after the first `k` replacements. */
  function Stage(k: nat, c: char): string {
    if k >= 1 && c == '\\' then "\\\\"
    else if k >= 2 && c == '"' then "\\\""
    else if k >= 3 && c == '\n' then "\\n"
    else if k >= 4 && c == '\r' then "\\r"
    else if k >= 5 && c == '\t' then "\\t"
    else [c]
  }

  function Escaped(a: string): string {
    MapChars(a, c => Stage(5, c))
  }

  lemma EscapedNext(a: string)
    ensures Escaped([]) == []
    ensures a != [] ==> Escaped(a) == Stage(5, a[0]) + Escaped(a[1..])
  {
  }

  lemma StageStep(s: string, k: nat)
    requires k < 5
    ensures Replace(MapChars(s, c => Stage(k, c)), [PATTERNS[k]], ['\\', NAMES[k]]) == MapChars(s, c => Stage(k + 1, c))
  {
    forall c ensures Stage(k + 1, c) == Replace(Stage(k, c), [PATTERNS[k]], ['\\', NAMES[k]]) {
      ReplaceShort(Stage(k, c), PATTERNS[k], ['\\', NAMES[k]]);
    }
    ReplaceAfterMap(s, c => Stage(k, c), PATTERNS[k], ['\\', NAMES[k]], c => Stage(k + 1, c));
  }

  /** `Replace` on the short strings that a stage produces. */
  lemma ReplaceShort(s: string, c: char, with: string)
    requires |s| == 1 || (|s| == 2 && s[0] != c && s[1] != c)
    ensures Replace(s, [c], with) == if s == [c] then with else s
  {
    if |s| == 2 {
      assert Replace(s[1..][1..], [c], with) == [];
    } else {
      assert s[1..] == [];
    }
  }

  /** The five passes over the argument escape every character once: no pass touches what an earlier one wrote. */
  lemma EscapeArgIsOneMap(a: string)
    ensures EscapeArg(a) == Escaped(a)
  {
    hide Replace, MapChars;
    MapCharsIdentity(a, c => Stage(0, c));
    StageStep(a, 0);
    StageStep(a, 1);
    StageStep(a, 2);
    StageStep(a, 3);
    StageStep(a, 4);
  }

  // ---- The display is read back exactly ----

  lemma {:induction false} ReadArgOfEscaped(a: string, quoted: bool, end: string, rest: string)
    requires quoted ==> end == ['"'] + rest
    requires !quoted ==> end == rest && (rest == [] || rest[0] == ' ')
    requires !quoted ==> forall i :: 0 <= i < |a| ==> !WantsQuote(a[i])
    ensures ReadArg(Escaped(a) + end, quoted) == Some((a, rest))
  {
    hide Escaped, Stage;
    EscapedNext(a);
    if a == [] {
      assert Escaped(a) + end == end;
      assert quoted ==> end[1..] == rest;
    } else {
      hide ReadArg;
      var tail := Escaped(a[1..]) + end;
      assert Escaped(a) + end == Stage(5, a[0]) + tail;
      assert forall i :: 1 <= i < |a| ==> a[i] == a[1..][i - 1];
      ReadArgOfEscaped(a[1..], quoted, end, rest);
      ReadOne(a[0], tail, quoted);
      assert [a[0]] + a[1..] == a;
    }
  }

  lemma ReadOne(c: char, tail: string, quoted: bool)
    requires !quoted ==> !WantsQuote(c)
    ensures ReadArg(Stage(5, c) + tail, quoted) == Prepend(c, ReadArg(tail, quoted))
  {
    var s := Stage(5, c) + tail;
    assert s[|Stage(5, c)|..] == tail;
    assert |Stage(5, c)| == 2 ==> s[0] == '\\' && Unescape(s[1]) == Some(c);
    assert |Stage(5, c)| == 1 ==> s[0] == c && c != '\\' && c != '"';
  }

  lemma UnquotedStart(a: string)
    requires !NeedsQuote(a)
    ensures Escaped(a) != [] && Escaped(a)[0] != '"'
  {
    hide Escaped;
    EscapedNext(a);
    assert !WantsQuote(a[0]);
  }

  lemma ReadFmtArg(a: string, rest: string)
    requires rest == [] || rest[0] == ' '
    ensures var s := FmtArg(a) + rest;
      && s != []
      && (s[0] == '"' <==> NeedsQuote(a))
      && ReadArg(if NeedsQuote(a) then s[1..] else s, NeedsQuote(a)) == Some((a, rest))
  {
    hide EscapeArg, ReadArg, Escaped, WantsQuote, Stage;
    EscapeArgIsOneMap(a);
    var s := FmtArg(a) + rest;
    if NeedsQuote(a) {
      assert s[1..] == Escaped(a) + (['"'] + rest);
      ReadArgOfEscaped(a, true, ['"'] + rest, rest);
    } else {
      UnquotedStart(a);
      ReadArgOfEscaped(a, false, rest, rest);
    }
  }

  lemma {:induction false} ReadFmtArgs(argv: seq<string>)
    requires argv != []
    ensures FmtArgv(argv) != [] && ReadArgs(FmtArgv(argv)) == Some(argv)
  {
    hide ReadArg, FmtArg, NeedsQuote;
    var rest := if |argv| == 1 then [] else " " + FmtArgv(argv[1..]);
    ReadFmtArg(argv[0], rest);
    assert FmtArgs(argv) == [FmtArg(argv[0])] + FmtArgs(argv[1..]);
    assert FmtArgs(argv)[1..] == FmtArgs(argv[1..]);
    assert FmtArgv(argv) == FmtArg(argv[0]) + rest;
    if |argv| > 1 {
      ReadFmtArgs(argv[1..]);
      assert rest[1..] == FmtArgv(argv[1..]);
      assert [argv[0]] + argv[1..] == argv;
    } else {
      assert [argv[0]] == argv;
    }
  }

  /**
   The display determines the vector: the reader gets back every argument, empty ones and special
   characters included.
   */
  lemma ArgvRoundTrip(argv: seq<string>)
    ensures ReadArgv(FmtArgv(argv)) == Some(argv)
  {
    hide FmtArgs, ReadArgs;
    if argv != [] {
      ReadFmtArgs(argv);
    } else {
      assert FmtArgs(argv) == [];
    }
  }

  lemma FmtArgvIsInjective(a: seq<string>, b: seq<string>)
    requires FmtArgv(a) == FmtArgv(b)
    ensures a == b
  {
    ArgvRoundTrip(a);
    ArgvRoundTrip(b);
  }

  /** The display is one line, and an argument without special characters is shown as it is. */
  lemma FmtArgIsOneLine(a: string)
    ensures '\n' !in FmtArg(a) && '\r' !in FmtArg(a) && '\t' !in FmtArg(a)
    ensures FmtArg(a) == a <==> !NeedsQuote(a) && '\\' !in a
  {
    hide EscapeArg, MapChars;
    EscapeArgIsOneMap(a);
    MapCharsLacks(a, c => Stage(5, c), '\n');
    MapCharsLacks(a, c => Stage(5, c), '\r');
    MapCharsLacks(a, c => Stage(5, c), '\t');
    StageGrows(a);
  }

  lemma {:induction false} StageGrows(a: string)
    ensures |Escaped(a)| >= |a|
    ensures Escaped(a) == a <==> forall i :: 0 <= i < |a| ==> |Stage(5, a[i])| == 1
    ensures (exists i :: 0 <= i < |a| && |Stage(5, a[i])| != 1) ==> |Escaped(a)| > |a|
  {
    EscapedNext(a);
    if a != [] {
      StageGrows(a[1..]);
      assert forall i :: 1 <= i < |a| ==> a[i] == a[1..][i - 1];
    }
  }

  lemma {:induction false} FmtArgvIsOneLine(argv: seq<string>)
    ensures '\n' !in FmtArgv(argv) && '\r' !in FmtArgv(argv) && '\t' !in FmtArgv(argv)
  {
    hide FmtArg;
    if argv != [] {
      FmtArgIsOneLine(argv[0]);
      FmtArgvIsOneLine(argv[1..]);
      assert FmtArgs(argv)[1..] == FmtArgs(argv[1..]);
    }
  }

  // ---- JSON strings ----

  function HexDigit(n: nat): char
    requires n < 16
  {
    "0123456789abcdef"[n]
  }

  function Hex4(n: nat): (r: string)
    requires n < 0x1_0000
    ensures |r| == 4
  {
    [HexDigit(n / 0x1000), HexDigit(n / 0x100 % 16), HexDigit(n / 16 % 16), HexDigit(n % 16)]
  }

  function JsonChar(c: char): string {
    match c
    case '"' => "\\\""
    case '\\' => "\\\\"
    case '\n' => "\\n"
    case '\r' => "\\r"
    case '\t' => "\\t"
    case _ => if c as int < 0x20 then "\\u" + Hex4(c as int) else [c]
  }

  function JsonBody(s: string): string {
    MapChars(s, JsonChar)
  }

  method JsonString(s: string) returns (out: string)
    ensures out == "\"" + JsonBody(s) + "\""
    ensures ReadJson(out) == Some(s)
  {
    hide JsonBody, ReadJson;
    JsonBodyNext([], 'x');
    out := "\"";
    for i := 0 to |s|
      invariant out == "\"" + JsonBody(s[..i])
    {
      JsonBodyNext(s[..i], s[i]);
      assert s[..i] + [s[i]] == s[..i + 1];
      out := out + JsonChar(s[i]);
    }
    assert s[..|s|] == s;
    out := out + "\"";
    JsonRoundTrip(s);
  }

  lemma JsonBodyNext(s: string, c: char)
    ensures JsonBody([]) == []
    ensures JsonBody(s + [c]) == JsonBody(s) + JsonChar(c)
    ensures JsonBody([c] + s) == JsonChar(c) + JsonBody(s)
  {
    MapCharsConcat(s, [c], JsonChar);
    MapCharsConcat([c], s, JsonChar);
    assert [c][1..] == [];
    assert MapChars([c], JsonChar) == JsonChar(c);
  }

  function HexValue(c: char): (r: Option<nat>)
    ensures r.Some? ==> r.value < 16
  {
    if '0' <= c <= '9' then Some(c as int - '0' as int)
    else if 'a' <= c <= 'f' then Some(c as int - 'a' as int + 10)
    else if 'A' <= c <= 'F' then Some(c as int - 'A' as int + 10)
    else None
  }

  /** Four hexadecimal digits at the start of a string. */
  function ReadHex4(s: string): (r: Option<nat>)
    ensures r.Some? ==> |s| >= 4 && r.value < 0x1_0000
  {
    if |s| < 4 then None
    else match (HexValue(s[0]), HexValue(s[1]), HexValue(s[2]), HexValue(s[3]))
      case (Some(a), Some(b), Some(c), Some(d)) => Some(((a * 16 + b) * 16 + c) * 16 + d)
      case _ => None
  }

  /** The two-character escapes of section 7 of RFC 8259. */
  function JsonEscape(c: char): Option<char> {
    match c
    case '"' => Some('"')
    case '\\' => Some('\\')
    case '/' => Some('/')
    case 'b' => Some('\U{8}')
    case 'f' => Some('\U{C}')
    case 'n' => Some('\n')
    case 'r' => Some('\r')
    case 't' => Some('\t')
    case _ => None
  }

  /** One character and what is left after it; surrogates must come as a pair of escapes. */
  function ReadJsonChar(s: string): (r: Option<(char, string)>)
    requires s != []
    ensures r.Some? ==> |r.value.1| < |s|
  {
    if s[0] == '"' || s[0] as int < 0x20 then None
    else if s[0] != '\\' then Some((s[0], s[1..]))
    else if |s| < 2 then None
    else if s[1] != 'u' then (if JsonEscape(s[1]).Some? then Some((JsonEscape(s[1]).value, s[2..])) else None)
    else match ReadHex4(s[2..])
      case None => None
      case Some(n) =>
        if n < 0xD800 || n >= 0xE000 then Some((n as char, s[6..]))
        else if n >= 0xDC00 || |s| < 8 || s[6] != '\\' || s[7] != 'u' then None
        else match ReadHex4(s[8..])
          case None => None
          case Some(low) =>
            if 0xDC00 <= low < 0xE000
            then Some(((0x1_0000 + (n - 0xD800) * 0x400 + (low - 0xDC00)) as char, s[12..])) else None
  }

  /** The characters up to the closing quote, which must be the last character. */
  function ReadJsonBody(s: string): Option<string>
    decreases |s|
  {
    if s == [] then None
    else if s[0] == '"' then if |s| == 1 then Some([]) else None
    else match ReadJsonChar(s)
      case None => None
      case Some((c, rest)) =>
        var others := ReadJsonBody(rest);
        if others.Some? then Some([c] + others.value) else None
  }

  function ReadJson(s: string): Option<string> {
    if s != [] && s[0] == '"' then ReadJsonBody(s[1..]) else None
  }

  lemma HexDigitValue(k: nat)
    requires k < 16
    ensures HexValue(HexDigit(k)) == Some(k)
  {
  }

  lemma Digits(n: nat)
    ensures ((n / 0x1000 * 16 + n / 0x100 % 16) * 16 + n / 16 % 16) * 16 + n % 16 == n
  {
    assert n / 0x100 == n / 16 / 16 && n / 0x1000 == n / 16 / 16 / 16;
  }

  lemma ReadHex4OfHex4(n: nat, rest: string)
    requires n < 0x1_0000
    ensures ReadHex4(Hex4(n) + rest) == Some(n)
  {
    hide HexDigit, HexValue;
    var a, b, c, d := n / 0x1000, n / 0x100 % 16, n / 16 % 16, n % 16;
    HexDigitValue(a);
    HexDigitValue(b);
    HexDigitValue(c);
    HexDigitValue(d);
    var s := Hex4(n) + rest;
    assert s[0] == HexDigit(a) && s[1] == HexDigit(b) && s[2] == HexDigit(c) && s[3] == HexDigit(d);
    assert ReadHex4(s) == Some(((a * 16 + b) * 16 + c) * 16 + d);
    Digits(n);
  }

  lemma ReadJsonCharOf(c: char, rest: string)
    ensures JsonChar(c) != [] && JsonChar(c)[0] != '"'
    ensures ReadJsonChar(JsonChar(c) + rest) == Some((c, rest))
  {
    hide Hex4, ReadHex4;
    var s := JsonChar(c) + rest;
    assert s[|JsonChar(c)|..] == rest;
    if |JsonChar(c)| == 6 {
      assert s[2..] == Hex4(c as int) + rest;
      ReadHex4OfHex4(c as int, rest);
    }
  }

  lemma {:induction false} ReadJsonBodyOf(s: string)
    ensures ReadJsonBody(JsonBody(s) + ['"']) == Some(s)
  {
    hide JsonBody, JsonChar, ReadJsonChar;
    if s == [] {
      JsonBodyNext([], 'x');
      assert [] + ['"'] == ['"'];
    } else {
      JsonBodyNext(s[1..], s[0]);
      assert [s[0]] + s[1..] == s;
      var rest := JsonBody(s[1..]) + ['"'];
      assert JsonBody(s) + ['"'] == JsonChar(s[0]) + rest;
      ReadJsonCharOf(s[0], rest);
      ReadJsonBodyOf(s[1..]);
    }
  }

  /** A reader of JSON strings recovers the text. */
  lemma JsonRoundTrip(s: string)
    ensures ReadJson("\"" + JsonBody(s) + "\"") == Some(s)
  {
    hide JsonBody, ReadJsonBody;
    ReadJsonBodyOf(s);
    assert ("\"" + JsonBody(s) + "\"")[1..] == JsonBody(s) + ['"'];
  }
}
