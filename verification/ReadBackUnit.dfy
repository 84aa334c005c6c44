/** Reading the environment back line by line: from a systemd unit, and from a launchd definition without one. */
module ReadBackUnit {
  import opened Options
  import opened Text
  import opened ServiceText
  import opened Environment
  import opened ServiceFile
  import opened ReadBack

  function ReadText(text: string, env: Env): Env {
    ReadLines(Lines(text), env)
  }

  /** Complete lines that hold no assignment. */
  ghost predicate Silent(s: string) {
    forall rest, env :: ReadText(s + rest, env) == ReadText(rest, env)
  }

  lemma SilentConcat(a: string, b: string)
    requires Silent(a) && Silent(b)
    ensures Silent(a + b)
  {
    forall rest, env: Env ensures ReadText(a + b + rest, env) == ReadText(rest, env) {
      assert a + b + rest == a + (b + rest);
    }
  }

  lemma SilentEmpty()
    ensures Silent("")
  {
    forall rest, env: Env ensures ReadText("" + rest, env) == ReadText(rest, env) {
      assert "" + rest == rest;
    }
  }

  lemma FirstLine(line: string, rest: string)
    requires '\n' !in line
    ensures Lines(line + "\n" + rest) == [WithoutReturn(line)] + Lines(rest)
  {
    hide SplitOnce;
    SplitAtText(line, "\n", rest);
  }

  lemma SilentLine(line: string)
    requires '\n' !in line && LineEntry(WithoutReturn(line)).None?
    ensures Silent(line + "\n")
  {
    hide Lines, WithoutReturn, LineEntry;
    forall rest, env: Env ensures ReadText(line + "\n" + rest, env) == ReadText(rest, env) {
      FirstLine(line, rest);
      assert ([WithoutReturn(line)] + Lines(rest))[1..] == Lines(rest);
    }
  }

  /** A line that starts with something else. */
  lemma OtherLine(line: string)
    requires '\n' !in line && '\r' !in line
    requires line != "" ==> !IsWhitespace(line[0]) && (line[0] != 'E' || (|line| > 1 && line[1] != 'n'))
    ensures Silent(line + "\n")
  {
    hide Silent, TrimEnd;
    TrimEndGives(line);
    NotEnvironment(Trim(line), line);
    SilentLine(line);
  }

  lemma NotEnvironment(s: string, line: string)
    requires s <= line && (line != "" ==> line[0] != 'E' || (|line| > 1 && line[1] != 'n'))
    ensures !("Environment=" <= s)
  {
    assert "Environment="[0] == 'E' && "Environment="[1] == 'n';
  }

  /** A line that starts with an indented tag. */
  lemma TagLine(indent: string, body: string)
    requires forall i :: 0 <= i < |indent| ==> indent[i] == '\t'
    requires body != "" && body[0] == '<' && '\n' !in body
    ensures Silent(indent + body + "\n")
  {
    hide Silent, TrimEnd, TrimStart;
    var line := WithoutReturn(indent + body);
    var rest := WithoutReturn(body);
    assert line == indent + rest;
    TrimIndent(indent, rest);
    TrimEndGives(rest);
    NotEnvironment(Trim(line), rest);
    SilentLine(indent + body);
  }

  lemma {:induction false} TrimIndent(indent: string, body: string)
    requires forall i :: 0 <= i < |indent| ==> indent[i] == '\t'
    requires body != "" && body[0] == '<'
    ensures TrimStart(indent + body) == body
  {
    if indent == [] {
      assert indent + body == body;
    } else {
      assert (indent + body)[1..] == indent[1..] + body && IsWhitespace(indent[0]);
      TrimIndent(indent[1..], body);
    }
  }

  // ---- systemd ----

  /** What the reader makes of an assignment: it is cut at its first `=`. */
  function Reparsed(e: Entry): Entry {
    match Assigned(Assignment(e)) case Some(r) => r case None => e
  }

  function ReparseAll(env: seq<Entry>): (r: seq<Entry>)
    ensures |r| == |env|
    ensures forall i :: 0 <= i < |env| ==> r[i] == Reparsed(env[i])
  {
    if env == [] then [] else [Reparsed(env[0])] + ReparseAll(env[1..])
  }

  lemma ReparsedIs(e: Entry)
    ensures Assigned(Assignment(e)) == Some(Reparsed(e)) && '=' !in Reparsed(e).key
    ensures '=' !in e.key ==> Reparsed(e) == e
  {
    hide SplitOnce;
    var text := Assignment(e);
    assert text[|e.key|] == '=';
    SplitOnceWithoutChar(text, '=');
    if '=' !in e.key {
      SplitOnceAtChar(e.key, '=', e.value);
    }
  }

  /** A line is read as an entry exactly if, apart from outer whitespace, it is a quoted assignment. */
  lemma LineEntryIs(line: string, e: Entry)
    ensures LineEntry(line) == Some(e) <==>
      exists inner :: Trim(line) == "Environment=" + ("\"" + inner + "\"") && Assigned(Unquote(inner)) == Some(e)
  {
    hide Trim, Unquote, Assigned;
    var trimmed, start := Trim(line), "Environment=";
    if LineEntry(line) == Some(e) {
      var quoted := trimmed[|start|..];
      var inner := quoted[1..|quoted| - 1];
      assert quoted == "\"" + inner + "\"";
      assert trimmed == start + quoted;
    }
    if inner :| trimmed == start + ("\"" + inner + "\"") && Assigned(Unquote(inner)) == Some(e) {
      var quoted := trimmed[|start|..];
      assert quoted == "\"" + inner + "\"";
      assert quoted[1..|quoted| - 1] == inner;
    }
  }

  lemma EnvironmentLineEntry(e: Entry, line: string)
    requires line == "Environment=" + Quote(Assignment(e))
    ensures LineEntry(line) == Some(Reparsed(e)) && '\n' !in line && WithoutReturn(line) == line
  {
    hide Trim, Assignment, Quote, QuoteBody, Unquote, Assigned, Reparsed;
    var quoted := Quote(Assignment(e));
    QuoteIsOneLine(Assignment(e));
    QuoteParts(Assignment(e));
    assert line[|line| - 1] == quoted[|quoted| - 1];
    assert Trimmed(line);
    TrimmedIsFixed(line);
    assert line[|"Environment="|..] == quoted;
    SystemdRoundTrip(Assignment(e));
    ReparsedIs(e);
  }

  lemma QuoteParts(s: string)
    ensures var q := Quote(s); |q| >= 2 && q[0] == '"' && q[|q| - 1] == '"' && q[1..|q| - 1] == QuoteBody(s)
  {
  }

  lemma EnvironmentLineReads(e: Entry, rest: string, env: Env)
    ensures ReadText(EnvironmentLine(e) + rest, env) == ReadText(rest, Insert(env, Reparsed(e).key, Reparsed(e).value))
  {
    hide LineEntry, Lines, Quote, WithoutReturn, Reparsed, Insert;
    var line := "Environment=" + Quote(Assignment(e));
    EnvironmentLineEntry(e, line);
    FirstLine(line, rest);
    assert ([line] + Lines(rest))[1..] == Lines(rest);
  }

  lemma {:induction false} EnvironmentLinesNext(env: seq<Entry>)
    requires env != []
    ensures EnvironmentLines(env) == EnvironmentLine(env[0]) + EnvironmentLines(env[1..])
  {
    hide EnvironmentLine;
    var n := |env| - 1;
    if n > 0 {
      EnvironmentLinesNext(env[..n]);
      assert env[..n][1..] == env[1..][..n - 1];
    } else {
      assert env[1..] == [] && env[..n] == [];
    }
  }

  lemma {:induction false} EnvironmentLinesRead(env: seq<Entry>, rest: string, acc: Env)
    ensures ReadText(EnvironmentLines(env) + rest, acc) == ReadText(rest, InsertAll(acc, ReparseAll(env)))
    decreases |env|
  {
    hide ReadText, EnvironmentLine, Reparsed, Insert;
    if env == [] {
      assert EnvironmentLines(env) + rest == rest;
    } else {
      EnvironmentLinesNext(env);
      var more := EnvironmentLines(env[1..]) + rest;
      assert EnvironmentLines(env) + rest == EnvironmentLine(env[0]) + more;
      EnvironmentLineReads(env[0], more, acc);
      EnvironmentLinesRead(env[1..], rest, Insert(acc, Reparsed(env[0]).key, Reparsed(env[0]).value));
      assert ReparseAll(env)[1..] == ReparseAll(env[1..]);
    }
  }

  lemma SilentDescription()
    ensures Silent("Description=hyoui HTTP gateway\n")
  {
    hide Silent;
    OtherLine("Description=hyoui HTTP gateway");
    assert "Description=hyoui HTTP gateway\n" == "Description=hyoui HTTP gateway" + "\n";
  }

  lemma SilentUnitSection()
    ensures Silent(UnitSection())
  {
    hide Silent;
    SilentDescription();
    OtherLine("[Unit]");
    OtherLine("");
    assert "[Unit]\n" == "[Unit]" + "\n";
    assert "\n" == "" + "\n";
    SilentConcat("[Unit]\n", "Description=hyoui HTTP gateway\n");
    SilentConcat("[Unit]\n" + "Description=hyoui HTTP gateway\n", "\n");
  }

  lemma SilentServiceSection()
    ensures Silent(ServiceSection())
  {
    hide Silent;
    OtherLine("[Service]");
    OtherLine("Type=simple");
    assert "[Service]\n" == "[Service]" + "\n" && "Type=simple\n" == "Type=simple" + "\n";
    SilentConcat("[Service]\n", "Type=simple\n");
  }

  lemma SilentUnitHead()
    ensures Silent(UnitHead())
  {
    hide Silent, UnitSection, ServiceSection;
    SilentUnitSection();
    SilentServiceSection();
    SilentConcat(UnitSection(), ServiceSection());
  }

  lemma SilentUnitTail()
    ensures Silent(UnitTail())
  {
    hide Silent;
    OtherLine("");
    OtherLine("[Install]");
    OtherLine("WantedBy=default.target");
    assert "\n" == "" + "\n";
    assert "[Install]\n" == "[Install]" + "\n";
    assert "WantedBy=default.target\n" == "WantedBy=default.target" + "\n";
    SilentConcat("\n", "[Install]\n");
    SilentConcat("\n" + "[Install]\n", "WantedBy=default.target\n");
  }

  lemma {:induction false} QuotedAt(args: seq<string>, i: nat)
    requires i < |args|
    ensures Quoted(args)[i] == Quote(args[i])
  {
    var n := |args| - 1;
    if i < n {
      QuotedAt(args[..n], i);
    }
  }

  lemma {:induction false} JoinLacks(parts: seq<string>, sep: string, c: char)
    requires c !in sep && forall i :: 0 <= i < |parts| ==> c !in parts[i]
    ensures c !in Join(parts, sep)
  {
    if |parts| > 1 {
      JoinLacks(parts[1..], sep, c);
    }
  }

  lemma SilentExecLine(args: seq<string>)
    ensures Silent(ExecLine(args))
  {
    hide Silent, Quote, Quoted, Join;
    var exec := Join(Quoted(args), " ");
    forall i | 0 <= i < |args| ensures '\n' !in Quoted(args)[i] && '\r' !in Quoted(args)[i] {
      QuotedAt(args, i);
      QuoteIsOneLine(args[i]);
    }
    JoinLacks(Quoted(args), " ", '\n');
    JoinLacks(Quoted(args), " ", '\r');
    OtherLine("ExecStart=" + exec);
  }

  // ---- The marker of the other format ----

  /** Characters that quoting leaves alone, and no quoted pair ends in the first. */
  ghost predicate IsPlainMark(m: string) {
    m != "" && (forall i :: 0 <= i < |m| ==> |QuoteChar(m[i])| == 1) && m[0] !in "nrt"
  }

  lemma {:induction false} PlainPrefix(m: string, s: string, rest: string)
    requires (forall i :: 0 <= i < |m| ==> |QuoteChar(m[i])| == 1) && m <= QuoteBody(s) + "\"" + rest
    ensures m <= s
  {
    hide QuoteBody;
    if m != [] {
      var text := QuoteBody(s) + "\"" + rest;
      QuoteBodyNext([], 'x');
      assert text[0] == m[0];
      assert s != [];
      QuoteBodyNext(s[1..], s[0]);
      assert [s[0]] + s[1..] == s;
      assert text[0] == QuoteChar(s[0])[0];
      assert QuoteChar(s[0]) == [s[0]];
      assert text[1..] == QuoteBody(s[1..]) + "\"" + rest;
      PlainPrefix(m[1..], s[1..], rest);
    }
  }

  lemma {:induction false} MarkInQuote(m: string, s: string, rest: string, i: nat)
    requires IsPlainMark(m) && i <= |QuoteBody(s)| && At(QuoteBody(s) + "\"" + rest, m, i)
    ensures Contains(s, m)
  {
    hide QuoteBody, At, Contains;
    var text := QuoteBody(s) + "\"" + rest;
    AtStarts(text, m, i);
    QuoteBodyNext([], 'x');
    assert |QuoteChar(m[0])| == 1;
    assert s != [];
    QuoteBodyNext(s[1..], s[0]);
    assert [s[0]] + s[1..] == s;
    var u, more := QuoteChar(s[0]), QuoteBody(s[1..]) + "\"" + rest;
    assert text == u + more;
    if i < |u| {
      assert text[i] == u[i];
      assert i == 0;
      assert text[0..] == text;
      PlainPrefix(m, s, rest);
      PrefixContains(s, m);
    } else {
      AtShift(u, more, m, i - |u|);
      MarkInQuote(m, s[1..], rest, i - |u|);
      ContainsNext(s, m);
    }
  }

  lemma AtStarts(s: string, m: string, i: nat)
    requires At(s, m, i)
    ensures i + |m| <= |s| && m <= s[i..] && (m != [] ==> s[i] == m[0])
  {
    assert s[i..][..|m|] == s[i..i + |m|];
  }

  lemma PrefixContains(s: string, m: string)
    requires m <= s
    ensures Contains(s, m)
  {
    assert At(s, m, 0);
  }

  lemma ContainsNext(s: string, m: string)
    requires s != [] && Contains(s[1..], m)
    ensures Contains(s, m)
  {
    var i: nat :| At(s[1..], m, i);
    AtNext(s, m, i);
  }

  /** Quoting makes no occurrence of such a mark that was not there. */
  lemma CleanQuote(s: string, m: string)
    requires IsPlainMark(m) && !Contains(s, m)
    ensures Clean(Quote(s), m)
  {
    hide Clean, QuoteBody, Contains;
    assert '"' !in m by {
      assert |QuoteChar('"')| == 2;
    }
    CleanText("\"", m);
    CleanBody(s, m);
    CleanConcat("\"", QuoteBody(s) + "\"", m);
    assert Quote(s) == "\"" + (QuoteBody(s) + "\"");
  }

  lemma CleanBody(s: string, m: string)
    requires IsPlainMark(m) && !Contains(s, m)
    ensures Clean(QuoteBody(s) + "\"", m)
  {
    hide QuoteBody, Contains, At;
    forall rest: string, i: nat | i < |QuoteBody(s) + "\""| ensures !At(QuoteBody(s) + "\"" + rest, m, i) {
      if At(QuoteBody(s) + "\"" + rest, m, i) {
        MarkInQuote(m, s, rest, i);
      }
    }
  }

  lemma {:induction false} CleanJoin(parts: seq<string>, sep: string, m: string)
    requires Clean(sep, m) && forall i :: 0 <= i < |parts| ==> Clean(parts[i], m)
    ensures Clean(Join(parts, sep), m)
  {
    hide Clean;
    if parts == [] {
      CleanEmpty(m);
    } else if |parts| > 1 {
      CleanJoin(parts[1..], sep, m);
      CleanConcat(parts[0], sep, m);
      CleanConcat(parts[0] + sep, Join(parts[1..], sep), m);
    }
  }

  lemma CleanEmpty(m: string)
    ensures Clean("", m)
  {
  }

  lemma MarkerIsPlain()
    ensures IsPlainMark(Marker())
  {
  }

  /** No argument and no assignment holds the mark. */
  ghost predicate HoldsNowhere(def: Definition, m: string) {
    && (forall i :: 0 <= i < |def.args| ==> !Contains(def.args[i], m))
    && (forall i :: 0 <= i < |def.env| ==> !Contains(Assignment(def.env[i]), m))
  }

  /** In particular not the marker of a launchd environment. */
  ghost predicate MarkerFree(def: Definition) {
    HoldsNowhere(def, Marker())
  }

  /** A mark that starts a tag and that quoting leaves alone. */
  ghost predicate IsTagMark(m: string) {
    IsPlainMark(m) && m[0] == '<'
  }

  lemma CleanExecLine(args: seq<string>, m: string)
    requires IsTagMark(m) && forall i :: 0 <= i < |args| ==> !Contains(args[i], m)
    ensures Clean(ExecLine(args), m)
  {
    hide Clean, Contains, Quote, Quoted, Join;
    forall i | 0 <= i < |args| ensures Clean(Quoted(args)[i], m) {
      QuotedAt(args, i);
      CleanQuote(args[i], m);
    }
    CleanText(" ", m);
    CleanJoin(Quoted(args), " ", m);
    CleanText("ExecStart=", m);
    CleanText("\n", m);
    CleanConcat("ExecStart=", Join(Quoted(args), " "), m);
    CleanConcat("ExecStart=" + Join(Quoted(args), " "), "\n", m);
  }

  lemma {:induction false} CleanEnvironmentLines(env: seq<Entry>, m: string)
    requires IsTagMark(m) && forall i :: 0 <= i < |env| ==> !Contains(Assignment(env[i]), m)
    ensures Clean(EnvironmentLines(env), m)
  {
    hide Clean, Contains, Quote, Assignment;
    if env == [] {
      CleanEmpty(m);
    } else {
      var n := |env| - 1;
      CleanEnvironmentLines(env[..n], m);
      var quoted := Quote(Assignment(env[n]));
      CleanQuote(Assignment(env[n]), m);
      CleanText("Environment=", m);
      CleanText("\n", m);
      CleanConcat("Environment=", quoted, m);
      CleanConcat("Environment=" + quoted, "\n", m);
      CleanConcat(EnvironmentLines(env[..n]), EnvironmentLine(env[n]), m);
    }
  }

  lemma UnitHasNoTags()
    ensures '<' !in UnitSection() && '<' !in ServiceSection() && '<' !in UnitTail() && '<' !in "Restart=always\n"
  {
  }

  lemma CleanUnit(def: Definition, m: string)
    requires IsTagMark(m) && HoldsNowhere(def, m)
    ensures Clean(SystemdUnit(def), m)
  {
    hide Clean, Contains, UnitSection, ServiceSection, UnitTail, ExecLine, EnvironmentLines;
    UnitHasNoTags();
    CleanExecLine(def.args, m);
    CleanEnvironmentLines(def.env, m);
    CleanText(UnitHead(), m);
    CleanText("Restart=always\n", m);
    CleanText(UnitTail(), m);
    var a := UnitHead() + ExecLine(def.args);
    CleanConcat(UnitHead(), ExecLine(def.args), m);
    var b := a + "Restart=always\n";
    CleanConcat(a, "Restart=always\n", m);
    CleanConcat(b, EnvironmentLines(def.env), m);
    CleanConcat(b + EnvironmentLines(def.env), UnitTail(), m);
  }

  // ---- And the other way: what is in a field is in the unit ----

  lemma ContainsInside(a: string, s: string, b: string, m: string)
    requires Contains(s, m)
    ensures Contains(a + s + b, m)
  {
    hide At;
    var i: nat :| At(s, m, i);
    AtStarts(s, m, i);
    AtShift(a, s + b, m, i);
    AtLonger(s, b, m, i);
    assert a + s + b == a + (s + b);
  }

  lemma AtLonger(s: string, b: string, m: string, i: nat)
    requires At(s, m, i)
    ensures At(s + b, m, i)
  {
    assert (s + b)[i..i + |m|] == s[i..i + |m|];
  }

  lemma {:induction false} PlainIsUnquoted(s: string)
    requires forall i :: 0 <= i < |s| ==> |QuoteChar(s[i])| == 1
    ensures QuoteBody(s) == s
  {
    hide QuoteBody;
    QuoteBodyNext([], 'x');
    if s != [] {
      QuoteBodyNext(s[1..], s[0]);
      assert [s[0]] + s[1..] == s;
      PlainIsUnquoted(s[1..]);
    }
  }

  lemma QuoteHolds(s: string, m: string)
    requires IsPlainMark(m) && Contains(s, m)
    ensures Contains(Quote(s), m)
  {
    hide At, MapChars;
    var i: nat :| At(s, m, i);
    AtStarts(s, m, i);
    var a, b := s[..i], s[i + |m|..];
    assert s == a + m + b by {
      assert s[i..][..|m|] == m;
    }
    MapCharsConcat(a + m, b, QuoteChar);
    MapCharsConcat(a, m, QuoteChar);
    PlainIsUnquoted(m);
    PrefixContains(m, m);
    ContainsInside("\"" + QuoteBody(a), m, QuoteBody(b) + "\"", m);
    assert Quote(s) == "\"" + QuoteBody(a) + m + (QuoteBody(b) + "\"");
  }

  lemma {:induction false} JoinHolds(parts: seq<string>, sep: string, i: nat, m: string)
    requires i < |parts| && Contains(parts[i], m)
    ensures Contains(Join(parts, sep), m)
  {
    hide Contains;
    if |parts| > 1 {
      var rest := Join(parts[1..], sep);
      if i == 0 {
        ContainsInside("", parts[0], sep + rest, m);
        assert "" + parts[0] + (sep + rest) == parts[0] + sep + rest;
      } else {
        JoinHolds(parts[1..], sep, i - 1, m);
        ContainsInside(parts[0] + sep, rest, "", m);
        assert parts[0] + sep + rest + "" == parts[0] + sep + rest;
      }
    }
  }

  lemma {:induction false} EnvironmentLinesHold(env: seq<Entry>, i: nat, m: string)
    requires i < |env| && IsPlainMark(m) && Contains(Assignment(env[i]), m)
    ensures Contains(EnvironmentLines(env), m)
  {
    hide Contains, Quote, Assignment, IsPlainMark;
    var n := |env| - 1;
    var before, quoted := EnvironmentLines(env[..n]), Quote(Assignment(env[n]));
    if i < n {
      EnvironmentLinesHold(env[..n], i, m);
      ContainsInside("", before, EnvironmentLine(env[n]), m);
      assert "" + before + EnvironmentLine(env[n]) == EnvironmentLines(env);
    } else {
      QuoteHolds(Assignment(env[n]), m);
      ContainsInside(before + "Environment=", quoted, "\n", m);
      assert before + "Environment=" + quoted + "\n" == EnvironmentLines(env);
    }
  }

  /** A mark is in the unit exactly if it is in an argument or in an assignment. */
  lemma UnitHoldsIff(def: Definition, m: string)
    requires IsTagMark(m)
    ensures Contains(SystemdUnit(def), m) <==> !HoldsNowhere(def, m)
  {
    hide Contains, SystemdUnit, Clean;
    if HoldsNowhere(def, m) {
      CleanUnit(def, m);
      CleanHoldsNot(SystemdUnit(def), m);
    } else if exists i :: 0 <= i < |def.args| && Contains(def.args[i], m) {
      var i :| 0 <= i < |def.args| && Contains(def.args[i], m);
      ArgIsInUnit(def, i, m);
    } else {
      var i :| 0 <= i < |def.env| && Contains(Assignment(def.env[i]), m);
      EntryIsInUnit(def, i, m);
    }
  }

  lemma CleanHoldsNot(s: string, m: string)
    requires Clean(s, m) && m != ""
    ensures !Contains(s, m)
  {
    assert s + "" == s;
  }

  lemma ArgIsInUnit(def: Definition, i: nat, m: string)
    requires i < |def.args| && IsPlainMark(m) && Contains(def.args[i], m)
    ensures Contains(SystemdUnit(def), m)
  {
    hide Contains, Quote, Quoted, Join, IsPlainMark, UnitHead, UnitTail, EnvironmentLines;
    QuotedAt(def.args, i);
    QuoteHolds(def.args[i], m);
    JoinHolds(Quoted(def.args), " ", i, m);
    var exec, rest := Join(Quoted(def.args), " "), "Restart=always\n" + EnvironmentLines(def.env) + UnitTail();
    ContainsInside(UnitHead() + "ExecStart=", exec, "\n" + rest, m);
    assert UnitHead() + "ExecStart=" + exec + ("\n" + rest) == SystemdUnit(def);
  }

  lemma EntryIsInUnit(def: Definition, i: nat, m: string)
    requires i < |def.env| && IsPlainMark(m) && Contains(Assignment(def.env[i]), m)
    ensures Contains(SystemdUnit(def), m)
  {
    hide Contains, IsPlainMark, UnitHead, UnitTail, EnvironmentLines, ExecLine;
    EnvironmentLinesHold(def.env, i, m);
    ContainsInside(UnitHead() + ExecLine(def.args) + "Restart=always\n", EnvironmentLines(def.env), UnitTail(), m);
  }

  /** The lines of a unit: the entries are inserted as they are reparsed, and nothing else is. */
  lemma UnitReads(def: Definition)
    ensures ReadText(SystemdUnit(def), []) == InsertAll([], ReparseAll(def.env))
  {
    hide Silent, UnitHead, UnitTail, ExecLine, EnvironmentLines, ReadText, InsertAll;
    SilentUnitHead();
    SilentExecLine(def.args);
    SilentRestart();
    SilentConcat(UnitHead(), ExecLine(def.args));
    SilentConcat(UnitHead() + ExecLine(def.args), "Restart=always\n");
    var head := UnitHead() + ExecLine(def.args) + "Restart=always\n";
    assert SystemdUnit(def) == head + (EnvironmentLines(def.env) + UnitTail());
    SilentReads(head, EnvironmentLines(def.env) + UnitTail(), []);
    EnvironmentLinesRead(def.env, UnitTail(), []);
    SilentUnitTail();
    var env := InsertAll([], ReparseAll(def.env));
    assert UnitTail() == UnitTail() + "";
    SilentReads(UnitTail(), "", env);
    NothingRead(env);
  }

  lemma SilentReads(s: string, rest: string, env: Env)
    requires Silent(s)
    ensures ReadText(s + rest, env) == ReadText(rest, env)
  {
  }

  lemma NothingRead(env: Env)
    ensures ReadText("", env) == env
  {
  }

  lemma SilentRestart()
    ensures Silent("Restart=always\n")
  {
    hide Silent;
    OtherLine("Restart=always");
    assert "Restart=always\n" == "Restart=always" + "\n";
  }

  /**
   From a systemd unit the reader gets every assignment, cut at its first `=`. If the launchd
   marker is in an argument or an assignment it takes the unit for a property list instead, and
   gets the dictionary after the first marker.
   */
  lemma SystemdReadBack(def: Definition)
    ensures MarkerFree(def) ==> EnvIn(SystemdUnit(def)) == InsertAll([], ReparseAll(def.env))
    ensures !MarkerFree(def) ==>
      var split := SplitOnce(SystemdUnit(def), Marker());
      split.Some? && EnvIn(SystemdUnit(def)) == ReadAfterMarker(split.value.1)
  {
    hide Contains, Marker, SystemdUnit, HoldsNowhere, SplitOnce, InsertAll, IsPlainMark, ReadAfterMarker;
    MarkerIsTag();
    UnitHoldsIff(def, Marker());
    SplitOnceHolds(SystemdUnit(def), Marker());
    UnitReads(def);
  }

  lemma SplitOnceHolds(s: string, m: string)
    ensures SplitOnce(s, m).Some? <==> Contains(s, m)
    ensures SplitOnce(s, m).Some? ==> var (a, b) := SplitOnce(s, m).value; s == a + m + b
  {
    hide Find;
    FindGives(s, m);
    if SplitOnce(s, m).Some? {
      var i := Find(s, m).value;
      assert s == s[..i] + s[i..i + |m|] + s[i + |m|..];
    }
  }

  lemma MarkerIsTag()
    ensures IsTagMark(Marker())
  {
    hide IsPlainMark;
    MarkerIsPlain();
    MarkerStart();
  }

  lemma DictIsTag()
    ensures IsTagMark("<dict>")
  {
  }

  /** With the marker and no opening of a dictionary anywhere, nothing is read back at all. */
  lemma MarkerHidesEnvironment(def: Definition)
    requires !MarkerFree(def) && HoldsNowhere(def, "<dict>")
    ensures EnvIn(SystemdUnit(def)) == []
  {
    hide Contains, Marker, SystemdUnit, HoldsNowhere, SplitOnce, InsertAll, IsPlainMark;
    SystemdReadBack(def);
    SplitOnceHolds(SystemdUnit(def), Marker());
    var (before, rest) := SplitOnce(SystemdUnit(def), Marker()).value;
    DictIsTag();
    UnitHoldsIff(def, "<dict>");
    SplitOnceHolds(rest, "<dict>");
    assert before + Marker() + rest + "" == SystemdUnit(def);
    if Contains(rest, "<dict>") {
      ContainsInside(before + Marker(), rest, "", "<dict>");
    }
  }

  /**
   The environment comes back unchanged exactly if no key holds `=`; with the marker and no
   dictionary, exactly if there was none.
   */
  lemma SystemdReadBackIff(def: Definition)
    requires MarkerFree(def) || HoldsNowhere(def, "<dict>")
    ensures EnvIn(SystemdUnit(def)) == def.env <==>
      if MarkerFree(def) then forall i :: 0 <= i < |def.env| ==> '=' !in def.env[i].key else def.env == []
  {
    hide EnvIn, SystemdUnit, Reparsed, InsertAll, HoldsNowhere;
    if MarkerFree(def) {
      SystemdReadBack(def);
      var good := (key: string) => '=' !in key;
      forall i | 0 <= i < |def.env|
        ensures good(Reparsed(def.env[i]).key) && (good(def.env[i].key) ==> Reparsed(def.env[i]) == def.env[i])
      {
        ReparsedIs(def.env[i]);
      }
      RebuiltIff(def.env, ReparseAll(def.env), good);
    } else {
      MarkerHidesEnvironment(def);
    }
  }
}
