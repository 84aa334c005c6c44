/** Reading the environment back from a rendered definition. */
module ReadBack {
  import opened Options
  import opened Text
  import opened ServiceText
  import opened Environment
  import opened ServiceFile

  // ---- Texts in which no occurrence of a pattern starts ----

  /** Whatever follows `s`, no occurrence of `pat` starts inside it. */
  ghost predicate Clean(s: string, pat: string) {
    forall rest: string, i: nat :: i < |s| ==> !At(s + rest, pat, i)
  }

  lemma Differs(s: string, pat: string, i: nat, d: nat)
    requires d < |pat| && (i + d < |s| ==> s[i + d] != pat[d])
    ensures !At(s, pat, i)
  {
    assert i + |pat| <= |s| ==> s[i..i + |pat|][d] == s[i + d];
  }

  lemma CleanText(s: string, pat: string)
    requires pat != [] && pat[0] !in s
    ensures Clean(s, pat)
  {
    hide At;
    forall rest: string, i: nat | i < |s| ensures !At(s + rest, pat, i) {
      Differs(s + rest, pat, i, 0);
    }
  }

  /** A tag that differs from the pattern, and text after it. */
  lemma CleanTag(s: string, pat: string, d: nat)
    requires s != [] && pat != [] && pat[0] !in s[1..]
    requires d < |s| && d < |pat| && s[d] != pat[d]
    ensures Clean(s, pat)
  {
    hide At;
    forall rest: string, i: nat | i < |s| ensures !At(s + rest, pat, i) {
      assert i > 0 ==> s[i] == s[1..][i - 1];
      Differs(s + rest, pat, i, if i == 0 then d else 0);
    }
  }

  lemma CleanConcat(a: string, b: string, pat: string)
    requires Clean(a, pat) && Clean(b, pat)
    ensures Clean(a + b, pat)
  {
    forall rest: string, i: nat | i < |a + b| ensures !At(a + b + rest, pat, i) {
      assert a + b + rest == a + (b + rest);
      if i >= |a| {
        AtShift(a, b + rest, pat, i - |a|);
      }
    }
  }

  lemma AtShift(a: string, b: string, pat: string, i: nat)
    ensures At(a + b, pat, |a| + i) <==> At(b, pat, i)
  {
    if i + |pat| <= |b| {
      assert (a + b)[|a| + i..|a| + i + |pat|] == b[i..i + |pat|];
    }
  }

  lemma SplitAtClean(a: string, pat: string, b: string)
    requires Clean(a, pat)
    ensures SplitOnce(a + pat + b, pat) == Some((a, b))
  {
    hide SplitOnce;
    var s := a + pat + b;
    assert s == a + (pat + b);
    assert s[|a|..|a| + |pat|] == pat;
    FindIs(s, pat, |a|);
    assert s[..|a|] == a && s[|a| + |pat|..] == b;
  }

  lemma NotFoundInClean(s: string, pat: string)
    requires Clean(s, pat) && pat != []
    ensures SplitOnce(s, pat).None?
  {
    FindGives(s, pat);
    assert s + [] == s;
  }

  // ---- launchd ----

  lemma EntryText(key: string, value: string, rest: string, second: string, third: string)
    requires third == value + "</string>" + ("\n" + rest) && second == "\n\t\t" + "<string>" + third
    ensures "\n" + (KeyLine("\t\t", key) + StringLine("\t\t", value)) + rest
         == "\n\t\t" + "<key>" + (key + "</key>" + second)
  {
    var line := StringLine("\t\t", value) + rest;
    assert line == "\t\t" + "<string>" + third;
    assert "</key>\n" + line == "</key>" + second;
    assert KeyLine("\t\t", key) + line == "\t\t" + "<key>" + (key + ("</key>\n" + line));
  }

  /** One entry of a dictionary as it is rendered. */
  lemma TakeRendered(e: Entry, rest: string)
    ensures TakeEntry("\n" + EntryLines(e) + rest) == Some((Entry(Trim(e.key), e.value), "\n" + rest))
  {
    hide SplitOnce, Trim, XmlEscape, XmlUnescape, KeyLine, StringLine;
    var key, value := XmlEscape(e.key), XmlEscape(e.value);
    XmlEscapeHasNoTags(e.key);
    XmlEscapeHasNoTags(e.value);
    var tail := "\n" + rest;
    var third := value + "</string>" + tail;
    var second := "\n\t\t" + "<string>" + third;
    var first := key + "</key>" + second;
    EntryText(key, value, rest, second, third);
    SplitAtText("\n\t\t", "<key>", first);
    SplitAtText(key, "</key>", second);
    SplitAtText("\n\t\t", "<string>", third);
    SplitAtText(value, "</string>", tail);
    UnescapeOfTrimmed(e.key);
    XmlRoundTrip(e.value);
  }

  lemma SplitAtText(a: string, pat: string, b: string)
    requires pat != [] && pat[0] !in a
    ensures SplitOnce(a + pat + b, pat) == Some((a, b))
  {
    CleanText(a, pat);
    SplitAtClean(a, pat, b);
  }

  function TrimKeys(env: seq<Entry>): (r: seq<Entry>)
    ensures |r| == |env|
    ensures forall i :: 0 <= i < |env| ==> r[i] == Entry(Trim(env[i].key), env[i].value)
  {
    if env == [] then [] else [Entry(Trim(env[0].key), env[0].value)] + TrimKeys(env[1..])
  }

  lemma {:induction false} EnvLinesNext(env: seq<Entry>)
    requires env != []
    ensures EnvLines(env) == EntryLines(env[0]) + EnvLines(env[1..])
  {
    hide EntryLines;
    var n := |env| - 1;
    if n > 0 {
      EnvLinesNext(env[..n]);
      assert env[..n][1..] == env[1..][..n - 1];
    } else {
      assert env[1..] == [] && env[..n] == [];
    }
  }

  lemma {:induction false} DictReadBack(env: seq<Entry>, acc: Env)
    ensures ReadDict("\n" + EnvLines(env) + "\t", acc) == InsertAll(acc, TrimKeys(env))
    decreases |env|
  {
    hide TakeEntry, EntryLines;
    if env == [] {
      assert "\n" + EnvLines(env) + "\t" == "\n\t";
      NoEntryLeft();
    } else {
      EnvLinesNext(env);
      var rest := EnvLines(env[1..]) + "\t";
      assert "\n" + EnvLines(env) + "\t" == "\n" + EntryLines(env[0]) + rest;
      assert "\n" + rest == "\n" + EnvLines(env[1..]) + "\t";
      TakeRendered(env[0], rest);
      DictReadBack(env[1..], Insert(acc, Trim(env[0].key), env[0].value));
      assert TrimKeys(env)[1..] == TrimKeys(env[1..]);
    }
  }

  lemma NoEntryLeft()
    ensures TakeEntry("\n\t") == None
  {
    hide SplitOnce;
    CleanText("\n\t", "<key>");
    NotFoundInClean("\n\t", "<key>");
  }

  lemma CleanKeyLine(indent: string, name: string, pat: string, d: nat)
    requires pat != [] && pat[0] == '<' && '<' !in indent && '<' !in name && |pat| > 5
    requires d < 5 + |name| && d < |pat| && ("<key>" + name)[d] != pat[d]
    requires pat[1] != '/' || pat[2] != 'k'
    ensures Clean(KeyLine(indent, name), pat)
  {
    hide Clean;
    CleanText(indent, pat);
    CleanTag("<key>" + name, pat, d);
    CleanTag("</key>\n", pat, if pat[1] != '/' then 1 else 2);
    CleanConcat(indent, "<key>" + name, pat);
    CleanConcat(indent + ("<key>" + name), "</key>\n", pat);
    assert KeyLine(indent, name) == indent + ("<key>" + name) + "</key>\n";
  }

  lemma CleanStringLine(indent: string, text: string, pat: string)
    requires |pat| > 5 && pat[0] == '<' && '<' !in indent && '<' !in text
    requires pat[1] != 's' && (pat[1] != '/' || pat[2] != 's')
    ensures Clean(StringLine(indent, text), pat)
  {
    hide Clean;
    CleanText(indent, pat);
    CleanTag("<string>" + text, pat, 1);
    CleanTag("</string>\n", pat, if pat[1] != '/' then 1 else 2);
    CleanConcat(indent, "<string>" + text, pat);
    CleanConcat(indent + ("<string>" + text), "</string>\n", pat);
    assert StringLine(indent, text) == indent + ("<string>" + text) + "</string>\n";
  }

  lemma CleanField(indent: string, text: string)
    requires '<' !in indent
    ensures Clean(StringLine(indent, XmlEscape(text)), Marker())
    ensures Clean(StringLine(indent, XmlEscape(text)), "</dict>")
  {
    hide Clean, XmlEscape;
    XmlEscapeHasNoTags(text);
    CleanStringLine(indent, XmlEscape(text), Marker());
    CleanStringLine(indent, XmlEscape(text), "</dict>");
  }

  lemma {:induction false} CleanEnvLines(env: seq<Entry>)
    ensures Clean(EnvLines(env), "</dict>")
  {
    hide Clean, XmlEscape, KeyLine, StringLine;
    if env == [] {
      CleanText("", "</dict>");
    } else {
      var n := |env| - 1;
      CleanEnvLines(env[..n]);
      XmlEscapeHasNoTags(env[n].key);
      CleanKeyLine("\t\t", XmlEscape(env[n].key), "</dict>", 1);
      CleanField("\t\t", env[n].value);
      CleanConcat(KeyLine("\t\t", XmlEscape(env[n].key)), StringLine("\t\t", XmlEscape(env[n].value)), "</dict>");
      CleanConcat(EnvLines(env[..n]), EntryLines(env[n]), "</dict>");
    }
  }

  lemma {:induction false} CleanArgLines(args: seq<string>)
    ensures Clean(ArgLines(args), Marker())
  {
    hide Clean, XmlEscape, StringLine, Marker;
    if args == [] {
      MarkerStart();
      CleanText("", Marker());
    } else {
      var n := |args| - 1;
      CleanArgLines(args[..n]);
      CleanField("\t\t", args[n]);
      CleanConcat(ArgLines(args[..n]), StringLine("\t\t", XmlEscape(args[n])), Marker());
    }
  }

  lemma MarkerStart()
    ensures |Marker()| == 31 && Marker()[0] == '<' && Marker()[1] == 'k' && Marker()[5] == 'E'
  {
  }

  lemma CleanHeader()
    ensures Clean(Header(), Marker())
  {
    hide Clean, Marker, XmlDeclaration, DoctypeStart, DoctypeName, DoctypeHost, DoctypeEnd, PlistStart;
    var doctype := DoctypeStart() + DoctypeName() + DoctypeHost() + DoctypeEnd();
    CleanDeclaration();
    CleanDoctype();
    CleanPlistStart();
    CleanConcat(XmlDeclaration(), doctype, Marker());
    CleanConcat(XmlDeclaration() + doctype, PlistStart(), Marker());
  }

  lemma DeclarationIsOneTag()
    ensures DeclarationTag() != "" && DeclarationTag()[0] == '?'
    ensures '<' !in DeclarationTag() && '\n' !in DeclarationTag()
  {
    var tag := DeclarationTag();
    assert forall i :: 0 <= i < |tag| ==> tag[i] != '<' && tag[i] != '\n';
  }

  lemma CleanDeclaration()
    ensures Clean(XmlDeclaration(), Marker())
  {
    hide Clean, Marker;
    MarkerStart();
    hide DeclarationTag;
    DeclarationIsOneTag();
    CleanTag(XmlDeclaration(), Marker(), 1);
  }

  lemma CleanDoctype()
    ensures Clean(DoctypeStart() + DoctypeName() + DoctypeHost() + DoctypeEnd(), Marker())
  {
    hide Clean, Marker, DoctypeStart, DoctypeName, DoctypeHost, DoctypeEnd;
    DoctypeHasOneTag();
    MarkerStart();
    CleanTag(DoctypeStart(), Marker(), 1);
    CleanText(DoctypeName(), Marker());
    CleanText(DoctypeHost(), Marker());
    CleanText(DoctypeEnd(), Marker());
    CleanConcat(DoctypeStart(), DoctypeName(), Marker());
    CleanConcat(DoctypeStart() + DoctypeName(), DoctypeHost(), Marker());
    CleanConcat(DoctypeStart() + DoctypeName() + DoctypeHost(), DoctypeEnd(), Marker());
  }

  lemma DoctypeHasOneTag()
    ensures |DoctypeStart()| > 1 && DoctypeStart()[1] == '!' && '<' !in DoctypeStart()[1..]
    ensures '<' !in DoctypeName() && '<' !in DoctypeHost() && '<' !in DoctypeEnd()
  {
    assert forall i :: 1 <= i < |DoctypeStart()| ==> DoctypeStart()[i] != '<';
    assert forall i :: 0 <= i < |DoctypeName()| ==> DoctypeName()[i] != '<';
    assert forall i :: 0 <= i < |DoctypeHost()| ==> DoctypeHost()[i] != '<';
    assert forall i :: 0 <= i < |DoctypeEnd()| ==> DoctypeEnd()[i] != '<';
  }

  lemma CleanPlistStart()
    ensures Clean(PlistStart(), Marker())
  {
    hide Clean, Marker;
    MarkerStart();
    CleanTag("<plist version=\"1.0\">\n", Marker(), 1);
    CleanTag("<dict>\n", Marker(), 1);
    CleanConcat("<plist version=\"1.0\">\n", "<dict>\n", Marker());
    assert PlistStart() == "<plist version=\"1.0\">\n" + "<dict>\n";
  }

  lemma CleanName(name: string)
    requires name != "" && '<' !in name && name[0] != 'E'
    ensures Clean(KeyLine("\t", name), Marker())
  {
    hide Clean, Marker;
    MarkerStart();
    CleanKeyLine("\t", name, Marker(), 5);
  }

  /** The names before the environment, and the lines between them. */
  lemma CleanNames()
    ensures Clean(KeyLine("\t", "Label"), Marker()) && Clean(KeyLine("\t", "ProgramArguments"), Marker())
    ensures Clean(KeyLine("\t", "RunAtLoad"), Marker()) && Clean(KeyLine("\t", "KeepAlive"), Marker())
    ensures Clean("\t<array>\n", Marker()) && Clean("\t</array>\n", Marker()) && Clean("\t<true/>\n", Marker())
  {
    hide Clean, Marker, KeyLine;
    CleanName("Label");
    CleanName("ProgramArguments");
    CleanName("RunAtLoad");
    CleanName("KeepAlive");
    CleanIndented("<array>\n");
    CleanIndented("</array>\n");
    CleanIndented("<true/>\n");
    assert "\t<array>\n" == "\t" + "<array>\n";
    assert "\t</array>\n" == "\t" + "</array>\n";
    assert "\t<true/>\n" == "\t" + "<true/>\n";
  }

  lemma CleanIndented(tag: string)
    requires |tag| > 1 && tag[1] != 'k' && '<' !in tag[1..]
    ensures Clean("\t" + tag, Marker())
  {
    hide Clean, Marker;
    MarkerStart();
    CleanText("\t", Marker());
    CleanTag(tag, Marker(), 1);
    CleanConcat("\t", tag, Marker());
  }

  lemma CleanHead(def: Definition)
    ensures Clean(LaunchdHead(def), Marker())
  {
    hide Clean, Marker, Header, KeyLine, StringLine, XmlEscape, ArgLines;
    CleanHeader();
    CleanNames();
    CleanField("\t", def.name);
    CleanArgLines(def.args);
    var a := Header() + KeyLine("\t", "Label");
    CleanConcat(Header(), KeyLine("\t", "Label"), Marker());
    var b := a + StringLine("\t", XmlEscape(def.name));
    CleanConcat(a, StringLine("\t", XmlEscape(def.name)), Marker());
    var c := b + KeyLine("\t", "ProgramArguments");
    CleanConcat(b, KeyLine("\t", "ProgramArguments"), Marker());
    CleanConcat(c, "\t<array>\n", Marker());
    var d := c + "\t<array>\n" + ArgLines(def.args);
    CleanConcat(c + "\t<array>\n", ArgLines(def.args), Marker());
    CleanConcat(d, "\t</array>\n", Marker());
    var e := d + "\t</array>\n" + KeyLine("\t", "RunAtLoad");
    CleanConcat(d + "\t</array>\n", KeyLine("\t", "RunAtLoad"), Marker());
    CleanConcat(e, "\t<true/>\n", Marker());
    var f := e + "\t<true/>\n" + KeyLine("\t", "KeepAlive");
    CleanConcat(e + "\t<true/>\n", KeyLine("\t", "KeepAlive"), Marker());
    CleanConcat(f, "\t<true/>\n", Marker());
  }

  lemma CleanDictionary(env: seq<Entry>)
    ensures Clean("\n" + EnvLines(env) + "\t", "</dict>")
  {
    hide Clean, EnvLines;
    CleanEnvLines(env);
    CleanText("\n", "</dict>");
    CleanText("\t", "</dict>");
    CleanConcat("\n", EnvLines(env), "</dict>");
    CleanConcat("\n" + EnvLines(env), "\t", "</dict>");
  }

  lemma Regroup(marker: string, open: string, lines: string, close: string, tail: string)
    ensures ("\t" + marker + "\n") + ("\t" + open + "\n") + lines + ("\t" + close + "\n") + tail
         == "\t" + (marker + ("\n\t" + open + ("\n" + lines + "\t" + close + ("\n" + tail))))
  {
    var end := "\t" + close + ("\n" + tail);
    assert ("\t" + close + "\n") + tail == end;
    assert "\n" + lines + end == "\n" + lines + "\t" + close + ("\n" + tail);
    assert ("\t" + open + "\n") + (lines + end) == "\t" + open + ("\n" + lines + end);
    var inside := "\n" + lines + end;
    assert ("\t" + marker + "\n") + ("\t" + open + inside) == "\t" + (marker + ("\n\t" + open + inside));
  }

  lemma EnvText(env: seq<Entry>, tail: string)
    requires env != []
    ensures LaunchdEnv(env) + tail
         == "\t" + (Marker() + ("\n\t" + "<dict>" + ("\n" + EnvLines(env) + "\t" + "</dict>" + ("\n" + tail))))
  {
    hide EnvLines, KeyLine, Marker;
    MarkerLine();
    Regroup(Marker(), "<dict>", EnvLines(env), "</dict>", tail);
    assert "\t</dict>\n" == "\t" + "</dict>" + "\n" && "\t<dict>\n" == "\t" + "<dict>" + "\n";
  }

  lemma MarkerLine()
    ensures KeyLine("\t", "EnvironmentVariables") == "\t" + Marker() + "\n"
  {
    var tag := "<key>" + "EnvironmentVariables" + "</key>";
    assert "</key>\n" == "</key>" + "\n";
    assert tag == Marker();
    hide Marker;
    assert KeyLine("\t", "EnvironmentVariables") == "\t" + tag + "\n";
  }

  lemma Around(a: string, b: string, tail: string, t: string, m: string, after: string)
    requires b + tail == t + (m + after)
    ensures a + b + tail == a + t + m + after
  {
    assert a + b + tail == a + (b + tail);
    assert a + (t + (m + after)) == a + t + m + after;
  }

  /**
   From a launchd definition the reader gets every entry with its key trimmed, whatever the
   other fields hold.
   */
  lemma LaunchdReadBack(def: Definition)
    requires def.env != []
    ensures EnvIn(LaunchdPlist(def)) == InsertAll([], TrimKeys(def.env))
  {
    hide Clean, Marker, LaunchdHead, LaunchdEnv, LaunchdTail, SplitOnce, ReadDict, EnvLines, InsertAll;
    var tail := LaunchdTail(def);
    var dict := "\n" + EnvLines(def.env) + "\t";
    var inside := dict + "</dict>" + ("\n" + tail);
    var after := "\n\t" + "<dict>" + inside;
    var head := LaunchdHead(def) + "\t";
    EnvText(def.env, tail);
    Around(LaunchdHead(def), LaunchdEnv(def.env), tail, "\t", Marker(), after);
    CleanHead(def);
    MarkerStart();
    CleanText("\t", Marker());
    CleanConcat(LaunchdHead(def), "\t", Marker());
    SplitAtClean(head, Marker(), after);
    SplitAtText("\n\t", "<dict>", inside);
    CleanDictionary(def.env);
    SplitAtClean(dict, "</dict>", "\n" + tail);
    DictReadBack(def.env, []);
  }

  /** The environment comes back unchanged exactly if no key has outer whitespace. */
  lemma LaunchdReadBackIff(def: Definition)
    requires def.env != []
    ensures EnvIn(LaunchdPlist(def)) == def.env <==> forall i :: 0 <= i < |def.env| ==> Trimmed(def.env[i].key)
  {
    hide EnvIn, LaunchdPlist, Trim, InsertAll, Trimmed;
    LaunchdReadBack(def);
    forall i | 0 <= i < |def.env|
      ensures var key := def.env[i].key; Trimmed(Trim(key)) && (Trimmed(key) ==> Trim(key) == key)
    {
      TrimGivesTrimmed(def.env[i].key);
      if Trimmed(def.env[i].key) {
        TrimmedIsFixed(def.env[i].key);
      }
    }
    RebuiltIff(def.env, TrimKeys(def.env), Trimmed);
  }
}
