/**
 A launchd definition without an environment: the reader falls through to its line format and
 finds an entry there exactly if some field brings a line of its own that reads as one.
 */
module ReadBackEmpty {
  import opened Options
  import opened Text
  import opened ServiceText
  import opened Environment
  import opened ServiceFile
  import opened ReadBack
  import opened ReadBackUnit

  lemma CleanTailNames()
    ensures Clean(KeyLine("\t", "AssociatedBundleIdentifiers"), Marker())
    ensures Clean(KeyLine("\t", "StandardOutPath"), Marker()) && Clean(KeyLine("\t", "StandardErrorPath"), Marker())
    ensures Clean("</dict>\n</plist>\n", Marker())
  {
    hide Clean, Marker, KeyLine;
    MarkerStart();
    CleanName("AssociatedBundleIdentifiers");
    CleanName("StandardOutPath");
    CleanName("StandardErrorPath");
    CleanTag("</dict>\n", Marker(), 1);
    CleanTag("</plist>\n", Marker(), 1);
    CleanConcat("</dict>\n", "</plist>\n", Marker());
    assert "</dict>\n</plist>\n" == "</dict>\n" + "</plist>\n";
  }

  function BundleLines(bundle: Option<string>): string {
    if bundle.None? then ""
    else KeyLine("\t", "AssociatedBundleIdentifiers") + StringLine("\t", XmlEscape(bundle.value))
  }

  function LogLines(log: Option<string>): string {
    if log.Some? then KeyLine("\t", "StandardOutPath") + StringLine("\t", XmlEscape(log.value))
                      + KeyLine("\t", "StandardErrorPath") + StringLine("\t", XmlEscape(log.value)) else ""
  }

  lemma CleanBundleLines(bundle: Option<string>)
    ensures Clean(BundleLines(bundle), Marker())
  {
    hide Clean, Marker, KeyLine, StringLine, XmlEscape;
    CleanEmpty(Marker());
    if bundle.Some? {
      CleanTailNames();
      CleanField("\t", bundle.value);
      CleanConcat(KeyLine("\t", "AssociatedBundleIdentifiers"), StringLine("\t", XmlEscape(bundle.value)), Marker());
    }
  }

  lemma CleanLogLines(log: Option<string>)
    ensures Clean(LogLines(log), Marker())
  {
    hide Clean, Marker, KeyLine, StringLine, XmlEscape;
    CleanEmpty(Marker());
    if log.Some? {
      CleanTailNames();
      CleanField("\t", log.value);
      var line := StringLine("\t", XmlEscape(log.value));
      CleanConcat(KeyLine("\t", "StandardOutPath"), line, Marker());
      CleanConcat(KeyLine("\t", "StandardOutPath") + line, KeyLine("\t", "StandardErrorPath"), Marker());
      CleanConcat(KeyLine("\t", "StandardOutPath") + line + KeyLine("\t", "StandardErrorPath"), line, Marker());
    }
  }

  lemma CleanTail(def: Definition)
    ensures Clean(LaunchdTail(def), Marker())
  {
    hide Clean, Marker, BundleLines, LogLines;
    CleanTailNames();
    CleanBundleLines(def.bundle);
    CleanLogLines(def.log);
    CleanConcat(BundleLines(def.bundle), LogLines(def.log), Marker());
    CleanConcat(BundleLines(def.bundle) + LogLines(def.log), "</dict>\n</plist>\n", Marker());
    TailParts(def);
  }

  lemma TailParts(def: Definition)
    ensures LaunchdTail(def) == BundleLines(def.bundle) + LogLines(def.log) + "</dict>\n</plist>\n"
  {
    hide KeyLine, StringLine, XmlEscape;
  }

  // ---- No line of it is an assignment ----

  lemma SilentKeyLine(indent: string, name: string)
    requires (forall i :: 0 <= i < |indent| ==> indent[i] == '\t') && '\n' !in name
    ensures Silent(KeyLine(indent, name))
  {
    hide Silent;
    var body := "<key>" + name + "</key>";
    TagLine(indent, body);
    assert KeyLine(indent, name) == indent + body + "\n";
  }

  /** Text after which something has been read, whatever came before and comes after. */
  ghost predicate Loud(s: string) {
    forall rest, env: Env :: ReadText(s + rest, env) != []
  }

  ghost predicate Clear(s: string) {
    Silent(s) || Loud(s)
  }

  lemma LoudIsNotSilent(s: string)
    requires Loud(s)
    ensures !Silent(s)
  {
    hide ReadText;
    NothingRead([]);
    if Silent(s) {
      SilentReads(s, "", []);
    }
  }

  lemma LoudConcat(a: string, b: string)
    requires Loud(a) || (Silent(a) && Loud(b))
    ensures Loud(a + b)
  {
    hide ReadText;
    forall rest, env: Env ensures ReadText(a + b + rest, env) != [] {
      assert a + b + rest == a + (b + rest);
    }
  }

  lemma ClearConcat(a: string, b: string)
    requires Clear(a) && Clear(b)
    ensures Clear(a + b) && (Silent(a + b) <==> Silent(a) && Silent(b))
  {
    hide Silent, Loud;
    if Silent(a) && Silent(b) {
      SilentConcat(a, b);
    } else {
      LoudConcat(a, b);
      LoudIsNotSilent(a + b);
    }
  }

  predicate Quiet(lines: seq<string>) {
    forall i :: 0 <= i < |lines| ==> LineEntry(lines[i]).None?
  }

  lemma {:induction false} PlaceIsNotEmpty(e: seq<Entry>, key: string, value: string)
    ensures Place(e, key, value) != []
  {
  }

  lemma {:induction false} NothingIsLost(lines: seq<string>, env: Env)
    requires env != []
    ensures ReadLines(lines, env) != []
    decreases |lines|
  {
    hide LineEntry, Place;
    if lines != [] {
      match LineEntry(lines[0]) {
        case None => NothingIsLost(lines[1..], env);
        case Some(e) =>
          PlaceIsNotEmpty(env, e.key, e.value);
          NothingIsLost(lines[1..], Insert(env, e.key, e.value));
      }
    }
  }

  lemma LoudLine(line: string)
    requires '\n' !in line && LineEntry(WithoutReturn(line)).Some?
    ensures Loud(line + "\n")
  {
    hide Lines, WithoutReturn, LineEntry, Place;
    forall rest, env: Env ensures ReadText(line + "\n" + rest, env) != [] {
      FirstLine(line, rest);
      assert ([WithoutReturn(line)] + Lines(rest))[1..] == Lines(rest);
      var e := LineEntry(WithoutReturn(line)).value;
      PlaceIsNotEmpty(env, e.key, e.value);
      NothingIsLost(Lines(rest), Insert(env, e.key, e.value));
    }
  }

  /** Complete lines are silent exactly if none of them is an assignment. */
  lemma {:induction false} CompleteLines(text: string)
    requires text != "" && text[|text| - 1] == '\n'
    ensures Clear(text) && (Silent(text) <==> Quiet(Lines(text)))
    decreases |text|
  {
    hide Silent, Loud, LineEntry, WithoutReturn, Lines, SplitOnce;
    SplitOnceWithoutChar(text, '\n');
    var (line, rest) := SplitOnce(text, "\n").value;
    assert text == line + "\n" + rest;
    FirstLine(line, rest);
    if LineEntry(WithoutReturn(line)).None? {
      SilentLine(line);
    } else {
      LoudLine(line);
      LoudIsNotSilent(line + "\n");
    }
    QuietNext(WithoutReturn(line), Lines(rest));
    if rest == "" {
      assert text == line + "\n";
      NoLines();
    } else {
      assert rest[|rest| - 1] == text[|text| - 1];
      CompleteLines(rest);
      ClearConcat(line + "\n", rest);
    }
  }

  lemma QuietNext(line: string, lines: seq<string>)
    ensures Quiet([line] + lines) <==> LineEntry(line).None? && Quiet(lines)
  {
    hide LineEntry;
    var all := [line] + lines;
    assert all[0] == line;
    if Quiet(all) {
      forall i | 0 <= i < |lines| ensures LineEntry(lines[i]).None? {
        assert all[i + 1] == lines[i];
      }
    }
  }

  lemma NoLines()
    ensures Lines("") == []
  {
  }

  /** Some line of the field, after its first, reads as an assignment once it is in the text. */
  predicate Forges(field: string) {
    match SplitOnce(XmlEscape(field), "\n")
    case None => false
    case Some((_, rest)) => !Quiet(Lines(rest + "</string>\n"))
  }

  /** A field of one line cannot. */
  lemma OneLineDoesNotForge(field: string)
    requires '\n' !in field
    ensures !Forges(field)
  {
    hide SplitOnce, XmlEscape;
    XmlEscapeHasNoTags(field);
    SplitOnceWithoutChar(XmlEscape(field), '\n');
  }

  lemma FieldLine(indent: string, field: string)
    requires forall i :: 0 <= i < |indent| ==> indent[i] == '\t'
    ensures Clear(StringLine(indent, XmlEscape(field)))
    ensures Silent(StringLine(indent, XmlEscape(field))) <==> !Forges(field)
  {
    hide Silent, Loud, XmlEscape, SplitOnce, Quiet, Lines;
    var text := XmlEscape(field);
    SplitOnceWithoutChar(text, '\n');
    match SplitOnce(text, "\n") {
      case None =>
        var body := "<string>" + text + "</string>";
        TagLine(indent, body);
        assert StringLine(indent, text) == indent + body + "\n";
      case Some((first, rest)) =>
        var body := "<string>" + first;
        var more := rest + "</string>\n";
        TagLine(indent, body);
        CompleteLines(more);
        assert text == first + "\n" + rest;
        assert StringLine(indent, text) == (indent + body + "\n") + more;
        ClearConcat(indent + body + "\n", more);
    }
  }

  lemma {:induction false} ClearArgLines(args: seq<string>)
    ensures Clear(ArgLines(args)) && (Silent(ArgLines(args)) <==> forall i :: 0 <= i < |args| ==> !Forges(args[i]))
  {
    hide Silent, Loud, StringLine, XmlEscape, Forges;
    if args == [] {
      SilentEmpty();
    } else {
      var n := |args| - 1;
      ClearArgLines(args[..n]);
      FieldLine("\t\t", args[n]);
      ClearConcat(ArgLines(args[..n]), StringLine("\t\t", XmlEscape(args[n])));
      assert forall i :: 0 <= i < n ==> args[..n][i] == args[i];
    }
  }

  lemma SilentHeader()
    ensures Silent(Header())
  {
    hide Silent, XmlDeclaration, DoctypeStart, DoctypeName, DoctypeHost, DoctypeEnd, PlistStart;
    SilentDeclaration();
    SilentDoctype();
    SilentPlistStart();
    var doctype := DoctypeStart() + DoctypeName() + DoctypeHost() + DoctypeEnd();
    SilentConcat(XmlDeclaration(), doctype);
    SilentConcat(XmlDeclaration() + doctype, PlistStart());
  }

  lemma SilentDeclaration()
    ensures Silent(XmlDeclaration())
  {
    hide Silent, DeclarationTag;
    DeclarationIsOneTag();
    var body := "<" + DeclarationTag() + ">";
    TagLine("", body);
    assert XmlDeclaration() == "" + body + "\n";
  }

  lemma SilentDoctype()
    ensures Silent(DoctypeStart() + DoctypeName() + DoctypeHost() + DoctypeEnd())
  {
    hide Silent, DoctypeStart, DoctypeName, DoctypeHost, DoctypeEnd;
    var n := |DoctypeEnd()| - 1;
    DoctypeIsOneLine();
    var body := DoctypeStart() + DoctypeName() + DoctypeHost() + DoctypeEnd()[..n];
    assert body[|body| - 1] == DoctypeEnd()[n - 1];
    TagLine("", body);
    assert DoctypeStart() + DoctypeName() + DoctypeHost() + DoctypeEnd() == "" + body + "\n";
  }

  lemma DoctypeIsOneLine()
    ensures DoctypeStart() != "" && DoctypeStart()[0] == '<' && '\n' !in DoctypeStart()
    ensures '\n' !in DoctypeName() && '\n' !in DoctypeHost()
    ensures var n := |DoctypeEnd()| - 1;
      n > 0 && DoctypeEnd()[n] == '\n' && DoctypeEnd()[n - 1] == '>' && '\n' !in DoctypeEnd()[..n]
  {
    assert forall i :: 0 <= i < |DoctypeStart()| ==> DoctypeStart()[i] != '\n';
    assert forall i :: 0 <= i < |DoctypeName()| ==> DoctypeName()[i] != '\n';
    assert forall i :: 0 <= i < |DoctypeHost()| ==> DoctypeHost()[i] != '\n';
    assert forall i :: 0 <= i < |DoctypeEnd()| - 1 ==> DoctypeEnd()[i] != '\n';
  }

  lemma SilentPlistStart()
    ensures Silent(PlistStart())
  {
    hide Silent;
    TagLine("", "<plist version=\"1.0\">");
    TagLine("", "<dict>");
    SilentConcat("" + "<plist version=\"1.0\">" + "\n", "" + "<dict>" + "\n");
    assert PlistStart() == ("" + "<plist version=\"1.0\">" + "\n") + ("" + "<dict>" + "\n");
  }

  lemma SilentTags()
    ensures Silent("\t<array>\n") && Silent("\t</array>\n") && Silent("\t<true/>\n")
  {
    hide Silent;
    TagLine("\t", "<array>");
    TagLine("\t", "</array>");
    TagLine("\t", "<true/>");
    assert "\t<array>\n" == "\t" + "<array>" + "\n";
    assert "\t</array>\n" == "\t" + "</array>" + "\n";
    assert "\t<true/>\n" == "\t" + "<true/>" + "\n";
  }

  lemma SilentNames()
    ensures Silent(KeyLine("\t", "Label")) && Silent(KeyLine("\t", "ProgramArguments"))
    ensures Silent(KeyLine("\t", "RunAtLoad")) && Silent(KeyLine("\t", "KeepAlive"))
    ensures Silent(KeyLine("\t", "AssociatedBundleIdentifiers"))
    ensures Silent(KeyLine("\t", "StandardOutPath")) && Silent(KeyLine("\t", "StandardErrorPath"))
  {
    hide Silent, KeyLine;
    SilentKeyLine("\t", "Label");
    SilentKeyLine("\t", "ProgramArguments");
    SilentKeyLine("\t", "RunAtLoad");
    SilentKeyLine("\t", "KeepAlive");
    SilentKeyLine("\t", "AssociatedBundleIdentifiers");
    SilentKeyLine("\t", "StandardOutPath");
    SilentKeyLine("\t", "StandardErrorPath");
  }

  lemma ClearHead(def: Definition)
    ensures Clear(LaunchdHead(def))
    ensures Silent(LaunchdHead(def)) <==> !Forges(def.name) && forall i :: 0 <= i < |def.args| ==> !Forges(def.args[i])
  {
    hide Silent, Loud, Header, KeyLine, StringLine, XmlEscape, ArgLines, Forges;
    SilentHeader();
    SilentNames();
    SilentTags();
    FieldLine("\t", def.name);
    ClearArgLines(def.args);
    var a := Header() + KeyLine("\t", "Label");
    ClearConcat(Header(), KeyLine("\t", "Label"));
    var b := a + StringLine("\t", XmlEscape(def.name));
    ClearConcat(a, StringLine("\t", XmlEscape(def.name)));
    var c := b + KeyLine("\t", "ProgramArguments");
    ClearConcat(b, KeyLine("\t", "ProgramArguments"));
    ClearConcat(c, "\t<array>\n");
    var d := c + "\t<array>\n" + ArgLines(def.args);
    ClearConcat(c + "\t<array>\n", ArgLines(def.args));
    ClearConcat(d, "\t</array>\n");
    var e := d + "\t</array>\n" + KeyLine("\t", "RunAtLoad");
    ClearConcat(d + "\t</array>\n", KeyLine("\t", "RunAtLoad"));
    ClearConcat(e, "\t<true/>\n");
    var f := e + "\t<true/>\n" + KeyLine("\t", "KeepAlive");
    ClearConcat(e + "\t<true/>\n", KeyLine("\t", "KeepAlive"));
    ClearConcat(f, "\t<true/>\n");
  }

  lemma ClearTail(def: Definition)
    ensures Clear(LaunchdTail(def))
    ensures Silent(LaunchdTail(def)) <==>
      (def.bundle.Some? ==> !Forges(def.bundle.value)) && (def.log.Some? ==> !Forges(def.log.value))
  {
    hide Silent, Loud, LaunchdTail, BundleLines, LogLines, Forges;
    TailParts(def);
    ClearBundleLines(def.bundle);
    ClearLogLines(def.log);
    SilentEnd();
    ClearConcat(BundleLines(def.bundle), LogLines(def.log));
    ClearConcat(BundleLines(def.bundle) + LogLines(def.log), "</dict>\n</plist>\n");
  }

  lemma SilentEnd()
    ensures Silent("</dict>\n</plist>\n")
  {
    hide Silent;
    TagLine("", "</dict>");
    TagLine("", "</plist>");
    SilentConcat("" + "</dict>" + "\n", "" + "</plist>" + "\n");
    assert "</dict>\n</plist>\n" == ("" + "</dict>" + "\n") + ("" + "</plist>" + "\n");
  }

  lemma ClearBundleLines(bundle: Option<string>)
    ensures Clear(BundleLines(bundle)) && (Silent(BundleLines(bundle)) <==> (bundle.Some? ==> !Forges(bundle.value)))
  {
    hide Silent, Loud, KeyLine, StringLine, XmlEscape, Forges;
    SilentEmpty();
    if bundle.Some? {
      SilentNames();
      FieldLine("\t", bundle.value);
      ClearConcat(KeyLine("\t", "AssociatedBundleIdentifiers"), StringLine("\t", XmlEscape(bundle.value)));
    }
  }

  lemma ClearLogLines(log: Option<string>)
    ensures Clear(LogLines(log)) && (Silent(LogLines(log)) <==> (log.Some? ==> !Forges(log.value)))
  {
    hide Silent, Loud, KeyLine, StringLine, XmlEscape, Forges;
    SilentEmpty();
    if log.Some? {
      SilentNames();
      FieldLine("\t", log.value);
      var line := StringLine("\t", XmlEscape(log.value));
      ClearConcat(KeyLine("\t", "StandardOutPath"), line);
      ClearConcat(KeyLine("\t", "StandardOutPath") + line, KeyLine("\t", "StandardErrorPath"));
      ClearConcat(KeyLine("\t", "StandardOutPath") + line + KeyLine("\t", "StandardErrorPath"), line);
    }
  }

  predicate NoFieldForges(def: Definition) {
    && !Forges(def.name) && (forall i :: 0 <= i < |def.args| ==> !Forges(def.args[i]))
    && (def.bundle.Some? ==> !Forges(def.bundle.value)) && (def.log.Some? ==> !Forges(def.log.value))
  }

  /** Without an environment nothing is read back, exactly if no field forges a line. */
  lemma EmptyReadBackIff(def: Definition)
    requires def.env == []
    ensures EnvIn(LaunchdPlist(def)) == [] <==> NoFieldForges(def)
  {
    hide Clean, Silent, Loud, Forges, Marker, LaunchdHead, LaunchdTail, SplitOnce, ReadLines, Lines;
    CleanHead(def);
    CleanTail(def);
    CleanConcat(LaunchdHead(def), LaunchdTail(def), Marker());
    var text := LaunchdHead(def) + LaunchdTail(def);
    assert LaunchdHead(def) + "" == LaunchdHead(def);
    assert LaunchdPlist(def) == text;
    MarkerStart();
    NotFoundInClean(text, Marker());
    ClearHead(def);
    ClearTail(def);
    ClearConcat(LaunchdHead(def), LaunchdTail(def));
    assert text + "" == text;
    NothingRead([]);
    ClearReads(text);
  }

  lemma ClearReads(text: string)
    requires Clear(text)
    ensures ReadText(text, []) == [] <==> Silent(text)
  {
    hide ReadText;
    assert text + "" == text;
    NothingRead([]);
    if Silent(text) {
      SilentReads(text, "", []);
    }
  }

  /** Any assignment can be forged by a field, as long as escaping leaves it alone. */
  lemma FieldCanForge(first: string, e: Entry)
    requires '\n' !in first
    requires var field := first + "\n" + EnvironmentLine(e); '&' !in field && '<' !in field && '>' !in field
    ensures Forges(first + "\n" + EnvironmentLine(e))
  {
    hide XmlEscape, SplitOnce, Quote, LineEntry, Lines, WithoutReturn, Quiet;
    var line := "Environment=" + Quote(Assignment(e));
    var field := first + "\n" + (line + "\n");
    PlainIsUnescaped(field);
    SplitAtText(first, "\n", line + "\n");
    EnvironmentLineEntry(e, line);
    FirstLine(line, "</string>\n");
    QuietNext(line, Lines("</string>\n"));
  }

  lemma {:induction false} PlainIsUnescaped(s: string)
    requires '&' !in s && '<' !in s && '>' !in s
    ensures XmlEscape(s) == s
  {
    hide MapChars;
    XmlEscapeIsOneMap(s);
    PlainIsMapped(s);
  }

  lemma {:induction false} PlainIsMapped(s: string)
    requires '&' !in s && '<' !in s && '>' !in s
    ensures XmlEscaped(s) == s
  {
    hide XmlEscaped;
    XmlEscapedNext(s);
    if s != [] {
      PlainIsMapped(s[1..]);
    }
  }
}
