/** What a rendered property list says: a reader of its tags and texts finds every field, once and in its place. */
module PlistMeaning {
  import opened Options
  import opened Text
  import opened ServiceText
  import opened Environment
  import opened ServiceFile
  import opened ReadBack
  import ReadBackEmpty

  /** A tag, or a `key` or `string` tag together with the text after it. */
  datatype Node = Tag(name: string) | Leaf(name: string, text: string)

  predicate IsLeaf(tag: string) {
    tag == "key" || tag == "string"
  }

  function ReadNodes(s: string): seq<Node>
    decreases |s|
  {
    match SplitOnce(s, "<")
    case None => []
    case Some((_, after)) =>
      match SplitOnce(after, ">")
      case None => []
      case Some((tag, rest)) =>
        if !IsLeaf(tag) then [Tag(tag)] + ReadNodes(rest)
        else match SplitOnce(rest, "<")
          case None => []
          case Some((text, _)) => [Leaf(tag, XmlUnescape(text))] + ReadNodes(rest[|text|..])
  }

  // ---- What a definition means ----

  function Element(tag: string, text: string): seq<Node> {
    [Leaf(tag, text), Tag("/" + tag)]
  }

  function Strings(texts: seq<string>): seq<Node> {
    if texts == [] then [] else Strings(texts[..|texts| - 1]) + Element("string", texts[|texts| - 1])
  }

  function Entries(env: seq<Entry>): seq<Node> {
    if env == [] then []
    else
      var e := env[|env| - 1];
      Entries(env[..|env| - 1]) + (Element("key", e.key) + Element("string", e.value))
  }

  function HeaderNodes(): seq<Node> {
    [Tag(DeclarationTag()),
     Tag("!DOCTYPE plist PUBLIC " + DoctypeName() + DoctypeHost() + "PropertyList-1.0.dtd\""),
     Tag("plist version=\"1.0\""), Tag("dict")]
  }

  function HeadNodes(def: Definition): seq<Node> {
    HeaderNodes() + Element("key", "Label") + Element("string", def.name)
    + Element("key", "ProgramArguments") + [Tag("array")] + Strings(def.args) + [Tag("/array")]
    + Element("key", "RunAtLoad") + [Tag("true/")] + Element("key", "KeepAlive") + [Tag("true/")]
  }

  function EnvNodes(env: seq<Entry>): seq<Node> {
    if env == [] then []
    else Element("key", "EnvironmentVariables") + [Tag("dict")] + Entries(env) + [Tag("/dict")]
  }

  function Named(name: string, value: Option<string>): seq<Node> {
    if value.None? then [] else Element("key", name) + Element("string", value.value)
  }

  function TailNodes(def: Definition): seq<Node> {
    Named("AssociatedBundleIdentifiers", def.bundle)
    + (Named("StandardOutPath", def.log) + Named("StandardErrorPath", def.log)) + [Tag("/dict"), Tag("/plist")]
  }

  // ---- Texts that are read on their own ----

  ghost predicate Reads(piece: string, nodes: seq<Node>) {
    forall rest :: ReadNodes(piece + rest) == nodes + ReadNodes(rest)
  }

  lemma ReadsConcat(a: string, x: seq<Node>, b: string, y: seq<Node>)
    requires Reads(a, x) && Reads(b, y)
    ensures Reads(a + b, x + y)
  {
    hide ReadNodes;
    forall rest ensures ReadNodes(a + b + rest) == x + y + ReadNodes(rest) {
      assert a + b + rest == a + (b + rest);
      assert x + (y + ReadNodes(rest)) == x + y + ReadNodes(rest);
    }
  }

  lemma ReadsNothing()
    ensures Reads("", [])
  {
    forall rest ensures ReadNodes("" + rest) == [] + ReadNodes(rest) {
      assert "" + rest == rest;
    }
  }

  lemma SkipText(text: string, rest: string)
    requires '<' !in text
    ensures ReadNodes(text + rest) == ReadNodes(rest)
  {
    hide SplitOnce;
    var s := text + rest;
    SplitOnceWithoutChar(rest, '<');
    SplitOnceWithoutChar(s, '<');
    if SplitOnce(rest, "<").Some? {
      var (a, b) := SplitOnce(rest, "<").value;
      assert s == (text + a) + "<" + b;
      SplitAtText(text + a, "<", b);
    }
  }

  lemma ReadTag(tag: string, rest: string)
    requires '>' !in tag && !IsLeaf(tag)
    ensures ReadNodes("<" + tag + ">" + rest) == [Tag(tag)] + ReadNodes(rest)
  {
    hide SplitOnce;
    var after := tag + ">" + rest;
    assert "<" + tag + ">" + rest == "" + "<" + after;
    SplitAtText("", "<", after);
    SplitAtText(tag, ">", rest);
  }

  lemma ReadLeaf(tag: string, text: string, rest: string)
    requires IsLeaf(tag) && '<' !in text && rest != "" && rest[0] == '<'
    ensures ReadNodes("<" + tag + ">" + (text + rest)) == [Leaf(tag, XmlUnescape(text))] + ReadNodes(rest)
  {
    hide SplitOnce, XmlUnescape;
    var after := tag + ">" + (text + rest);
    assert "<" + tag + ">" + (text + rest) == "" + "<" + after;
    SplitAtText("", "<", after);
    SplitAtText(tag, ">", text + rest);
    assert text + rest == text + "<" + rest[1..];
    SplitAtText(text, "<", rest[1..]);
    assert (text + rest)[|text|..] == rest;
  }

  lemma TagReads(before: string, tag: string, after: string)
    requires '<' !in before && '<' !in after && '>' !in tag && !IsLeaf(tag)
    ensures Reads(before + ("<" + tag + ">") + after, [Tag(tag)])
  {
    hide ReadNodes, IsLeaf;
    forall rest ensures ReadNodes(before + ("<" + tag + ">") + after + rest) == [Tag(tag)] + ReadNodes(rest) {
      var more := "<" + tag + ">" + (after + rest);
      assert before + ("<" + tag + ">") + after + rest == before + more;
      SkipText(before, more);
      ReadTag(tag, after + rest);
      SkipText(after, rest);
    }
  }

  lemma LeafReads(before: string, tag: string, text: string, after: string)
    requires '<' !in before && '<' !in after && IsLeaf(tag)
    ensures Reads(before + ("<" + tag + ">") + XmlEscape(text) + ("</" + tag + ">") + after, Element(tag, text))
  {
    hide ReadNodes, XmlEscape, XmlUnescape;
    XmlEscapeHasNoTags(text);
    XmlRoundTrip(text);
    var escaped, close := XmlEscape(text), "/" + tag;
    var piece := before + ("<" + tag + ">") + escaped + ("</" + tag + ">") + after;
    forall rest ensures ReadNodes(piece + rest) == Element(tag, text) + ReadNodes(rest) {
      var end := "<" + close + ">" + (after + rest);
      var more := "<" + tag + ">" + (escaped + end);
      assert piece + rest == before + more by {
        assert "</" + tag + ">" == "<" + close + ">";
      }
      SkipText(before, more);
      ReadLeaf(tag, escaped, end);
      ReadTag(close, after + rest);
      SkipText(after, rest);
      assert [Leaf(tag, text)] + ([Tag(close)] + ReadNodes(rest)) == Element(tag, text) + ReadNodes(rest);
    }
  }

  lemma KeyReads(indent: string, key: string)
    requires '<' !in indent
    ensures Reads(KeyLine(indent, XmlEscape(key)), Element("key", key))
  {
    hide Reads, XmlEscape;
    LeafReads(indent, "key", key, "\n");
    assert "<" + "key" + ">" == "<key>" && "</" + "key" + ">" == "</key>";
    assert KeyLine(indent, XmlEscape(key)) == indent + "<key>" + XmlEscape(key) + "</key>" + "\n";
  }

  lemma StringReads(indent: string, text: string)
    requires '<' !in indent
    ensures Reads(StringLine(indent, XmlEscape(text)), Element("string", text))
  {
    hide Reads, XmlEscape;
    LeafReads(indent, "string", text, "\n");
    assert "<" + "string" + ">" == "<string>" && "</" + "string" + ">" == "</string>";
    assert StringLine(indent, XmlEscape(text)) == indent + "<string>" + XmlEscape(text) + "</string>" + "\n";
  }

  lemma NameReads(name: string)
    requires '&' !in name && '<' !in name && '>' !in name
    ensures Reads(KeyLine("\t", name), Element("key", name))
  {
    hide Reads, XmlEscape, KeyLine;
    ReadBackEmpty.PlainIsUnescaped(name);
    KeyReads("\t", name);
  }

  // ---- The parts of a property list ----

  lemma HeaderReads()
    ensures Reads(Header(), HeaderNodes())
  {
    hide Reads, XmlDeclaration, DeclarationTag, DoctypeStart, DoctypeName, DoctypeHost, DoctypeEnd, PlistStart;
    var doctype := DoctypeStart() + DoctypeName() + DoctypeHost() + DoctypeEnd();
    var name := "!DOCTYPE plist PUBLIC " + DoctypeName() + DoctypeHost() + "PropertyList-1.0.dtd\"";
    var xml := DeclarationTag();
    DeclarationReads();
    DoctypeReads();
    PlistStartReads();
    ReadsConcat(XmlDeclaration(), [Tag(xml)], doctype, [Tag(name)]);
    var plist := [Tag("plist version=\"1.0\""), Tag("dict")];
    ReadsConcat(XmlDeclaration() + doctype, [Tag(xml)] + [Tag(name)], PlistStart(), plist);
    assert [Tag(xml)] + [Tag(name)] + plist == HeaderNodes();
  }

  lemma DeclarationReads()
    ensures Reads(XmlDeclaration(), [Tag(DeclarationTag())])
  {
    hide Reads, XmlDeclaration, DeclarationTag, IsLeaf;
    DeclarationHasNoEnd();
    TagReads("", DeclarationTag(), "\n");
    DeclarationParts();
  }

  lemma DeclarationHasNoEnd()
    ensures '>' !in DeclarationTag() && !IsLeaf(DeclarationTag())
  {
    var tag := DeclarationTag();
    assert forall i :: 0 <= i < |tag| ==> tag[i] != '>';
    assert tag[0] == '?';
  }

  lemma DeclarationParts()
    ensures XmlDeclaration() == "" + ("<" + DeclarationTag() + ">") + "\n"
  {
    hide DeclarationTag;
  }

  lemma DoctypeReads()
    ensures var name := "!DOCTYPE plist PUBLIC " + DoctypeName() + DoctypeHost() + "PropertyList-1.0.dtd\"";
      Reads(DoctypeStart() + DoctypeName() + DoctypeHost() + DoctypeEnd(), [Tag(name)])
  {
    hide Reads, DoctypeName, DoctypeHost;
    var name := "!DOCTYPE plist PUBLIC " + DoctypeName() + DoctypeHost() + "PropertyList-1.0.dtd\"";
    DoctypeHasNoEnd();
    assert name[0] == '!';
    TagReads("", name, "\n");
    DoctypeParts();
    assert "" + ("<" + name + ">") + "\n" == DoctypeStart() + DoctypeName() + DoctypeHost() + DoctypeEnd();
  }

  lemma DoctypeHasNoEnd()
    ensures '>' !in "!DOCTYPE plist PUBLIC " && '>' !in DoctypeName() && '>' !in DoctypeHost()
    ensures '>' !in "PropertyList-1.0.dtd\""
  {
    assert forall i :: 0 <= i < |DoctypeName()| ==> DoctypeName()[i] != '>';
    assert forall i :: 0 <= i < |DoctypeHost()| ==> DoctypeHost()[i] != '>';
  }

  lemma DoctypeParts()
    ensures DoctypeStart() == "<" + "!DOCTYPE plist PUBLIC "
    ensures DoctypeEnd() == "PropertyList-1.0.dtd\"" + ">" + "\n"
  {
  }

  lemma PlistTagReads()
    ensures Reads("<plist version=\"1.0\">\n", [Tag("plist version=\"1.0\"")])
  {
    hide Reads;
    TagReads("", "plist version=\"1.0\"", "\n");
    assert "" + ("<" + "plist version=\"1.0\"" + ">") + "\n" == "<plist version=\"1.0\">\n";
  }

  lemma DictTagReads()
    ensures Reads("<dict>\n", [Tag("dict")])
  {
    hide Reads;
    TagReads("", "dict", "\n");
    assert "" + ("<" + "dict" + ">") + "\n" == "<dict>\n";
  }

  lemma PlistStartReads()
    ensures Reads(PlistStart(), [Tag("plist version=\"1.0\""), Tag("dict")])
  {
    hide Reads, PlistStart;
    PlistTagReads();
    DictTagReads();
    ReadsConcat("<plist version=\"1.0\">\n", [Tag("plist version=\"1.0\"")], "<dict>\n", [Tag("dict")]);
    PlistStartParts();
    assert [Tag("plist version=\"1.0\"")] + [Tag("dict")] == [Tag("plist version=\"1.0\""), Tag("dict")];
  }

  lemma PlistStartParts()
    ensures PlistStart() == "<plist version=\"1.0\">\n" + "<dict>\n"
  {
  }

  lemma {:induction false} ArgsRead(args: seq<string>)
    ensures Reads(ArgLines(args), Strings(args))
  {
    hide Reads, XmlEscape, StringLine, Element;
    if args == [] {
      ReadsNothing();
    } else {
      var n := |args| - 1;
      ArgsRead(args[..n]);
      StringReads("\t\t", args[n]);
      var line := StringLine("\t\t", XmlEscape(args[n]));
      ReadsConcat(ArgLines(args[..n]), Strings(args[..n]), line, Element("string", args[n]));
    }
  }

  lemma {:induction false} EntriesRead(env: seq<Entry>)
    ensures Reads(EnvLines(env), Entries(env))
  {
    hide Reads, XmlEscape, KeyLine, StringLine, Element;
    if env == [] {
      ReadsNothing();
    } else {
      var n := |env| - 1;
      var e := env[n];
      EntriesRead(env[..n]);
      KeyReads("\t\t", e.key);
      StringReads("\t\t", e.value);
      ReadsConcat(KeyLine("\t\t", XmlEscape(e.key)), Element("key", e.key),
                  StringLine("\t\t", XmlEscape(e.value)), Element("string", e.value));
      var nodes := Element("key", e.key) + Element("string", e.value);
      ReadsConcat(EnvLines(env[..n]), Entries(env[..n]), EntryLines(e), nodes);
    }
  }

  lemma ArrayTagsRead()
    ensures Reads("\t<array>\n", [Tag("array")]) && Reads("\t</array>\n", [Tag("/array")])
  {
    hide Reads;
    TagReads("\t", "array", "\n");
    TagReads("\t", "/array", "\n");
    assert "\t<array>\n" == "\t" + ("<" + "array" + ">") + "\n";
    assert "\t</array>\n" == "\t" + ("<" + "/array" + ">") + "\n";
  }

  lemma TrueTagReads()
    ensures Reads("\t<true/>\n", [Tag("true/")])
  {
    hide Reads;
    TagReads("\t", "true/", "\n");
    assert "\t<true/>\n" == "\t" + ("<" + "true/" + ">") + "\n";
  }

  lemma DictTagsRead()
    ensures Reads("\t<dict>\n", [Tag("dict")]) && Reads("\t</dict>\n", [Tag("/dict")])
  {
    hide Reads;
    TagReads("\t", "dict", "\n");
    TagReads("\t", "/dict", "\n");
    assert "\t<dict>\n" == "\t" + ("<" + "dict" + ">") + "\n";
    assert "\t</dict>\n" == "\t" + ("<" + "/dict" + ">") + "\n";
  }

  lemma HeadReads(def: Definition)
    ensures Reads(LaunchdHead(def), HeadNodes(def))
  {
    hide Reads, Header, HeaderNodes, KeyLine, StringLine, XmlEscape, ArgLines, Strings, Element;
    HeaderReads();
    ArrayTagsRead();
    TrueTagReads();
    NameReads("Label");
    NameReads("ProgramArguments");
    NameReads("RunAtLoad");
    NameReads("KeepAlive");
    StringReads("\t", def.name);
    ArgsRead(def.args);
    var a, x := Header() + KeyLine("\t", "Label"), HeaderNodes() + Element("key", "Label");
    ReadsConcat(Header(), HeaderNodes(), KeyLine("\t", "Label"), Element("key", "Label"));
    ReadsConcat(a, x, StringLine("\t", XmlEscape(def.name)), Element("string", def.name));
    a, x := a + StringLine("\t", XmlEscape(def.name)), x + Element("string", def.name);
    ReadsConcat(a, x, KeyLine("\t", "ProgramArguments"), Element("key", "ProgramArguments"));
    a, x := a + KeyLine("\t", "ProgramArguments"), x + Element("key", "ProgramArguments");
    ReadsConcat(a, x, "\t<array>\n", [Tag("array")]);
    a, x := a + "\t<array>\n", x + [Tag("array")];
    ReadsConcat(a, x, ArgLines(def.args), Strings(def.args));
    a, x := a + ArgLines(def.args), x + Strings(def.args);
    ReadsConcat(a, x, "\t</array>\n", [Tag("/array")]);
    a, x := a + "\t</array>\n", x + [Tag("/array")];
    ReadsConcat(a, x, KeyLine("\t", "RunAtLoad"), Element("key", "RunAtLoad"));
    a, x := a + KeyLine("\t", "RunAtLoad"), x + Element("key", "RunAtLoad");
    ReadsConcat(a, x, "\t<true/>\n", [Tag("true/")]);
    a, x := a + "\t<true/>\n", x + [Tag("true/")];
    ReadsConcat(a, x, KeyLine("\t", "KeepAlive"), Element("key", "KeepAlive"));
    a, x := a + KeyLine("\t", "KeepAlive"), x + Element("key", "KeepAlive");
    ReadsConcat(a, x, "\t<true/>\n", [Tag("true/")]);
  }

  lemma EnvReads(env: seq<Entry>)
    ensures Reads(LaunchdEnv(env), EnvNodes(env))
  {
    hide Reads, KeyLine, EnvLines, Entries, Element;
    ReadsNothing();
    if env != [] {
      DictTagsRead();
      NameReads("EnvironmentVariables");
      EntriesRead(env);
      var a, x := KeyLine("\t", "EnvironmentVariables"), Element("key", "EnvironmentVariables");
      ReadsConcat(a, x, "\t<dict>\n", [Tag("dict")]);
      ReadsConcat(a + "\t<dict>\n", x + [Tag("dict")], EnvLines(env), Entries(env));
      ReadsConcat(a + "\t<dict>\n" + EnvLines(env), x + [Tag("dict")] + Entries(env), "\t</dict>\n", [Tag("/dict")]);
    }
  }

  function NamedLines(name: string, value: Option<string>): string {
    if value.None? then "" else KeyLine("\t", name) + StringLine("\t", XmlEscape(value.value))
  }

  lemma NamedReads(name: string, value: Option<string>)
    requires '&' !in name && '<' !in name && '>' !in name
    ensures Reads(NamedLines(name, value), Named(name, value))
  {
    hide Reads, KeyLine, StringLine, XmlEscape, Element;
    ReadsNothing();
    if value.Some? {
      NameReads(name);
      StringReads("\t", value.value);
      var line := StringLine("\t", XmlEscape(value.value));
      ReadsConcat(KeyLine("\t", name), Element("key", name), line, Element("string", value.value));
    }
  }

  lemma EndReads()
    ensures Reads("</dict>\n</plist>\n", [Tag("/dict"), Tag("/plist")])
  {
    hide Reads;
    TagReads("", "/dict", "\n");
    TagReads("", "/plist", "\n");
    var a, b := "" + ("<" + "/dict" + ">") + "\n", "" + ("<" + "/plist" + ">") + "\n";
    ReadsConcat(a, [Tag("/dict")], b, [Tag("/plist")]);
    assert a == "</dict>\n" && b == "</plist>\n";
    assert a + b == "</dict>\n</plist>\n";
    assert [Tag("/dict")] + [Tag("/plist")] == [Tag("/dict"), Tag("/plist")];
  }

  lemma TailParts(def: Definition)
    ensures LaunchdTail(def) ==
      NamedLines("AssociatedBundleIdentifiers", def.bundle)
      + (NamedLines("StandardOutPath", def.log) + NamedLines("StandardErrorPath", def.log)) + "</dict>\n</plist>\n"
  {
    hide KeyLine, StringLine, XmlEscape;
    if def.log.Some? {
      var line := StringLine("\t", XmlEscape(def.log.value));
      assert KeyLine("\t", "StandardOutPath") + line + KeyLine("\t", "StandardErrorPath") + line
          == NamedLines("StandardOutPath", def.log) + NamedLines("StandardErrorPath", def.log);
    }
  }

  lemma TailReads(def: Definition)
    ensures Reads(LaunchdTail(def), TailNodes(def))
  {
    hide Reads, NamedLines, Named, LaunchdTail;
    TailParts(def);
    NamedReads("AssociatedBundleIdentifiers", def.bundle);
    NamedReads("StandardOutPath", def.log);
    NamedReads("StandardErrorPath", def.log);
    EndReads();
    var a, x := NamedLines("AssociatedBundleIdentifiers", def.bundle), Named("AssociatedBundleIdentifiers", def.bundle);
    var b := NamedLines("StandardOutPath", def.log) + NamedLines("StandardErrorPath", def.log);
    var y := Named("StandardOutPath", def.log) + Named("StandardErrorPath", def.log);
    ReadsConcat(NamedLines("StandardOutPath", def.log), Named("StandardOutPath", def.log),
                NamedLines("StandardErrorPath", def.log), Named("StandardErrorPath", def.log));
    ReadsConcat(a, x, b, y);
    ReadsConcat(a + b, x + y, "</dict>\n</plist>\n", [Tag("/dict"), Tag("/plist")]);
  }

  /**
   The whole property list: label, arguments in order, both flags, the environment, and what is
   optional, each unescaped.
   */
  lemma PlistSays(def: Definition)
    ensures ReadNodes(LaunchdPlist(def)) == HeadNodes(def) + EnvNodes(def.env) + TailNodes(def)
  {
    hide ReadNodes, LaunchdHead, LaunchdEnv, LaunchdTail, HeadNodes, EnvNodes, TailNodes;
    HeadReads(def);
    EnvReads(def.env);
    TailReads(def);
    var nodes := HeadNodes(def) + EnvNodes(def.env) + TailNodes(def);
    ReadsConcat(LaunchdHead(def), HeadNodes(def), LaunchdEnv(def.env), EnvNodes(def.env));
    var a, x := LaunchdHead(def) + LaunchdEnv(def.env), HeadNodes(def) + EnvNodes(def.env);
    ReadsConcat(a, x, LaunchdTail(def), TailNodes(def));
    assert LaunchdPlist(def) + "" == LaunchdPlist(def);
    NothingLeft();
    assert nodes + ReadNodes("") == nodes;
  }

  lemma NothingLeft()
    ensures ReadNodes("") == []
  {
  }
}
