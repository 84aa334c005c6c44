/** A service definition, its two renderings and the environment read back from either. */
module ServiceFile {
  import opened Options
  import opened Text
  import opened ServiceText
  import opened Environment

  datatype Definition = Definition(
    name: string, args: seq<string>, env: Env, log: Option<string>, bundle: Option<string>)

  // ---- launchd ----

  function DeclarationTag(): string { "?xml version=\"1.0\" encoding=\"UTF-8\"?" }

  function XmlDeclaration(): string { "<" + DeclarationTag() + ">\n" }

  function DoctypeStart(): string { "<!DOCTYPE plist PUBLIC " }

  function DoctypeName(): string { "\"-//Apple//DTD PLIST 1.0//EN\" " }

  function DoctypeHost(): string { "\"http://www.apple.com/DTDs/" }

  function DoctypeEnd(): string { "PropertyList-1.0.dtd\">\n" }

  function PlistStart(): string { "<plist version=\"1.0\">\n<dict>\n" }

  function Header(): string {
    XmlDeclaration() + (DoctypeStart() + DoctypeName() + DoctypeHost() + DoctypeEnd()) + PlistStart()
  }

  function KeyLine(indent: string, name: string): string {
    indent + "<key>" + name + "</key>\n"
  }

  function StringLine(indent: string, text: string): string {
    indent + "<string>" + text + "</string>\n"
  }

  function ArgLines(args: seq<string>): string {
    if args == [] then "" else ArgLines(args[..|args| - 1]) + StringLine("\t\t", XmlEscape(args[|args| - 1]))
  }

  function EntryLines(e: Entry): string {
    KeyLine("\t\t", XmlEscape(e.key)) + StringLine("\t\t", XmlEscape(e.value))
  }

  function EnvLines(env: seq<Entry>): string {
    if env == [] then "" else EnvLines(env[..|env| - 1]) + EntryLines(env[|env| - 1])
  }

  /** Everything before the environment. */
  function LaunchdHead(def: Definition): string {
    Header() + KeyLine("\t", "Label") + StringLine("\t", XmlEscape(def.name))
    + KeyLine("\t", "ProgramArguments") + "\t<array>\n" + ArgLines(def.args) + "\t</array>\n"
    + KeyLine("\t", "RunAtLoad") + "\t<true/>\n" + KeyLine("\t", "KeepAlive") + "\t<true/>\n"
  }

  function LaunchdEnv(env: seq<Entry>): string {
    if env == [] then "" else KeyLine("\t", "EnvironmentVariables") + "\t<dict>\n" + EnvLines(env) + "\t</dict>\n"
  }

  /** Everything after it. */
  function LaunchdTail(def: Definition): string {
    (if def.bundle.None? then ""
     else KeyLine("\t", "AssociatedBundleIdentifiers") + StringLine("\t", XmlEscape(def.bundle.value)))
    + (if def.log.Some? then KeyLine("\t", "StandardOutPath") + StringLine("\t", XmlEscape(def.log.value))
                             + KeyLine("\t", "StandardErrorPath") + StringLine("\t", XmlEscape(def.log.value)) else "")
    + "</dict>\n</plist>\n"
  }

  function LaunchdPlist(def: Definition): string {
    LaunchdHead(def) + LaunchdEnv(def.env) + LaunchdTail(def)
  }

  method RenderLaunchdPlist(def: Definition) returns (out: string)
    ensures out == LaunchdPlist(def)
  {
    hide Header, KeyLine, StringLine, XmlEscape, EntryLines;
    out := Header();
    out := out + KeyLine("\t", "Label");
    out := out + StringLine("\t", XmlEscape(def.name));
    out := out + KeyLine("\t", "ProgramArguments") + "\t<array>\n";
    ghost var start := out;
    for i := 0 to |def.args|
      invariant out == start + ArgLines(def.args[..i])
    {
      assert def.args[..i + 1][..i] == def.args[..i];
      out := out + StringLine("\t\t", XmlEscape(def.args[i]));
    }
    assert def.args[..|def.args|] == def.args;
    out := out + "\t</array>\n";
    out := out + KeyLine("\t", "RunAtLoad") + "\t<true/>\n";
    out := out + KeyLine("\t", "KeepAlive") + "\t<true/>\n";
    assert out == LaunchdHead(def);
    var env := RenderLaunchdEnv(def.env);
    out := out + env;
    var tail := "";
    if def.bundle.Some? {
      tail := tail + KeyLine("\t", "AssociatedBundleIdentifiers");
      tail := tail + StringLine("\t", XmlEscape(def.bundle.value));
    }
    if def.log.Some? {
      var escaped := XmlEscape(def.log.value);
      tail := tail + (KeyLine("\t", "StandardOutPath") + StringLine("\t", escaped)
                      + KeyLine("\t", "StandardErrorPath") + StringLine("\t", escaped));
    }
    out := out + (tail + "</dict>\n</plist>\n");
  }

  method RenderLaunchdEnv(env: Env) returns (out: string)
    ensures out == LaunchdEnv(env)
  {
    hide KeyLine, StringLine, XmlEscape;
    out := "";
    if env != [] {
      out := KeyLine("\t", "EnvironmentVariables") + "\t<dict>\n";
      ghost var start := out;
      for i := 0 to |env|
        invariant out == start + EnvLines(env[..i])
      {
        assert env[..i + 1][..i] == env[..i];
        out := out + (KeyLine("\t\t", XmlEscape(env[i].key)) + StringLine("\t\t", XmlEscape(env[i].value)));
      }
      assert env[..|env|] == env;
      out := out + "\t</dict>\n";
    }
  }

  // ---- systemd ----

  function Quoted(args: seq<string>): (r: seq<string>)
    ensures |r| == |args|
  {
    if args == [] then [] else Quoted(args[..|args| - 1]) + [Quote(args[|args| - 1])]
  }

  function Assignment(e: Entry): string {
    e.key + "=" + e.value
  }

  function EnvironmentLine(e: Entry): string {
    "Environment=" + Quote(Assignment(e)) + "\n"
  }

  function EnvironmentLines(env: seq<Entry>): string {
    if env == [] then "" else EnvironmentLines(env[..|env| - 1]) + EnvironmentLine(env[|env| - 1])
  }

  function UnitSection(): string {
    "[Unit]\n" + "Description=hyoui HTTP gateway\n" + "\n"
  }

  function ServiceSection(): string {
    "[Service]\n" + "Type=simple\n"
  }

  function UnitHead(): string {
    UnitSection() + ServiceSection()
  }

  function UnitTail(): string {
    "\n" + "[Install]\n" + "WantedBy=default.target\n"
  }

  function ExecLine(args: seq<string>): string {
    "ExecStart=" + Join(Quoted(args), " ") + "\n"
  }

  function SystemdUnit(def: Definition): string {
    UnitHead() + ExecLine(def.args) + "Restart=always\n" + EnvironmentLines(def.env) + UnitTail()
  }

  method RenderSystemdUnit(def: Definition) returns (out: string)
    ensures out == SystemdUnit(def)
  {
    hide UnitHead, UnitTail, Quote, Join, Assignment;
    var quoted := [];
    for i := 0 to |def.args|
      invariant quoted == Quoted(def.args[..i])
    {
      assert def.args[..i + 1][..i] == def.args[..i];
      var q := SystemdQuote(def.args[i]);
      quoted := quoted + [q];
    }
    assert def.args[..|def.args|] == def.args;
    out := UnitHead();
    out := out + ("ExecStart=" + Join(quoted, " ") + "\n");
    out := out + "Restart=always\n";
    ghost var start := out;
    for i := 0 to |def.env|
      invariant out == start + EnvironmentLines(def.env[..i])
    {
      assert def.env[..i + 1][..i] == def.env[..i];
      var q := SystemdQuote(Assignment(def.env[i]));
      out := out + ("Environment=" + q + "\n");
    }
    assert def.env[..|def.env|] == def.env;
    out := out + UnitTail();
  }

  // ---- Reading the environment back ----

  function Marker(): string {
    "<key>EnvironmentVariables</key>"
  }

  /** The next key and string of a dictionary, and what follows them. */
  function TakeEntry(rest: string): (r: Option<(Entry, string)>)
    ensures r.Some? ==> |r.value.1| < |rest|
  {
    match SplitOnce(rest, "<key>")
    case None => None
    case Some((_, afterKey)) =>
      match SplitOnce(afterKey, "</key>")
      case None => None
      case Some((key, after)) =>
        match SplitOnce(after, "<string>")
        case None => None
        case Some((_, afterOpen)) =>
          match SplitOnce(afterOpen, "</string>")
          case None => None
          case Some((value, tail)) => Some((Entry(XmlUnescape(Trim(key)), XmlUnescape(value)), tail))
  }

  function ReadDict(rest: string, env: Env): Env
    decreases |rest|
  {
    match TakeEntry(rest)
    case None => env
    case Some((e, tail)) => ReadDict(tail, Insert(env, e.key, e.value))
  }

  function LaunchdPart(afterMarker: string): Option<string> {
    match SplitOnce(afterMarker, "<dict>")
    case None => None
    case Some((_, inside)) =>
      match SplitOnce(inside, "</dict>")
      case None => None
      case Some((dict, _)) => Some(dict)
  }

  /** `str::lines`: without the line ends, a carriage return before one included. */
  function Lines(s: string): seq<string>
    decreases |s|
  {
    if s == [] then []
    else match SplitOnce(s, "\n")
      case None => [s]
      case Some((line, rest)) => [WithoutReturn(line)] + Lines(rest)
  }

  function WithoutReturn(line: string): string {
    if line != [] && line[|line| - 1] == '\r' then line[..|line| - 1] else line
  }

  function Assigned(text: string): Option<Entry> {
    match SplitOnce(text, "=")
    case None => None
    case Some((key, value)) => Some(Entry(key, value))
  }

  function LineEntry(line: string): Option<Entry> {
    var trimmed := Trim(line);
    if !("Environment=" <= trimmed) then None
    else
      var quoted := trimmed[|"Environment="|..];
      if |quoted| < 2 || quoted[0] != '"' || quoted[|quoted| - 1] != '"' then None
      else Assigned(Unquote(quoted[1..|quoted| - 1]))
  }

  function ReadLines(lines: seq<string>, env: Env): Env
    decreases |lines|
  {
    if lines == [] then env
    else match LineEntry(lines[0])
      case None => ReadLines(lines[1..], env)
      case Some(e) => ReadLines(lines[1..], Insert(env, e.key, e.value))
  }

  function ReadAfterMarker(rest: string): Env {
    match LaunchdPart(rest)
    case None => []
    case Some(dict) => ReadDict(dict, [])
  }

  function EnvIn(text: string): Env {
    match SplitOnce(text, Marker())
    case Some((_, rest)) => ReadAfterMarker(rest)
    case None => ReadLines(Lines(text), [])
  }

  method EnvInDefinition(text: string) returns (env: Env)
    ensures env == EnvIn(text)
  {
    hide SplitOnce, TakeEntry, LineEntry, Lines, LaunchdPart, Marker;
    env := [];
    match SplitOnce(text, Marker()) {
      case Some((_, after)) =>
        match LaunchdPart(after) {
          case None =>
          case Some(dict) =>
            var rest, more := dict, true;
            while more
              invariant (if more then ReadDict(rest, env) else env) == ReadDict(dict, [])
              decreases more, |rest|
            {
              match TakeEntry(rest) {
                case None => more := false;
                case Some((e, tail)) =>
                  env := Insert(env, e.key, e.value);
                  rest := tail;
              }
            }
        }
      case None =>
        var lines := Lines(text);
        for i := 0 to |lines|
          invariant ReadLines(lines[i..], env) == ReadLines(lines, [])
        {
          assert lines[i..][0] == lines[i] && lines[i..][1..] == lines[i + 1..];
          match LineEntry(lines[i]) {
            case None =>
            case Some(e) => env := Insert(env, e.key, e.value);
          }
        }
    }
  }
}
