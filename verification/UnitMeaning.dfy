/** What a rendered unit says: its lines, one by one, and the words of its command. */
module UnitMeaning {
  import opened Options
  import opened Text
  import opened ServiceText
  import opened Environment
  import opened ServiceFile
  import opened ReadBack
  import opened ReadBackUnit
  import PinnedEnv

  // ---- The words of a command ----

  /** A quoted word after its opening quote, and what follows its closing one. */
  function ReadQuoted(s: string): (r: Option<(string, string)>)
    ensures r.Some? ==> |r.value.1| < |s|
    decreases |s|
  {
    if s == [] then None
    else if s[0] == '"' then Some(([], s[1..]))
    else
      var (text, taken) := UnquoteOne(s);
      match ReadQuoted(s[taken..])
      case None => None
      case Some((word, rest)) => Some((text + word, rest))
  }

  function ReadWords(s: string): Option<seq<string>>
    decreases |s|
  {
    if s == [] || s[0] != '"' then None
    else match ReadQuoted(s[1..])
      case None => None
      case Some((word, rest)) =>
        if rest == [] then Some([word])
        else if rest[0] != ' ' then None
        else match ReadWords(rest[1..])
          case None => None
          case Some(words) => Some([word] + words)
  }

  function ReadCommand(s: string): Option<seq<string>> {
    if s == [] then Some([]) else ReadWords(s)
  }

  lemma ReadQuotedOne(c: char, more: string)
    ensures ReadQuoted(QuoteChar(c) + more) ==
      match ReadQuoted(more) case None => None case Some((word, rest)) => Some(([c] + word, rest))
  {
    var s := QuoteChar(c) + more;
    assert s[|QuoteChar(c)|..] == more;
    assert UnquoteOne(s) == ([c], |QuoteChar(c)|);
  }

  lemma {:induction false} ReadQuotedBody(s: string, rest: string)
    ensures ReadQuoted(QuoteBody(s) + ("\"" + rest)) == Some((s, rest))
  {
    hide QuoteBody, QuoteChar, UnquoteOne;
    if s == [] {
      QuoteBodyNext([], 'x');
      assert QuoteBody(s) + ("\"" + rest) == "\"" + rest;
      assert ("\"" + rest)[1..] == rest;
    } else {
      hide ReadQuoted;
      QuoteBodyNext(s[1..], s[0]);
      assert [s[0]] + s[1..] == s;
      var more := QuoteBody(s[1..]) + ("\"" + rest);
      assert QuoteBody(s) + ("\"" + rest) == QuoteChar(s[0]) + more;
      ReadQuotedOne(s[0], more);
      ReadQuotedBody(s[1..], rest);
    }
  }

  lemma {:induction false} ReadWordsOf(parts: seq<string>, words: seq<string>)
    requires words != [] && |parts| == |words| && forall i :: 0 <= i < |words| ==> parts[i] == Quote(words[i])
    ensures Join(parts, " ") != [] && ReadWords(Join(parts, " ")) == Some(words)
    decreases |words|
  {
    hide QuoteBody, ReadQuoted;
    var rest := if |words| == 1 then "" else " " + Join(parts[1..], " ");
    var s := Join(parts, " ");
    assert s == Quote(words[0]) + rest;
    assert s[1..] == QuoteBody(words[0]) + ("\"" + rest);
    ReadQuotedBody(words[0], rest);
    if |words| > 1 {
      ReadWordsOf(parts[1..], words[1..]);
      assert rest[1..] == Join(parts[1..], " ");
      assert [words[0]] + words[1..] == words;
    } else {
      assert [words[0]] == words;
    }
  }

  /** The command of a unit is exactly the arguments, in order, whatever they hold. */
  lemma CommandIsArguments(args: seq<string>)
    ensures ReadCommand(Join(Quoted(args), " ")) == Some(args)
  {
    hide Join, Quoted, Quote, ReadWords;
    if args == [] {
      NoCommand();
    } else {
      forall i | 0 <= i < |args| ensures Quoted(args)[i] == Quote(args[i]) {
        QuotedAt(args, i);
      }
      ReadWordsOf(Quoted(args), args);
    }
  }

  lemma NoCommand()
    ensures Join(Quoted([]), " ") == []
  {
  }

  // ---- The lines ----

  ghost predicate HasLines(piece: string, lines: seq<string>) {
    forall rest :: Lines(piece + rest) == lines + Lines(rest)
  }

  lemma HasLinesConcat(a: string, x: seq<string>, b: string, y: seq<string>)
    requires HasLines(a, x) && HasLines(b, y)
    ensures HasLines(a + b, x + y)
  {
    hide Lines;
    forall rest ensures Lines(a + b + rest) == x + y + Lines(rest) {
      assert a + b + rest == a + (b + rest);
      assert x + (y + Lines(rest)) == x + y + Lines(rest);
    }
  }

  lemma OneLine(line: string)
    requires '\n' !in line && '\r' !in line
    ensures HasLines(line + "\n", [line])
  {
    hide Lines;
    forall rest ensures Lines(line + "\n" + rest) == [line] + Lines(rest) {
      FirstLine(line, rest);
    }
  }

  lemma NoLine()
    ensures HasLines("", [])
  {
    forall rest ensures Lines("" + rest) == [] + Lines(rest) {
      assert "" + rest == rest;
    }
  }

  function Assignments(env: seq<Entry>): seq<string> {
    if env == [] then []
    else Assignments(env[..|env| - 1]) + ["Environment=" + Quote(Assignment(env[|env| - 1]))]
  }

  lemma {:induction false} AssignmentLines(env: seq<Entry>)
    ensures HasLines(EnvironmentLines(env), Assignments(env))
  {
    hide HasLines, Quote, Assignment;
    if env == [] {
      NoLine();
    } else {
      var n := |env| - 1;
      AssignmentLines(env[..n]);
      var line := "Environment=" + Quote(Assignment(env[n]));
      QuoteIsOneLine(Assignment(env[n]));
      OneLine(line);
      HasLinesConcat(EnvironmentLines(env[..n]), Assignments(env[..n]), line + "\n", [line]);
    }
  }

  lemma ExecLineIsOne(args: seq<string>)
    ensures HasLines(ExecLine(args), ["ExecStart=" + Join(Quoted(args), " ")])
  {
    hide HasLines, Quote, Quoted, Join;
    forall i | 0 <= i < |args| ensures '\n' !in Quoted(args)[i] && '\r' !in Quoted(args)[i] {
      QuotedAt(args, i);
      QuoteIsOneLine(args[i]);
    }
    JoinLacks(Quoted(args), " ", '\n');
    JoinLacks(Quoted(args), " ", '\r');
    OneLine("ExecStart=" + Join(Quoted(args), " "));
  }

  function FrontLines(): seq<string> {
    ["[Unit]", "Description=hyoui HTTP gateway", "", "[Service]", "Type=simple"]
  }

  lemma FrontIs()
    ensures HasLines(UnitHead(), FrontLines())
  {
    hide HasLines, UnitSection, ServiceSection;
    UnitSectionIs();
    ServiceSectionIs();
    var unit, service := ["[Unit]", "Description=hyoui HTTP gateway", ""], ["[Service]", "Type=simple"];
    HasLinesConcat(UnitSection(), unit, ServiceSection(), service);
    assert unit + service == FrontLines();
  }

  lemma UnitSectionIs()
    ensures HasLines(UnitSection(), ["[Unit]", "Description=hyoui HTTP gateway", ""])
  {
    hide HasLines;
    var a, b := "[Unit]", "Description=hyoui HTTP gateway";
    OneLine(a);
    OneLine(b);
    OneLine("");
    HasLinesConcat(a + "\n", [a], b + "\n", [b]);
    HasLinesConcat(a + "\n" + (b + "\n"), [a] + [b], "" + "\n", [""]);
    assert a + "\n" == "[Unit]\n" && "" + "\n" == "\n";
    assert b + "\n" == "Description=hyoui HTTP gateway\n";
    assert [a] + [b] + [""] == [a, b, ""];
  }

  lemma ServiceSectionIs()
    ensures HasLines(ServiceSection(), ["[Service]", "Type=simple"])
  {
    hide HasLines;
    var a, b := "[Service]", "Type=simple";
    OneLine(a);
    OneLine(b);
    HasLinesConcat(a + "\n", [a], b + "\n", [b]);
    assert a + "\n" == "[Service]\n" && b + "\n" == "Type=simple\n";
    assert [a] + [b] == [a, b];
  }

  lemma BackIs()
    ensures HasLines(UnitTail(), ["", "[Install]", "WantedBy=default.target"])
  {
    hide HasLines;
    var a, b := "[Install]", "WantedBy=default.target";
    OneLine("");
    OneLine(a);
    OneLine(b);
    HasLinesConcat("" + "\n", [""], a + "\n", [a]);
    HasLinesConcat("" + "\n" + (a + "\n"), [""] + [a], b + "\n", [b]);
    assert "" + "\n" == "\n" && a + "\n" == "[Install]\n";
    assert b + "\n" == "WantedBy=default.target\n";
    assert [""] + [a] + [b] == ["", a, b];
  }

  lemma RestartIs()
    ensures HasLines("Restart=always\n", ["Restart=always"])
  {
    hide HasLines;
    OneLine("Restart=always");
    assert "Restart=always" + "\n" == "Restart=always\n";
  }

  /**
   The whole unit, line by line: the command, that it is always restarted, the assignments in order,
   and its target.
   */
  lemma UnitSays(def: Definition)
    ensures Lines(SystemdUnit(def)) ==
      FrontLines() + ["ExecStart=" + Join(Quoted(def.args), " ")] + ["Restart=always"] + Assignments(def.env)
      + ["", "[Install]", "WantedBy=default.target"]
    ensures ReadCommand(Join(Quoted(def.args), " ")) == Some(def.args)
  {
    hide Lines, UnitHead, ExecLine, UnitTail, EnvironmentLines, FrontLines, Assignments, Join, Quoted, ReadCommand;
    FrontIs();
    ExecLineIsOne(def.args);
    RestartIs();
    AssignmentLines(def.env);
    BackIs();
    CommandIsArguments(def.args);
    var exec := ["ExecStart=" + Join(Quoted(def.args), " ")];
    var a, x := UnitHead() + ExecLine(def.args), FrontLines() + exec;
    HasLinesConcat(UnitHead(), FrontLines(), ExecLine(def.args), exec);
    HasLinesConcat(a, x, "Restart=always\n", ["Restart=always"]);
    a, x := a + "Restart=always\n", x + ["Restart=always"];
    HasLinesConcat(a, x, EnvironmentLines(def.env), Assignments(def.env));
    a, x := a + EnvironmentLines(def.env), x + Assignments(def.env);
    HasLinesConcat(a, x, UnitTail(), ["", "[Install]", "WantedBy=default.target"]);
    assert SystemdUnit(def) + "" == SystemdUnit(def);
    NoLinesLeft();
    var all := x + ["", "[Install]", "WantedBy=default.target"];
    assert all + Lines("") == all;
  }

  lemma NoLinesLeft()
    ensures Lines("") == []
  {
  }

  /** What is registered runs the supervisor of the given program. */
  lemma SupervisorIsRun(name: string, program: string, log: Option<string>, env: Env)
    ensures var def := PinnedEnv.Labelled(name, program, log, env);
      ReadCommand(Join(Quoted(def.args), " ")) == Some([program, "web", "daemon", "supervise"]) && def.name == name
      && def.env == env && def.log == log
  {
    CommandIsArguments([program, "web", "daemon", "supervise"]);
  }
}
