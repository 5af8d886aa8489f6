/** What the staged RCF commands do to a device, from any prior state: an interpreter for
    the code units under `router general` / `control-functions`, written from the CLI's
    point of view. */
module RcfDevice {
  import opened Seqs
  import opened Text
  import opened Rendering
  import opened Eapi
  import opened Shell
  import Rcf
  import RcfRead

  /** A unit holds code, refers to a file, or holds what a URL served when it was pulled. */
  datatype Content = Inline(code: string) | File(path: string) | Pulled(url: string)

  type Units = map<string, Content>

  datatype Mode = Global | InGeneral | InFunctions

  datatype Command =
    | EnterGeneral
    | EnterFunctions
    | SetCode(name: string, code: string)
    | SetFile(name: string, path: string)
    | Pull(name: string, url: string)
    | NoFile(name: string)
    | NoCode(name: string)
    | Exit
    | Unknown

  // ---- reading a line -----------------------------------------------------------------------

  datatype Target = Target(name: string, rest: seq<string>)

  /** The unit that the words after `code` or `pull` name, without one the unnamed unit. */
  function TargetOf(words: seq<string>): Target {
    if |words| >= 2 && words[0] == "unit" then Target(words[1], words[2..]) else Target("default", words)
  }

  /** The lines of streamed input up to the terminator. */
  function Received(lines: seq<string>): string {
    if lines == [] || lines[0] == "EOF" then "" else lines[0] + "\n" + Received(lines[1..])
  }

  function CodeCommand(t: Target, input: string): Command {
    if t.rest == [] && input != "" then SetCode(t.name, Received(RcfRead.CodeLines(input)))
    else if |t.rest| == 3 && t.rest[0] == "source" && t.rest[1] == "pulled-from" then SetFile(t.name, t.rest[2])
    else Unknown
  }

  function PullCommand(t: Target): Command {
    if |t.rest| == 2 && t.rest[0] == "replace" then Pull(t.name, t.rest[1]) else Unknown
  }

  function NoCommand(t: Target): Command {
    if t.rest == [] then NoCode(t.name)
    else if |t.rest| == 2 && t.rest[0] == "source" && t.rest[1] == "pulled-from" then NoFile(t.name)
    else Unknown
  }

  function CommandOfWords(words: seq<string>, input: string): Command {
    if words == [] then Unknown
    else
      match words[0]
      case "exit" => if |words| == 1 then Exit else Unknown
      case "router" => if |words| == 2 && words[1] == "general" then EnterGeneral else Unknown
      case "control-functions" => if |words| == 1 then EnterFunctions else Unknown
      case "code" => CodeCommand(TargetOf(words[1..]), input)
      case "pull" => PullCommand(TargetOf(words[1..]))
      case "no" => if |words| >= 2 && words[1] == "code" then NoCommand(TargetOf(words[2..])) else Unknown
      case _ => Unknown
  }

  function CommandOf(line: string, input: string): Command {
    CommandOfWords(Fields(line), input)
  }

  // ---- executing it ----------------------------------------------------------------------------

  /** The two negations: one removes a file reference, the other anything else. */
  function Execute(units: Units, mode: Mode, cmd: Command): Units {
    if mode != InFunctions then units
    else
      match cmd
      case SetCode(name, code) => units[name := Inline(code)]
      case SetFile(name, path) => units[name := File(path)]
      case Pull(name, url) => units[name := Pulled(url)]
      case NoFile(name) => if name in units && units[name].File? then units - {name} else units
      case NoCode(name) => if name in units && !units[name].File? then units - {name} else units
      case _ => units
  }

  function NextMode(mode: Mode, cmd: Command): Mode {
    match cmd
    case EnterGeneral => InGeneral
    case EnterFunctions => if mode == Global then Global else InFunctions
    case Exit => if mode == InFunctions then InGeneral else Global
    case _ => mode
  }

  const FUNCTIONS: Shell<Units, Mode> := Shell(
    Global,
    (units: Units, mode: Mode, line: string) => Execute(units, mode, CommandOf(line, "")),
    (mode: Mode, line: string) => NextMode(mode, CommandOf(line, "")),
    (mode: Mode) => mode != Global)

  /** Commands that come with input. */
  function RunRich(units: Units, mode: Mode, cmds: seq<Rcf.Command>): (Units, Mode)
    decreases |cmds|
  {
    if cmds == [] then (units, mode)
    else
      var cmd := CommandOf(cmds[0].cmd, cmds[0].input);
      RunRich(Execute(units, mode, cmd), NextMode(mode, cmd), cmds[1..])
  }

  // ---- what is declared -------------------------------------------------------------------------

  /** The delivery that a unit asks for, of which a valid one has exactly one. */
  function ContentOf(args: Rcf.Args): Content {
    if Given(args.code) then Inline(args.code.value)
    else if Given(args.sourceFile) then File(args.sourceFile.value)
    else Pulled(Deref(args.sourceUrl))
  }

  function HasUnit(units: Units, name: string, content: Option<Content>): Units {
    match content
    case None => units - {name}
    case Some(c) => units[name := c]
  }

  predicate IsUnit(name: string) {
    name == "default" || Rcf.IsName(name)
  }

  // ---- the device's reading of each line --------------------------------------------------------

  /** The words that name a unit after `code` or `pull`. */
  function UnitWords(name: string): seq<string> {
    if name == "default" then [] else ["unit", name]
  }

  lemma TargetRead(name: string, rest: seq<string>)
    requires rest != [] ==> rest[0] != "unit"
    ensures TargetOf(UnitWords(name) + rest) == Target(name, rest)
  {
    if name == "default" {
      AppendEmpty(rest);
    } else {
      assert (["unit", name] + rest)[2..] == rest;
    }
  }

  lemma TargetWords(name: string)
    requires IsUnit(name)
    ensures Fields(Rcf.RcfTargetClause(name)) == ["code"] + UnitWords(name)
  {
    if name == "default" {
      FieldsToken("code");
    } else {
      Rcf.NameNotBlank(name);
      ClauseLines(name);
      Words3("code", "unit", name);
    }
  }

  lemma PullTarget(name: string)
    requires IsUnit(name)
    ensures Fields(Rcf.RcfPullClause(name)) == ["pull"] + UnitWords(name)
  {
    if name == "default" {
      FieldsToken("pull");
    } else {
      Rcf.NameNotBlank(name);
      ClauseLines(name);
      Words3("pull", "unit", name);
    }
  }

  lemma ClauseLines(name: string)
    requires name != "default"
    ensures Rcf.RcfTargetClause(name) == "code" + " " + "unit" + " " + name
    ensures Rcf.RcfPullClause(name) == "pull" + " " + "unit" + " " + name
  {
  }

  lemma SourceLine()
    ensures "source pulled-from" == "source" + " " + "pulled-from"
  {
  }

  lemma SourceTail(line: string)
    requires line == "source pulled-from"
    ensures Fields(line) == ["source", "pulled-from"]
  {
    SourceLine();
    Words2("source", "pulled-from");
  }

  lemma PathLine(path: string)
    ensures "source pulled-from " + path == "source" + " " + "pulled-from" + " " + path
  {
  }

  lemma FileTail(path: string)
    requires IsToken(path)
    ensures Fields("source pulled-from " + path) == ["source", "pulled-from", path]
  {
    PathLine(path);
    Words3("source", "pulled-from", path);
  }

  lemma FileLine(target: string, path: string)
    ensures target + " source pulled-from " + path == target + " " + ("source pulled-from " + path)
  {
  }

  lemma NoFileLine(target: string)
    ensures "no " + target + " source pulled-from" == "no" + " " + (target + " " + "source pulled-from")
  {
  }

  lemma NoLine(target: string)
    ensures "no " + target == "no" + " " + target
  {
  }

  lemma CodeWords(words: seq<string>, rest: seq<string>, input: string)
    requires words == ["code"] + rest
    ensures CommandOfWords(words, input) == CodeCommand(TargetOf(rest), input)
    ensures CommandOfWords(["no"] + words, input) == NoCommand(TargetOf(rest))
  {
    assert words[1..] == rest && (["no"] + words)[2..] == rest;
    assert (["no"] + words)[1] == "code";
  }

  lemma FileRead(name: string, path: string)
    requires IsUnit(name) && IsToken(path)
    ensures CommandOf(Rcf.RcfTargetClause(name) + " source pulled-from " + path, "") == SetFile(name, path)
  {
    var target, tail := Rcf.RcfTargetClause(name), ["source", "pulled-from", path];
    TargetWords(name);
    FileTail(path);
    FileLine(target, path);
    FieldsAppend(target, "source pulled-from " + path);
    Associate(["code"], UnitWords(name), tail);
    CodeWords(["code"] + (UnitWords(name) + tail), UnitWords(name) + tail, "");
    TargetRead(name, tail);
  }

  lemma NoFileWords(name: string, no: string, rest: string)
    requires IsUnit(name) && IsToken(no)
    ensures Fields(no + " " + (Rcf.RcfTargetClause(name) + " " + rest))
         == [no] + (["code"] + (UnitWords(name) + Fields(rest)))
  {
    TargetWords(name);
    AfterNo(no, Rcf.RcfTargetClause(name), rest);
    Associate(["code"], UnitWords(name), Fields(rest));
  }

  lemma AfterNo(no: string, a: string, b: string)
    requires IsToken(no)
    ensures Fields(no + " " + (a + " " + b)) == [no] + (Fields(a) + Fields(b))
  {
    FieldsAppend(a, b);
    FieldsWord(no, a + " " + b);
  }

  lemma NoFileFrom(name: string, line: string, tail: seq<string>)
    requires tail == ["source", "pulled-from"] && Fields(line) == ["no"] + (["code"] + (UnitWords(name) + tail))
    ensures CommandOf(line, "") == NoFile(name)
  {
    CodeWords(["code"] + (UnitWords(name) + tail), UnitWords(name) + tail, "");
    TargetRead(name, tail);
  }

  lemma NoFileFields(name: string, line: string, rest: string)
    requires IsUnit(name) && rest == "source pulled-from"
    requires line == "no" + " " + (Rcf.RcfTargetClause(name) + " " + rest)
    ensures Fields(line) == ["no"] + (["code"] + (UnitWords(name) + Fields(rest)))
  {
    NoFileWords(name, "no", rest);
  }

  lemma NoFileRead(name: string, line: string)
    requires IsUnit(name) && line == "no " + Rcf.RcfTargetClause(name) + " source pulled-from"
    ensures CommandOf(line, "") == NoFile(name)
  {
    var rest := "source pulled-from";
    NoFileLine(Rcf.RcfTargetClause(name));
    SourceTail(rest);
    NoFileFields(name, line, rest);
    NoFileFrom(name, line, Fields(rest));
  }

  lemma NoCodeRead(name: string)
    requires IsUnit(name)
    ensures CommandOf("no " + Rcf.RcfTargetClause(name), "") == NoCode(name)
  {
    TargetWords(name);
    NoLine(Rcf.RcfTargetClause(name));
    FieldsWord("no", Rcf.RcfTargetClause(name));
    CodeWords(["code"] + UnitWords(name), UnitWords(name), "");
    AppendEmpty(UnitWords(name));
    TargetRead(name, []);
  }

  lemma CodeRead(name: string, input: string)
    requires IsUnit(name) && input != ""
    ensures CommandOf(Rcf.RcfTargetClause(name), input) == SetCode(name, Received(RcfRead.CodeLines(input)))
  {
    TargetWords(name);
    CodeWords(["code"] + UnitWords(name), UnitWords(name), input);
    AppendEmpty(UnitWords(name));
    TargetRead(name, []);
  }

  lemma PullLine(clause: string, url: string)
    ensures clause + " replace " + url == clause + " " + ("replace" + " " + url)
  {
  }

  lemma PullFields(name: string, url: string)
    requires IsUnit(name) && IsToken(url)
    ensures Fields(Rcf.RcfPullClause(name) + " replace " + url) == ["pull"] + (UnitWords(name) + ["replace", url])
  {
    var tail := "replace" + " " + url;
    PullTarget(name);
    PullLine(Rcf.RcfPullClause(name), url);
    Words2("replace", url);
    FieldsAppend(Rcf.RcfPullClause(name), tail);
    Associate(["pull"], UnitWords(name), ["replace", url]);
  }

  lemma PullRead(name: string, url: string)
    requires IsUnit(name) && IsToken(url)
    ensures CommandOf(Rcf.RcfPullClause(name) + " replace " + url, "") == Pull(name, url)
  {
    var tail := ["replace", url];
    PullFields(name, url);
    PullWords(["pull"] + (UnitWords(name) + tail), UnitWords(name) + tail);
    TargetRead(name, tail);
  }

  lemma PullWords(words: seq<string>, rest: seq<string>)
    requires words == ["pull"] + rest
    ensures CommandOfWords(words, "") == PullCommand(TargetOf(rest))
  {
    assert words[1..] == rest;
  }

  lemma GeneralLine()
    ensures "router general" == "router" + " " + "general"
  {
  }

  // Literal lines are handed over in variables: the solver would work out the words of a
  // literal by itself, at a high price.

  lemma GeneralRead(line: string)
    requires line == "router general"
    ensures CommandOf(line, "") == EnterGeneral
  {
    GeneralLine();
    Words2("router", "general");
  }

  lemma FunctionsRead(line: string)
    requires line == "control-functions"
    ensures CommandOf(line, "") == EnterFunctions
  {
    FieldsToken(line);
  }

  lemma ExitRead(line: string)
    requires line == "exit"
    ensures CommandOf(line, "") == Exit
  {
    FieldsToken(line);
  }
  // ---- the blocks -----------------------------------------------------------------------------

  lemma KnownTyped(mode: Mode, line: string)
    requires !CommandOf(line, "").Unknown? && (CommandOf(line, "").Exit? ==> mode != Global)
    ensures IsTyped(FUNCTIONS, mode, line)
  {
  }

  lemma LineRuns(units: Units, mode: Mode, line: string)
    requires !CommandOf(line, "").Unknown? && (CommandOf(line, "").Exit? ==> mode != Global)
    ensures Takes(FUNCTIONS, units, mode, [line], Execute(units, mode, CommandOf(line, "")),
              NextMode(mode, CommandOf(line, "")))
  {
    KnownTyped(mode, line);
    TakesOne(FUNCTIONS, units, mode, line);
  }

  lemma TwoRun(units: Units, mode: Mode, a: string, mid: Units, midMode: Mode, b: string, after: Units, next: Mode)
    requires Takes(FUNCTIONS, units, mode, [a], mid, midMode) && Takes(FUNCTIONS, mid, midMode, [b], after, next)
    ensures Takes(FUNCTIONS, units, mode, [a, b], after, next)
  {
    TakesThen(FUNCTIONS, units, mode, [a], mid, midMode, [b], after, next);
    assert [a] + [b] == [a, b];
  }

  lemma EnterRuns(units: Units, general: string, functions: string)
    requires general == "router general" && functions == "control-functions"
    ensures Takes(FUNCTIONS, units, Global, [general, functions], units, InFunctions)
  {
    GeneralRead(general);
    FunctionsRead(functions);
    LineRuns(units, Global, general);
    LineRuns(units, InGeneral, functions);
    TwoRun(units, Global, general, units, InGeneral, functions, units, InFunctions);
  }

  lemma LeaveRuns(units: Units, exit: string)
    requires exit == "exit"
    ensures Takes(FUNCTIONS, units, InFunctions, [exit, exit], units, Global)
  {
    ExitRead(exit);
    LineRuns(units, InFunctions, exit);
    LineRuns(units, InGeneral, exit);
    TwoRun(units, InFunctions, exit, units, InGeneral, exit, units, Global);
  }

  /** A plain block around its body. */
  lemma BlockRuns(units: Units, body: seq<string>, after: Units)
    requires Takes(FUNCTIONS, units, InFunctions, body, after, InFunctions)
    ensures Takes(FUNCTIONS, units, Global, ["router general", "control-functions"] + body + ["exit", "exit"], after,
              Global)
  {
    var enter, leave := ["router general", "control-functions"], ["exit", "exit"];
    EnterRuns(units, enter[0], enter[1]);
    LeaveRuns(after, leave[0]);
    TakesThen(FUNCTIONS, units, Global, enter, units, InFunctions, body, after, InFunctions);
    TakesThen(FUNCTIONS, units, Global, enter + body, after, InFunctions, leave, after, Global);
  }

  /** Whatever the unit was, one of the two negations takes it away. */
  lemma RemovalRuns(units: Units, name: string)
    requires IsUnit(name)
    ensures var target := Rcf.RcfTargetClause(name);
            Takes(FUNCTIONS, units, InFunctions, ["no " + target + " source pulled-from", "no " + target],
              units - {name}, InFunctions)
  {
    var file, code := "no " + Rcf.RcfTargetClause(name) + " source pulled-from", "no " + Rcf.RcfTargetClause(name);
    var mid := Execute(units, InFunctions, NoFile(name));
    NoFileRead(name, file);
    NoCodeRead(name);
    LineRuns(units, InFunctions, file);
    LineRuns(mid, InFunctions, code);
    BothRemoved(units, name);
    TwoRun(units, InFunctions, file, mid, InFunctions, code, units - {name}, InFunctions);
  }

  lemma BothRemoved(units: Units, name: string)
    ensures Execute(Execute(units, InFunctions, NoFile(name)), InFunctions, NoCode(name)) == units - {name}
  {
    if name !in units {
      assert units - {name} == units;
    } else if units[name].File? {
      assert name !in units - {name};
    }
  }

  lemma DeliveryRuns(units: Units, args: Rcf.Args, isUrl: string -> bool)
    requires Rcf.ValidArgs(args, isUrl) && !Given(args.code) && WordsOnly(args)
    ensures var body := if Given(args.sourceFile)
                        then [Rcf.RcfTargetClause(args.name) + " source pulled-from " + args.sourceFile.value]
                        else [Rcf.RcfPullClause(args.name) + " replace " + args.sourceUrl.value];
            Takes(FUNCTIONS, units, InFunctions, body, units[args.name := ContentOf(args)], InFunctions)
  {
    if Given(args.sourceFile) {
      FileRead(args.name, args.sourceFile.value);
      LineRuns(units, InFunctions, Rcf.RcfTargetClause(args.name) + " source pulled-from " + args.sourceFile.value);
    } else {
      PullRead(args.name, args.sourceUrl.value);
      LineRuns(units, InFunctions, Rcf.RcfPullClause(args.name) + " replace " + args.sourceUrl.value);
    }
  }

  /** The path and the URL are single words. */
  predicate WordsOnly(args: Rcf.Args) {
    && (Given(args.sourceFile) ==> IsToken(args.sourceFile.value))
    && (Given(args.sourceUrl) ==> IsToken(args.sourceUrl.value))
  }

  function Wanted(args: Rcf.Args, remove: bool): Option<Content> {
    if remove then None else Some(ContentOf(args))
  }

  lemma PlainRuns(units: Units, args: Rcf.Args, remove: bool, isUrl: string -> bool)
    requires Rcf.ValidArgs(args, isUrl) && (!remove ==> !Given(args.code) && WordsOnly(args))
    ensures Takes(FUNCTIONS, units, Global, Rcf.BuildRcfPlainCmds(args, remove),
              HasUnit(units, args.name, Wanted(args, remove)), Global)
  {
    var target := Rcf.RcfTargetClause(args.name);
    if remove {
      RemovalRuns(units, args.name);
      BlockRuns(units, ["no " + target + " source pulled-from", "no " + target], units - {args.name});
    } else {
      DeliveryRuns(units, args, isUrl);
      BlockRuns(units,
                if Given(args.sourceFile) then [target + " source pulled-from " + args.sourceFile.value]
                else [Rcf.RcfPullClause(args.name) + " replace " + args.sourceUrl.value],
                units[args.name := ContentOf(args)]);
    }
  }

  /** From any prior state: removing leaves out exactly the named unit, whether it held code,
      a file reference or something pulled, and delivering by file or URL leaves it exactly
      as declared; every other unit is as before. */
  lemma Converges(units: Units, args: Rcf.Args, remove: bool, isUrl: string -> bool)
    requires Rcf.ValidArgs(args, isUrl) && (!remove ==> !Given(args.code) && WordsOnly(args))
    ensures Run(FUNCTIONS, units, Rcf.BuildRcfPlainCmds(args, remove))
         == HasUnit(units, args.name, Wanted(args, remove))
  {
    PlainRuns(units, args, remove, isUrl);
  }

  // ---- streamed code ------------------------------------------------------------------------------

  lemma {:induction false} ReceivedExactly(lines: seq<string>, rest: seq<string>)
    ensures Received(lines + ["EOF"] + rest) == RcfRead.Terminated(lines) <==> "EOF" !in lines
  {
    var all := lines + ["EOF"] + rest;
    if lines == [] {
      assert all[0] == "EOF";
    } else {
      assert all[0] == lines[0] && all[1..] == lines[1..] + ["EOF"] + rest;
      ReceivedExactly(lines[1..], rest);
      if lines[0] == "EOF" {
        assert RcfRead.Terminated(lines) != "";
      } else {
        SameTails(lines[0] + "\n", Received(all[1..]), RcfRead.Terminated(lines[1..]));
        assert "EOF" in lines <==> "EOF" in lines[1..];
      }
    }
  }

  lemma SameTails(head: string, a: string, b: string)
    ensures head + a == head + b <==> a == b
  {
    if head + a == head + b {
      assert (head + a)[|head|..] == a && (head + b)[|head|..] == b;
    }
  }
  lemma RichFive(units: Units, a: Rcf.Command, b: Rcf.Command, c: Rcf.Command, d: Rcf.Command, e: Rcf.Command,
                 name: string, code: string)
    requires CommandOf(a.cmd, a.input) == EnterGeneral && CommandOf(b.cmd, b.input) == EnterFunctions
    requires CommandOf(c.cmd, c.input) == SetCode(name, code)
    requires CommandOf(d.cmd, d.input) == Exit && CommandOf(e.cmd, e.input) == Exit
    ensures RunRich(units, Global, [a, b, c, d, e]) == (units[name := Inline(code)], Global)
  {
    var cmds := [a, b, c, d, e];
    assert cmds[1..] == [b, c, d, e] && [b, c, d, e][1..] == [c, d, e];
    assert [c, d, e][1..] == [d, e] && [d, e][1..] == [e] && [e][1..] == [];
    var set_ := units[name := Inline(code)];
    assert RunRich(set_, Global, []) == (set_, Global);
    assert RunRich(set_, InGeneral, [e]) == (set_, Global);
    assert RunRich(set_, InFunctions, [d, e]) == (set_, Global);
    assert RunRich(units, InFunctions, [c, d, e]) == (set_, Global);
  }

  lemma RichRuns(units: Units, args: Rcf.Args, isUrl: string -> bool)
    requires Rcf.ValidArgs(args, isUrl) && Given(args.code)
    ensures RunRich(units, Global, Rcf.BuildRcfRichCmds(args))
         == (units[args.name := Inline(Received(RcfRead.CodeLines(Rcf.InputOf(args.code.value))))], Global)
  {
    var input := Rcf.InputOf(args.code.value);
    CodeRead(args.name, input);
    RichBlock(units, "router general", "control-functions", Rcf.Command(Rcf.RcfTargetClause(args.name), input), "exit",
              args.name, Received(RcfRead.CodeLines(input)));
  }

  lemma RichBlock(units: Units, general: string, functions: string, code: Rcf.Command, exit: string, name: string,
                  text: string)
    requires general == "router general" && functions == "control-functions" && exit == "exit"
    requires CommandOf(code.cmd, code.input) == SetCode(name, text)
    ensures RunRich(units, Global, [Rcf.Command(general, ""), Rcf.Command(functions, ""), code, Rcf.Command(exit, ""),
              Rcf.Command(exit, "")])
         == (units[name := Inline(text)], Global)
  {
    GeneralRead(general);
    FunctionsRead(functions);
    ExitRead(exit);
    RichFive(units, Rcf.Command(general, ""), Rcf.Command(functions, ""), code, Rcf.Command(exit, ""),
             Rcf.Command(exit, ""), name, text);
  }

  lemma InputReceived(code: string)
    requires HasSuffix(code, "\n")
    ensures Received(RcfRead.CodeLines(Rcf.InputOf(code))) == code <==> "EOF" !in RcfRead.CodeLines(code)
  {
    RcfRead.InputLines(code);
    RcfRead.CodeIsItsLines(code);
    ReceivedExactly(RcfRead.CodeLines(code), []);
    AppendEmpty(RcfRead.CodeLines(code) + ["EOF"]);
  }

  /** From any prior state, streaming code leaves the unit with exactly that code, and every
      other unit as before, if and only if no line of it is the terminator. */
  lemma CodeArrivesExactly(units: Units, args: Rcf.Args, isUrl: string -> bool)
    requires Rcf.ValidArgs(args, isUrl) && Given(args.code)
    ensures RunRich(units, Global, Rcf.BuildRcfRichCmds(args)).0 == HasUnit(units, args.name, Wanted(args, false))
       <==> "EOF" !in RcfRead.CodeLines(args.code.value)
  {
    RichRuns(units, args, isUrl);
    InputReceived(args.code.value);
    SameCode(units, args.name, Received(RcfRead.CodeLines(Rcf.InputOf(args.code.value))), args.code.value);
  }

  lemma SameCode(units: Units, name: string, a: string, b: string)
    ensures units[name := Inline(a)] == units[name := Inline(b)] <==> a == b
  {
    if units[name := Inline(a)] == units[name := Inline(b)] {
      assert units[name := Inline(a)][name] == units[name := Inline(b)][name];
    }
  }

  // ---- texts that are not one word --------------------------------------------------------------

  predicate HeldContent(c: Content) {
    match c
    case Inline(_) => true
    case File(path) => IsToken(path)
    case Pulled(url) => IsToken(url)
  }

  /** A device holds words, and code. */
  ghost predicate Held(units: Units) {
    forall name :: name in units ==> HeldContent(units[name])
  }

  predicate HeldCommand(cmd: Command) {
    match cmd
    case SetFile(_, path) => IsToken(path)
    case Pull(_, url) => IsToken(url)
    case _ => true
  }

  lemma TargetHeld(words: seq<string>)
    requires AllTokens(words)
    ensures AllTokens(TargetOf(words).rest)
  {
  }

  lemma RestHeld(t: Target, input: string)
    requires AllTokens(t.rest)
    ensures HeldCommand(CodeCommand(t, input)) && HeldCommand(PullCommand(t))
  {
    if |t.rest| > 0 {
      assert IsToken(t.rest[|t.rest| - 1]);
    }
  }

  lemma CommandHeld(line: string, input: string)
    ensures HeldCommand(CommandOf(line, input))
  {
    var words := Fields(line);
    if words != [] {
      assert AllTokens(words[1..]);
      TargetHeld(words[1..]);
      RestHeld(TargetOf(words[1..]), input);
    }
  }

  lemma {:induction false} RunHeld(units: Units, mode: Mode, lines: seq<string>)
    requires Held(units)
    ensures Held(Effect(FUNCTIONS, units, mode, lines))
  {
    if lines != [] {
      RunHeld(units, mode, lines[..|lines| - 1]);
      CommandHeld(lines[|lines| - 1], "");
    }
  }

  /** Validation lets paths and URLs through that are not single words, such as a URL with a
      blank in its path. A device reaches the declared delivery if and only if they are. */
  lemma ConvergesExactly(units: Units, args: Rcf.Args, isUrl: string -> bool)
    requires Rcf.ValidArgs(args, isUrl) && !Given(args.code) && Held(units)
    ensures Run(FUNCTIONS, units, Rcf.BuildRcfPlainCmds(args, false))
         == HasUnit(units, args.name, Wanted(args, false))
       <==> WordsOnly(args)
  {
    var after := Run(FUNCTIONS, units, Rcf.BuildRcfPlainCmds(args, false));
    if WordsOnly(args) {
      Converges(units, args, false, isUrl);
    }
    if after == HasUnit(units, args.name, Wanted(args, false)) {
      RunHeld(units, Global, Rcf.BuildRcfPlainCmds(args, false));
      assert after[args.name] == ContentOf(args);
      assert HeldContent(after[args.name]);
    }
  }

  /** One apply over a network that may break any call: the units are as before, or the
      commit was reached and the unit is exactly as declared, or gone. */
  lemma ApplyLeavesDeclared(show: Units -> seq<string>, dev: Device<Units>, session: string, args: Rcf.Args,
                            remove: bool, nets: Nets, isUrl: string -> bool)
    requires IsToken(session)
    requires Rcf.ValidArgs(args, isUrl) && (!remove ==> !Given(args.code) && WordsOnly(args))
    ensures var sem := SemanticsOf(FUNCTIONS, show);
            AfterApply(sem, dev, session, Rcf.BuildRcfPlainCmds(args, remove), nets).running ==
            if Commits(nets)
            then HasUnit(Replay(sem, dev.running, Batches(dev, session)), args.name, Wanted(args, remove))
            else dev.running
  {
    var cmds := Rcf.BuildRcfPlainCmds(args, remove);
    var before := Replay(SemanticsOf(FUNCTIONS, show), dev.running, Batches(dev, session));
    assert |cmds| >= 4;
    PlainRuns(before, args, remove, isUrl);
    ApplyTakes(FUNCTIONS, show, dev, session, cmds, nets, HasUnit(before, args.name, Wanted(args, remove)), Global);
  }
}
