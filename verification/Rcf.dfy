/** Routing control functions: the staged commands of a code unit. */
module Rcf {
  import opened Text
  import opened Rendering

  datatype Args = Args(
    name: string,
    code: Option<string>,
    sourceFile: Option<string>,
    sourceUrl: Option<string>)

  /** A command with the text that EOS reads after it. */
  datatype Command = Command(cmd: string, input: string)

  // ---- validation --------------------------------------------------------------------

  datatype Invalid =
    | NameRequired | BadName | DeliveryRequired | DeliveryConflict
    | BadSourcePath | BadSourceURL | CodeMissingTrailingNewline

  predicate IsLetter(c: char) {
    'a' <= c <= 'z' || 'A' <= c <= 'Z'
  }

  predicate IsNameChar(c: char) {
    IsLetter(c) || IsDigit(c) || c == '_' || c == '-'
  }

  predicate IsName(s: string) {
    s != "" && IsLetter(s[0]) && forall i :: 0 <= i < |s| ==> IsNameChar(s[i])
  }

  /** RE2's `\s`. */
  predicate IsAsciiSpace(c: char) {
    c == ' ' || c == '\t' || c == '\n' || c == '\r' || c == '\U{C}'
  }

  predicate IsSourcePath(s: string) {
    var i := IndexOf(s, ':');
    && i < |s| - 1 && IsName(s[..i])
    && forall k :: i < k < |s| ==> !IsAsciiSpace(s[k])
  }

  function DeliveryCount(args: Args): int {
    One(Given(args.code)) + One(Given(args.sourceFile)) + One(Given(args.sourceUrl))
  }

  predicate ValidArgs(args: Args, isUrl: string -> bool) {
    && (args.name == "default" || IsName(args.name))
    && DeliveryCount(args) == 1
    && (Given(args.sourceFile) ==> IsSourcePath(args.sourceFile.value))
    && (Given(args.sourceUrl) ==> isUrl(args.sourceUrl.value))
    && (Given(args.code) ==> HasSuffix(args.code.value, "\n"))
  }

  method RcfDeliveryCount(args: Args) returns (n: int)
    ensures n == DeliveryCount(args)
  {
    n := 0;
    if args.code.Some? && args.code.value != "" {
      n := n + 1;
    }
    if args.sourceFile.Some? && args.sourceFile.value != "" {
      n := n + 1;
    }
    if args.sourceUrl.Some? && args.sourceUrl.value != "" {
      n := n + 1;
    }
  }

  method ValidateRcf(args: Args, isUrl: string -> bool) returns (err: Option<Invalid>)
    ensures err == None <==> ValidArgs(args, isUrl)
  {
    NameNotBlank(args.name);
    if TrimSpace(args.name) == "" {
      return Some(NameRequired);
    }
    if args.name != "default" && !IsName(args.name) {
      return Some(BadName);
    }
    var n := RcfDeliveryCount(args);
    match n {
      case 0 => return Some(DeliveryRequired);
      case 1 =>
      case _ => return Some(DeliveryConflict);
    }
    if args.sourceFile.Some? && args.sourceFile.value != "" && !IsSourcePath(args.sourceFile.value) {
      return Some(BadSourcePath);
    }
    if args.sourceUrl.Some? && args.sourceUrl.value != "" && !isUrl(args.sourceUrl.value) {
      return Some(BadSourceURL);
    }
    if args.code.Some? && args.code.value != "" && !HasSuffix(args.code.value, "\n") {
      return Some(CodeMissingTrailingNewline);
    }
    return None;
  }

  lemma NameNotBlank(name: string)
    ensures name == "default" || IsName(name) ==> TrimSpace(name) == name && IsToken(name)
  {
  }

  // ---- the staged commands -------------------------------------------------------------

  function RcfTargetClause(name: string): string {
    if name == "default" then "code" else "code unit " + name
  }

  function RcfPullClause(name: string): string {
    if name == "default" then "pull" else "pull unit " + name
  }

  /** The text streamed after the target clause: the code and the terminator. */
  function InputOf(code: string): string {
    (if HasSuffix(code, "\n") then code else code + "\n") + "EOF\n"
  }

  function BuildRcfPlainCmds(args: Args, remove: bool): seq<string> {
    var target := RcfTargetClause(args.name);
    ["router general", "control-functions"]
    + (if remove then ["no " + target + " source pulled-from", "no " + target]
       else if Given(args.sourceFile) then [target + " source pulled-from " + args.sourceFile.value]
       else if Given(args.sourceUrl) then [RcfPullClause(args.name) + " replace " + args.sourceUrl.value]
       else [])
    + ["exit", "exit"]
  }

  function BuildRcfRichCmds(args: Args): seq<Command>
    requires args.code.Some?
  {
    [ Command("router general", ""),
      Command("control-functions", ""),
      Command(RcfTargetClause(args.name), InputOf(args.code.value)),
      Command("exit", ""),
      Command("exit", "") ]
  }
}
