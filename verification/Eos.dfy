/** What the device makes of the configuration lines for prefix-lists and
    route-maps: a small interpreter with modes, written from the CLI's point of
    view and independent of how the provider renders. */
module Eos {
  import opened Text
  import opened Sorting
  import opened Eapi

  /** A rule is what follows the sequence number: action, prefix and bounds. */
  datatype PrefixListConfig = PrefixListConfig(remark: Option<string>, rules: map<int, seq<string>>)

  datatype Clause =
    | MatchIpPrefixList | MatchAsPath | MatchCommunity | MatchExtcommunity | MatchInterface
    | MatchLocalPreference | MatchMetric | MatchSourceProtocol | MatchTag
    | SetAsPathPrepend | SetCommunity | SetExtcommunityRt | SetIpNextHop
    | SetLocalPreference | SetMetric | SetOrigin | SetTag
    | ContinueAt

  /** One `route-map NAME ACTION SEQ` block; a clause that is absent is not set. */
  datatype Block = Block(action: string, clauses: map<Clause, seq<string>>)

  datatype Config = Config(
    prefixLists: map<string, PrefixListConfig>,
    routeMaps: map<string, map<int, Block>>)

  datatype Mode = Global | InRouteMap(name: string, seqNo: int)

  datatype Command =
    | NoPrefixList(name: string)
    | PrefixRule(name: string, seqNo: int, rule: seq<string>)
    | PrefixRemark(name: string, text: string)
    | NoRouteMap(name: string)
    | EnterRouteMap(name: string, action: string, seqNo: int)
    | SetClause(clause: Clause, args: seq<string>)
    | Exit
    | Unknown

  // ---- recognising a line ----------------------------------------------------------------

  function MatchClause(words: seq<string>): Command
    requires |words| >= 2
  {
    var args := words[1..];
    match words[0]
    case "as-path" => SetClause(MatchAsPath, args)
    case "community" => SetClause(MatchCommunity, args)
    case "extcommunity" => SetClause(MatchExtcommunity, args)
    case "interface" => SetClause(MatchInterface, args)
    case "local-preference" => SetClause(MatchLocalPreference, args)
    case "metric" => SetClause(MatchMetric, args)
    case "source-protocol" => SetClause(MatchSourceProtocol, args)
    case "tag" => SetClause(MatchTag, args)
    case "ip" =>
      if |words| >= 4 && words[1] == "address" && words[2] == "prefix-list"
      then SetClause(MatchIpPrefixList, words[3..]) else Unknown
    case _ => Unknown
  }

  function SetCommand(words: seq<string>): Command
    requires |words| >= 2
  {
    var args := words[1..];
    match words[0]
    case "community" => SetClause(SetCommunity, args)
    case "local-preference" => SetClause(SetLocalPreference, args)
    case "metric" => SetClause(SetMetric, args)
    case "origin" => SetClause(SetOrigin, args)
    case "tag" => SetClause(SetTag, args)
    case "as-path" =>
      if |words| >= 3 && words[1] == "prepend" then SetClause(SetAsPathPrepend, words[2..]) else Unknown
    case "extcommunity" =>
      if |words| >= 3 && words[1] == "rt" then SetClause(SetExtcommunityRt, words[2..]) else Unknown
    case "ip" =>
      if |words| >= 3 && words[1] == "next-hop" then SetClause(SetIpNextHop, words[2..]) else Unknown
    case _ => Unknown
  }

  function PrefixListCommand(line: string, words: seq<string>): Command
    requires |words| >= 2
  {
    // words: NAME seq N ... or NAME remark TEXT
    if words[1] == "remark" then
      match CutPrefix(line, "ip prefix-list " + words[0] + " remark ")
      case Some(text) => PrefixRemark(words[0], text)
      case None => Unknown
    else if words[1] == "seq" && |words| >= 5 then
      match Atoi(words[2])
      case Some(n) => PrefixRule(words[0], n, words[3..])
      case None => Unknown
    else Unknown
  }

  function CommandOfWords(line: string, words: seq<string>): Command {
    if words == ["exit"] then Exit
    else if |words| < 2 then Unknown
    else
      match words[0]
      case "match" => if |words| >= 3 then MatchClause(words[1..]) else Unknown
      case "set" => if |words| >= 3 then SetCommand(words[1..]) else Unknown
      case "continue" => SetClause(ContinueAt, words[1..])
      case "ip" =>
        if |words| >= 4 && words[1] == "prefix-list" then PrefixListCommand(line, words[2..]) else Unknown
      case "route-map" =>
        if |words| == 4 && (words[2] == "permit" || words[2] == "deny") && Atoi(words[3]).Some?
        then EnterRouteMap(words[1], words[2], Atoi(words[3]).value) else Unknown
      case "no" =>
        if |words| == 4 && words[1] == "ip" && words[2] == "prefix-list" then NoPrefixList(words[3])
        else if |words| == 3 && words[1] == "route-map" then NoRouteMap(words[2])
        else Unknown
      case _ => Unknown
  }

  function CommandOf(line: string): Command {
    CommandOfWords(line, Fields(line))
  }

  // ---- executing it --------------------------------------------------------------------------

  function PrefixListOf(cfg: Config, name: string): PrefixListConfig {
    if name in cfg.prefixLists then cfg.prefixLists[name] else PrefixListConfig(None, map[])
  }

  function RouteMapOf(cfg: Config, name: string): map<int, Block> {
    if name in cfg.routeMaps then cfg.routeMaps[name] else map[]
  }

  function WithBlock(cfg: Config, name: string, seqNo: int, block: Block): Config {
    cfg.(routeMaps := cfg.routeMaps[name := RouteMapOf(cfg, name)[seqNo := block]])
  }

  /** `set extcommunity rt` lines add up; every other clause has one value. */
  function WithClause(block: Block, clause: Clause, args: seq<string>): Block {
    var before := if clause == SetExtcommunityRt && clause in block.clauses then block.clauses[clause] else [];
    block.(clauses := block.clauses[clause := before + args])
  }

  /** Lines that belong to global configuration mode leave the block. */
  function Execute(cfg: Config, mode: Mode, cmd: Command): (Config, Mode) {
    match cmd
    case NoPrefixList(name) => (cfg.(prefixLists := cfg.prefixLists - {name}), Global)
    case PrefixRule(name, n, rule) =>
      var pl := PrefixListOf(cfg, name);
      (cfg.(prefixLists := cfg.prefixLists[name := pl.(rules := pl.rules[n := rule])]), Global)
    case PrefixRemark(name, text) =>
      var pl := PrefixListOf(cfg, name);
      (cfg.(prefixLists := cfg.prefixLists[name := pl.(remark := Some(text))]), Global)
    case NoRouteMap(name) => (cfg.(routeMaps := cfg.routeMaps - {name}), Global)
    case EnterRouteMap(name, action, n) =>
      var block := if n in RouteMapOf(cfg, name) then RouteMapOf(cfg, name)[n] else Block(action, map[]);
      (WithBlock(cfg, name, n, block.(action := action)), InRouteMap(name, n))
    case SetClause(clause, args) =>
      (match mode
       case InRouteMap(name, n) =>
         if n in RouteMapOf(cfg, name)
         then (WithBlock(cfg, name, n, WithClause(RouteMapOf(cfg, name)[n], clause, args)), mode)
         else (cfg, mode)
       case Global => (cfg, mode))
    case Exit => (cfg, Global)
    case Unknown => (cfg, mode)
  }

  function RunLines(cfg: Config, mode: Mode, lines: seq<string>): (Config, Mode)
    decreases |lines|
  {
    if lines == [] then (cfg, mode)
    else
      var n := |lines| - 1;
      var (cfg', mode') := RunLines(cfg, mode, lines[..n]);
      Execute(cfg', mode', CommandOf(lines[n]))
  }

  /** A batch starts in global configuration mode. */
  function Run(cfg: Config, lines: seq<string>): Config {
    RunLines(cfg, Global, lines).0
  }

  // ---- the CLI over it ------------------------------------------------------------------------

  /** The mode a command leaves the CLI in; the configuration has no part in it. */
  function NextMode(mode: Mode, cmd: Command): Mode {
    match cmd
    case EnterRouteMap(name, _, n) => InRouteMap(name, n)
    case SetClause(_, _) => mode
    case Unknown => mode
    case _ => Global
  }

  function ModeAfter(lines: seq<string>): Mode {
    if lines == [] then Global
    else NextMode(ModeAfter(lines[..|lines| - 1]), CommandOf(lines[|lines| - 1]))
  }

  lemma {:induction false} ModeAgrees(cfg: Config, lines: seq<string>)
    ensures RunLines(cfg, Global, lines).1 == ModeAfter(lines)
  {
    if lines != [] {
      var n := |lines| - 1;
      ModeAgrees(cfg, lines[..n]);
      var (cfg', mode') := RunLines(cfg, Global, lines[..n]);
      var cmd := CommandOf(lines[n]);
      assert Execute(cfg', mode', cmd).1 == NextMode(mode', cmd);
    }
  }

  /** A CLI on which the session commands are spelled out, and every other line is a
      configuration line; only route-maps have a sub-mode. */
  const EOS_CLI := Cli(
    (lines: seq<string>) => ModeAfter(lines).InRouteMap?,
    (line: string) => Do,
    (line: string) => Type)

  /** The session device over this configuration; how it lists its configuration
      is left open. */
  function SemanticsOf(show: Config -> seq<string>): Semantics<Config> {
    Semantics(
      EOS_CLI,
      (cfg: Config, lines: seq<string>) => Run(cfg, lines),
      show,
      (cfg: Config, place: Place, line: string) =>
        if place.InConfig? then Execute(cfg, ModeAfter(place.typed), CommandOf(line)).0 else cfg)
  }

  lemma {:induction false} RunLinesAppend(cfg: Config, mode: Mode, a: seq<string>, b: seq<string>)
    ensures RunLines(cfg, mode, a + b) ==
            var (cfg', mode') := RunLines(cfg, mode, a);
            RunLines(cfg', mode', b)
  {
    if b == [] {
      assert a + b == a;
    } else {
      var n := |b| - 1;
      RunLinesAppend(cfg, mode, a, b[..n]);
      assert (a + b)[..|a + b| - 1] == a + b[..n];
    }
  }

  lemma RunOne(cfg: Config, mode: Mode, line: string)
    ensures RunLines(cfg, mode, [line]) == Execute(cfg, mode, CommandOf(line))
  {
    assert [line][..0] == [];
    assert RunLines(cfg, mode, []) == (cfg, mode);
  }

  /** Lines that the device knows as configuration are typed into a session, but for an
      `exit` outside every block, which would leave it. */
  predicate WellNested(lines: seq<string>) {
    forall i :: 0 <= i < |lines| ==>
      !CommandOf(lines[i]).Unknown? && (CommandOf(lines[i]).Exit? ==> ModeAfter(lines[..i]).InRouteMap?)
  }

  lemma KnownStays(typed: seq<string>, line: string)
    requires !CommandOf(line).Unknown?
    requires CommandOf(line).Exit? ==> ModeAfter(typed).InRouteMap?
    ensures Stays(EOS_CLI, typed, line)
  {
    if !CommandOf(line).Exit? {
      assert |Fields(line)| >= 2;
    }
  }

  lemma NestedIsPlain(lines: seq<string>)
    requires WellNested(lines)
    ensures PlainBody(EOS_CLI, lines)
  {
    forall i | 0 <= i < |lines| ensures Stays(EOS_CLI, lines[..i], lines[i]) {
      KnownStays(lines[..i], lines[i]);
    }
  }

  // ---- prefix-list lines -----------------------------------------------------------------------

  /** The configuration with one list replaced, or left out. */
  function HasList(cfg: Config, name: string, pl: Option<PrefixListConfig>): Config {
    match pl
    case None => cfg.(prefixLists := cfg.prefixLists - {name})
    case Some(v) => cfg.(prefixLists := cfg.prefixLists[name := v])
  }

  lemma RuleCommand(line: string, name: string, number: string, n: Int, rule: seq<string>)
    requires Fields(line) == ["ip", "prefix-list", name, "seq", number] + rule
    requires Atoi(number) == Some(n) && |rule| >= 2
    ensures CommandOf(line) == PrefixRule(name, n, rule)
  {
    var words := Fields(line);
    assert words[2..] == [name, "seq", number] + rule;
    assert words[2..][3..] == rule;
    assert PrefixListCommand(line, words[2..]) == PrefixRule(name, n, rule);
  }

  /** Rule lines of one list fill in its table of rules. */
  lemma {:induction false} RulesExecute<T>(cfg: Config, name: string, lines: seq<string>, es: seq<T>, key: T -> int,
                                           val: T -> seq<string>)
    requires |lines| == |es|
    requires forall i :: 0 <= i < |es| ==> CommandOf(lines[i]) == PrefixRule(name, key(es[i]), val(es[i]))
    ensures RunLines(cfg, Global, lines) ==
            (if es == [] then cfg
             else
               var pl := PrefixListOf(cfg, name);
               HasList(cfg, name, Some(pl.(rules := pl.rules + Table(es, key, val)))), Global)
  {
    if es != [] {
      var k := |es| - 1;
      RulesExecute(cfg, name, lines[..k], es[..k], key, val);
      if k == 0 {
        assert es[..0] == [] && Table(es[..0], key, val) == map[];
        RulesGrow(cfg, name, map[], key(es[k]), val(es[k]));
      } else {
        RulesGrow(cfg, name, Table(es[..k], key, val), key(es[k]), val(es[k]));
      }
    }
  }

  /** One more rule on a list that has some of them already. */
  lemma RulesGrow(cfg: Config, name: string, table: map<int, seq<string>>, n: int, rule: seq<string>)
    ensures var pl := PrefixListOf(cfg, name);
            var grown := HasList(cfg, name, Some(pl.(rules := pl.rules + table[n := rule])));
            && Execute(HasList(cfg, name, Some(pl.(rules := pl.rules + table))), Global, PrefixRule(name, n, rule))
              == (grown, Global)
            && (table == map[] ==> Execute(cfg, Global, PrefixRule(name, n, rule)) == (grown, Global))
  {
    var pl := PrefixListOf(cfg, name);
    assert (pl.rules + table)[n := rule] == pl.rules + table[n := rule];
    var some := pl.(rules := pl.rules + table);
    var all := pl.(rules := pl.rules + table[n := rule]);
    assert cfg.prefixLists[name := some][name := all] == cfg.prefixLists[name := all];
    if table == map[] {
      assert pl.rules + table == pl.rules;
    }
  }

  lemma HasListTwice(cfg: Config, name: string, a: Option<PrefixListConfig>, b: Option<PrefixListConfig>)
    ensures HasList(HasList(cfg, name, a), name, b) == HasList(cfg, name, b)
  {
    if a.Some? && b.Some? {
      assert cfg.prefixLists[name := a.value][name := b.value] == cfg.prefixLists[name := b.value];
    } else if a.Some? {
      assert cfg.prefixLists[name := a.value] - {name} == cfg.prefixLists - {name};
    } else if b.Some? {
      assert (cfg.prefixLists - {name})[name := b.value] == cfg.prefixLists[name := b.value];
    } else {
      assert cfg.prefixLists - {name} - {name} == cfg.prefixLists - {name};
    }
  }

  // ---- what a device can hold ------------------------------------------------------------------

  // Names and arguments reach the device as words of a line, so no name and no
  // argument it holds has white space in it.

  ghost predicate HeldBlock(block: Block) {
    forall c :: c in block.clauses ==> AllTokens(block.clauses[c])
  }

  ghost predicate HeldMap(blocks: map<int, Block>) {
    forall n :: n in blocks ==> HeldBlock(blocks[n])
  }

  ghost predicate Held(cfg: Config) {
    && (forall name :: name in cfg.prefixLists ==> IsToken(name))
    && (forall name :: name in cfg.routeMaps ==> IsToken(name) && HeldMap(cfg.routeMaps[name]))
  }

  predicate HeldMode(mode: Mode) {
    mode.InRouteMap? ==> IsToken(mode.name)
  }

  predicate HeldCommand(cmd: Command) {
    match cmd
    case NoPrefixList(name) => IsToken(name)
    case PrefixRule(name, n, rule) => IsToken(name)
    case PrefixRemark(name, text) => IsToken(name)
    case NoRouteMap(name) => IsToken(name)
    case EnterRouteMap(name, action, n) => IsToken(name)
    case SetClause(clause, args) => AllTokens(args)
    case Exit => true
    case Unknown => true
  }

  lemma TokensFrom(words: seq<string>, i: nat)
    requires AllTokens(words) && i <= |words|
    ensures AllTokens(words[i..])
  {
  }

  lemma MatchClauseHeld(words: seq<string>)
    requires |words| >= 2 && AllTokens(words)
    ensures HeldCommand(MatchClause(words))
  {
    TokensFrom(words, 1);
    if |words| >= 4 {
      TokensFrom(words, 3);
    }
  }

  lemma SetCommandHeld(words: seq<string>)
    requires |words| >= 2 && AllTokens(words)
    ensures HeldCommand(SetCommand(words))
  {
    TokensFrom(words, 1);
    TokensFrom(words, 2);
  }

  lemma CommandHeld(line: string)
    ensures HeldCommand(CommandOf(line))
  {
    var words := Fields(line);
    if |words| >= 2 {
      TokensFrom(words, 1);
      TokensFrom(words, 2);
      if |words| >= 3 {
        MatchClauseHeld(words[1..]);
        SetCommandHeld(words[1..]);
      }
      if |words| >= 4 {
        assert HeldCommand(PrefixListCommand(line, words[2..]));
      }
    }
  }

  lemma WithBlockHeld(cfg: Config, name: string, n: int, block: Block)
    requires Held(cfg) && IsToken(name) && HeldBlock(block)
    ensures Held(WithBlock(cfg, name, n, block))
  {
    assert HeldMap(RouteMapOf(cfg, name));
    var blocks := RouteMapOf(cfg, name)[n := block];
    assert HeldMap(blocks);
    var next := WithBlock(cfg, name, n, block);
    assert next.routeMaps[name] == blocks;
  }

  lemma WithClauseHeld(block: Block, clause: Clause, args: seq<string>)
    requires HeldBlock(block) && AllTokens(args)
    ensures HeldBlock(WithClause(block, clause, args))
  {
    assert clause in block.clauses ==> AllTokens(block.clauses[clause]);
  }

  lemma ExecuteHeld(cfg: Config, mode: Mode, cmd: Command)
    requires Held(cfg) && HeldMode(mode) && HeldCommand(cmd)
    ensures Held(Execute(cfg, mode, cmd).0) && HeldMode(Execute(cfg, mode, cmd).1)
  {
    match cmd
    case EnterRouteMap(name, action, n) =>
      assert HeldMap(RouteMapOf(cfg, name));
      var block := if n in RouteMapOf(cfg, name) then RouteMapOf(cfg, name)[n] else Block(action, map[]);
      assert HeldBlock(block.(action := action));
      WithBlockHeld(cfg, name, n, block.(action := action));
    case SetClause(clause, args) =>
      if mode.InRouteMap? && mode.seqNo in RouteMapOf(cfg, mode.name) {
        assert HeldMap(RouteMapOf(cfg, mode.name));
        WithClauseHeld(RouteMapOf(cfg, mode.name)[mode.seqNo], clause, args);
        WithBlockHeld(cfg, mode.name, mode.seqNo, WithClause(RouteMapOf(cfg, mode.name)[mode.seqNo], clause, args));
      }
    case _ =>
  }

  /** Whatever is typed, a device keeps holding words only. */
  lemma {:induction false} RunHeld(cfg: Config, mode: Mode, lines: seq<string>)
    requires Held(cfg) && HeldMode(mode)
    ensures Held(RunLines(cfg, mode, lines).0) && HeldMode(RunLines(cfg, mode, lines).1)
    decreases |lines|
  {
    if lines != [] {
      var n := |lines| - 1;
      RunHeld(cfg, mode, lines[..n]);
      var (next, nextMode) := RunLines(cfg, mode, lines[..n]);
      CommandHeld(lines[n]);
      ExecuteHeld(next, nextMode, CommandOf(lines[n]));
    }
  }
}
