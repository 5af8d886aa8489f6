/** What the staged PBR commands do to a device, from any prior state: an interpreter for
    policy-maps and interface attachments, written from the CLI's point of view. */
module PbrDevice {
  import opened Text
  import opened Rendering
  import opened Sorting
  import opened Eapi
  import opened Shell
  import Pbr

  datatype Action = NoAction | ToHop(address: string, vrf: Option<string>) | ToGroup(group: string) | Discard

  datatype Rule = Rule(class_: string, action: Action)

  /** The policies, each a rule for every number, and the policy at each interface's input. */
  datatype Config = Config(policies: map<string, map<int, Rule>>, input: map<string, string>)

  datatype Mode = Global | InPolicy(name: string) | InRule(name: string, n: int) | InInterface(iface: string)

  datatype Command =
    | NoPolicy(name: string)
    | EnterPolicy(name: string)
    | EnterRule(n: int, class_: string)
    | SetAction(action: Action)
    | EnterInterface(iface: string)
    | Attach(name: string)
    | Detach(name: string)
    | Exit
    | Unknown

  // ---- reading a line -----------------------------------------------------------------------

  function SetCommand(words: seq<string>): Command {
    if |words| == 2 && words[0] == "nexthop" then SetAction(ToHop(words[1], None))
    else if |words| == 4 && words[0] == "nexthop" && words[2] == "vrf" then SetAction(ToHop(words[1], Some(words[3])))
    else if |words| == 2 && words[0] == "nexthop-group" then SetAction(ToGroup(words[1]))
    else Unknown
  }

  function NoCommand(words: seq<string>): Command {
    if |words| == 4 && words[0] == "policy-map" && words[1] == "type" && words[2] == "pbr" then NoPolicy(words[3])
    else if |words| == 5 && words[0] == "service-policy" && words[1] == "type" && words[2] == "pbr"
      && words[3] == "input"
      then Detach(words[4])
    else Unknown
  }

  function CommandOfWords(words: seq<string>): Command {
    if words == [] then Unknown
    else
      match words[0]
      case "exit" => if |words| == 1 then Exit else Unknown
      case "drop" => if |words| == 1 then SetAction(Discard) else Unknown
      case "set" => SetCommand(words[1..])
      case "no" => NoCommand(words[1..])
      case "interface" => if |words| == 2 then EnterInterface(words[1]) else Unknown
      case "policy-map" =>
        if |words| == 4 && words[1] == "type" && words[2] == "pbr" then EnterPolicy(words[3]) else Unknown
      case "service-policy" =>
        if |words| == 5 && words[1] == "type" && words[2] == "pbr" && words[3] == "input" then Attach(words[4])
        else Unknown
      case _ =>
        if |words| == 3 && words[1] == "class" && Atoi(words[0]).Some? then EnterRule(Atoi(words[0]).value, words[2])
        else Unknown
  }

  function CommandOf(line: string): Command {
    CommandOfWords(Fields(line))
  }

  // ---- executing it ----------------------------------------------------------------------------

  function RulesOf(cfg: Config, name: string): map<int, Rule> {
    if name in cfg.policies then cfg.policies[name] else map[]
  }

  function WithRule(cfg: Config, name: string, n: int, rule: Rule): Config {
    cfg.(policies := cfg.policies[name := RulesOf(cfg, name)[n := rule]])
  }

  /** A rule that is entered again for the same class keeps its action. */
  function Entered(cfg: Config, name: string, n: int, class_: string): Config {
    var rules := RulesOf(cfg, name);
    if n in rules && rules[n].class_ == class_ then cfg else WithRule(cfg, name, n, Rule(class_, NoAction))
  }

  function Execute(cfg: Config, mode: Mode, cmd: Command): Config {
    match cmd
    case NoPolicy(name) => cfg.(policies := cfg.policies - {name})
    case EnterPolicy(name) => cfg.(policies := cfg.policies[name := RulesOf(cfg, name)])
    case EnterRule(n, class_) =>
      (match mode
       case InPolicy(name) => Entered(cfg, name, n, class_)
       case InRule(name, _) => Entered(cfg, name, n, class_)
       case _ => cfg)
    case SetAction(action) =>
      if mode.InRule? && mode.n in RulesOf(cfg, mode.name)
      then WithRule(cfg, mode.name, mode.n, RulesOf(cfg, mode.name)[mode.n].(action := action))
      else cfg
    case Attach(name) => if mode.InInterface? then cfg.(input := cfg.input[mode.iface := name]) else cfg
    case Detach(name) =>
      if mode.InInterface? && mode.iface in cfg.input && cfg.input[mode.iface] == name
      then cfg.(input := cfg.input - {mode.iface})
      else cfg
    case _ => cfg
  }

  /** Policies and interfaces are entered from any mode, rules from within their policy. */
  function NextMode(mode: Mode, cmd: Command): Mode {
    match cmd
    case NoPolicy(_) => Global
    case EnterPolicy(name) => InPolicy(name)
    case EnterInterface(iface) => InInterface(iface)
    case EnterRule(n, _) =>
      (match mode
       case InPolicy(name) => InRule(name, n)
       case InRule(name, _) => InRule(name, n)
       case _ => mode)
    case Exit => if mode.InRule? then InPolicy(mode.name) else Global
    case _ => mode
  }

  const POLICIES: Shell<Config, Mode> := Shell(
    Global,
    (cfg: Config, mode: Mode, line: string) => Execute(cfg, mode, CommandOf(line)),
    (mode: Mode, line: string) => NextMode(mode, CommandOf(line)),
    (mode: Mode) => mode != Global)

  // ---- what is declared -------------------------------------------------------------------------

  function SeqOf(s: Pbr.Sequence): int {
    s.seqNo
  }

  function ActionOf(a: Pbr.Action): Action {
    if Given(a.nexthop) then ToHop(a.nexthop.value, if Given(a.nexthopVrf) then a.nexthopVrf else None)
    else if Given(a.nexthopGroup) then ToGroup(a.nexthopGroup.value)
    else if a.drop == Some(true) then Discard
    else NoAction
  }

  function RuleOf(s: Pbr.Sequence): Rule {
    Rule(s.class_, ActionOf(s.action))
  }

  /** The rules of a policy; of two sequences with one number the later one counts. */
  function Declared(args: Pbr.Args): map<int, Rule> {
    Table(args.sequences, SeqOf, RuleOf)
  }

  predicate Listed(attachments: seq<Pbr.Attachment>, iface: string) {
    exists i :: 0 <= i < |attachments| && attachments[i].iface == iface
  }

  /** Every listed interface has the policy at its input, and no other interface changes. */
  ghost predicate AttachedTo(before: map<string, string>, after: map<string, string>,
                             attachments: seq<Pbr.Attachment>, name: string) {
    && (forall i :: Listed(attachments, i) ==> i in after && after[i] == name)
    && SameElsewhere(before, after, attachments)
  }

  /** No listed interface has the policy at its input any more, one with another policy
      keeps it, and no other interface changes. */
  ghost predicate DetachedFrom(before: map<string, string>, after: map<string, string>,
                               attachments: seq<Pbr.Attachment>, name: string) {
    && (forall i :: Listed(attachments, i) ==>
          if i in before && before[i] != name then i in after && after[i] == before[i] else i !in after)
    && SameElsewhere(before, after, attachments)
  }

  ghost predicate SameElsewhere(before: map<string, string>, after: map<string, string>,
                                attachments: seq<Pbr.Attachment>) {
    forall i :: !Listed(attachments, i) ==>
      (i in after <==> i in before) && (i in before ==> after[i] == before[i])
  }

  /** The texts of a sequence are single words. */
  predicate WordsOf(s: Pbr.Sequence) {
    && IsToken(s.class_)
    && (Given(s.action.nexthop) ==> IsToken(s.action.nexthop.value))
    && (Given(s.action.nexthop) && Given(s.action.nexthopVrf) ==> IsToken(s.action.nexthopVrf.value))
    && (Given(s.action.nexthopGroup) ==> IsToken(s.action.nexthopGroup.value))
  }

  predicate WordsOnly(args: Pbr.Args) {
    IsToken(args.name) && forall i :: 0 <= i < |args.sequences| ==> WordsOf(args.sequences[i])
  }

  // ---- the device's reading of each line --------------------------------------------------------

  lemma HeaderLine(name: string)
    ensures Pbr.Header(name) == "policy-map" + " " + "type" + " " + "pbr" + " " + name
  {
  }

  lemma HeaderRead(name: string)
    requires IsToken(name)
    ensures CommandOf(Pbr.Header(name)) == EnterPolicy(name)
    ensures CommandOf("no " + Pbr.Header(name)) == NoPolicy(name)
  {
    HeaderLine(name);
    Words4("policy-map", "type", "pbr", name);
    NoWord(Pbr.Header(name), ["policy-map", "type", "pbr", name]);
  }

  lemma NoWord(line: string, words: seq<string>)
    requires Fields(line) == words
    ensures CommandOf("no " + line) == NoCommand(words)
  {
    FieldsWord("no", line);
    assert "no " == "no" + " ";
    assert (["no"] + words)[1..] == words;
  }

  lemma PolicyLine(name: string)
    ensures "service-policy type pbr input " + name
         == "service-policy" + " " + "type" + " " + "pbr" + " " + "input" + " " + name
  {
  }

  lemma NoPolicyLine(name: string)
    ensures "no service-policy type pbr input " + name == "no " + ("service-policy type pbr input " + name)
  {
  }

  lemma PolicyFields(name: string)
    requires IsToken(name)
    ensures Fields("service-policy type pbr input " + name) == ["service-policy", "type", "pbr", "input", name]
  {
    PolicyLine(name);
    Words5("service-policy", "type", "pbr", "input", name);
  }

  lemma PolicyRead(name: string)
    requires IsToken(name)
    ensures CommandOf("service-policy type pbr input " + name) == Attach(name)
    ensures CommandOf("no service-policy type pbr input " + name) == Detach(name)
  {
    PolicyFields(name);
    NoPolicyLine(name);
    NoWord("service-policy type pbr input " + name, ["service-policy", "type", "pbr", "input", name]);
  }

  lemma InterfaceRead(iface: string)
    requires IsToken(iface)
    ensures CommandOf("interface " + iface) == EnterInterface(iface)
  {
    TwoWordLine("interface ", "interface", iface);
  }

  lemma ExitRead()
    ensures CommandOf("exit") == Exit
  {
    FieldsToken("exit");
  }

  lemma RuleLine(n: string, class_: string)
    ensures n + " class " + class_ == n + " " + "class" + " " + class_
  {
  }

  lemma RuleRead(s: Pbr.Sequence)
    requires IsToken(s.class_)
    ensures CommandOf(Pbr.SequenceHeader(s)) == EnterRule(s.seqNo, s.class_)
  {
    var n := Itoa(s.seqNo);
    ItoaToken(s.seqNo);
    AtoiItoa(s.seqNo);
    RuleLine(n, s.class_);
    Words3(n, "class", s.class_);
    RuleWords(Pbr.SequenceHeader(s), n, s.seqNo, s.class_);
  }

  lemma RuleWords(line: string, n: string, v: Int, class_: string)
    requires Fields(line) == [n, "class", class_] && Atoi(n) == Some(v)
    requires n != "" && (IsDigit(n[0]) || n[0] == '-')
    ensures CommandOf(line) == EnterRule(v, class_)
  {
    NumberIsNoKeyword(Fields(line));
  }

  lemma NumberIsNoKeyword(words: seq<string>)
    requires |words| == 3 && words[1] == "class" && Atoi(words[0]).Some?
    requires words[0] != "" && (IsDigit(words[0][0]) || words[0][0] == '-')
    ensures CommandOfWords(words) == EnterRule(Atoi(words[0]).value, words[2])
  {
  }

  lemma HopLine(address: string, vrf: string)
    ensures "set nexthop " + address == "set" + " " + "nexthop" + " " + address
    ensures "set nexthop " + address + " vrf " + vrf
         == "set" + " " + "nexthop" + " " + address + " " + "vrf" + " " + vrf
  {
  }

  lemma HopRead(a: Pbr.Action)
    requires Given(a.nexthop) && IsToken(a.nexthop.value)
    requires Given(a.nexthopVrf) ==> IsToken(a.nexthopVrf.value)
    ensures CommandOf(Pbr.NexthopLine(a)) == SetAction(ActionOf(a))
  {
    var address, vrf := a.nexthop.value, Deref(a.nexthopVrf);
    HopLine(address, vrf);
    if Given(a.nexthopVrf) {
      Words5("set", "nexthop", address, "vrf", vrf);
      assert ["set", "nexthop", address, "vrf", vrf][1..] == ["nexthop", address, "vrf", vrf];
    } else {
      Words3("set", "nexthop", address);
      assert ["set", "nexthop", address][1..] == ["nexthop", address];
    }
  }

  lemma GroupRead(group: string)
    requires IsToken(group)
    ensures CommandOf("set nexthop-group " + group) == SetAction(ToGroup(group))
  {
    GroupHead();
    ThreeWordLine("set nexthop-group ", "set", "nexthop-group", group);
    assert ["set", "nexthop-group", group][1..] == ["nexthop-group", group];
  }

  lemma GroupHead()
    ensures "set nexthop-group " == "set" + " " + "nexthop-group" + " "
  {
  }

  lemma DropRead()
    ensures CommandOf("drop") == SetAction(Discard)
  {
    FieldsToken("drop");
  }

  lemma ActionRead(s: Pbr.Sequence)
    requires WordsOf(s) && Pbr.ActionCount(s.action) == 1
    ensures |Pbr.ActionLines(s.action)| == 1
    ensures CommandOf(Pbr.ActionLines(s.action)[0]) == SetAction(ActionOf(s.action))
  {
    var a := s.action;
    if Given(a.nexthop) {
      HopRead(a);
    } else if Given(a.nexthopGroup) {
      GroupRead(a.nexthopGroup.value);
    } else {
      DropRead();
    }
  }

  // ---- the rules -----------------------------------------------------------------------------

  lemma KnownTyped(mode: Mode, line: string)
    requires !CommandOf(line).Unknown? && (CommandOf(line).Exit? ==> mode != Global)
    ensures IsTyped(POLICIES, mode, line)
  {
  }

  lemma BlockTyped(mode: Mode, a: string, b: string, c: string)
    requires !CommandOf(a).Unknown? && !CommandOf(a).Exit? && !CommandOf(b).Unknown? && !CommandOf(b).Exit?
    requires CommandOf(c) == Exit && NextMode(NextMode(mode, CommandOf(a)), CommandOf(b)) != Global
    ensures AllTyped(POLICIES, mode, [a, b, c])
  {
    KnownTyped(mode, a);
    KnownTyped(NextMode(mode, CommandOf(a)), b);
    KnownTyped(NextMode(NextMode(mode, CommandOf(a)), CommandOf(b)), c);
    ThreeTyped(POLICIES, mode, a, b, c);
  }

  /** The three lines of a sequence, by what they are read as. */
  lemma RuleRuns(cfg: Config, name: string, rule: Rule, n: int, a: string, b: string, c: string)
    requires CommandOf(a) == EnterRule(n, rule.class_) && CommandOf(b) == SetAction(rule.action) && CommandOf(c) == Exit
    requires name in cfg.policies
    ensures Takes(POLICIES, cfg, InPolicy(name), [a, b, c], WithRule(cfg, name, n, rule), InPolicy(name))
  {
    ThreeLines(POLICIES, cfg, InPolicy(name), a, b, c);
    RuleReplaced(cfg, name, n, Rule(rule.class_, NoAction), rule);
    BlockTyped(InPolicy(name), a, b, c);
  }

  lemma SequenceRuns(cfg: Config, name: string, s: Pbr.Sequence)
    requires WordsOf(s) && Pbr.ActionCount(s.action) == 1 && name in cfg.policies
    ensures Takes(POLICIES, cfg, InPolicy(name), Pbr.SequenceLines(s), WithRule(cfg, name, s.seqNo, RuleOf(s)),
              InPolicy(name))
  {
    var action := Pbr.ActionLines(s.action)[0];
    RuleRead(s);
    ActionRead(s);
    ExitRead();
    SequenceShape(s, action);
    RuleRuns(cfg, name, RuleOf(s), s.seqNo, Pbr.SequenceHeader(s), action, "exit");
  }

  lemma SequenceShape(s: Pbr.Sequence, action: string)
    requires Pbr.ActionLines(s.action) == [action]
    ensures Pbr.SequenceLines(s) == [Pbr.SequenceHeader(s), action, "exit"]
  {
  }

  lemma RuleReplaced(cfg: Config, name: string, n: int, a: Rule, b: Rule)
    ensures WithRule(WithRule(cfg, name, n, a), name, n, b) == WithRule(cfg, name, n, b)
  {
    var rules := RulesOf(cfg, name);
    assert rules[n := a][n := b] == rules[n := b];
    assert cfg.policies[name := rules[n := a]][name := rules[n := b]] == cfg.policies[name := rules[n := b]];
  }
  predicate AllUsable(sequences: seq<Pbr.Sequence>) {
    forall i :: 0 <= i < |sequences| ==> WordsOf(sequences[i]) && Pbr.ActionCount(sequences[i].action) == 1
  }

  function WithRules(cfg: Config, name: string, rules: map<int, Rule>): Config {
    cfg.(policies := cfg.policies[name := RulesOf(cfg, name) + rules])
  }

  lemma RulesGrow(cfg: Config, name: string, rules: map<int, Rule>, n: int, rule: Rule)
    ensures WithRule(WithRules(cfg, name, rules), name, n, rule) == WithRules(cfg, name, rules[n := rule])
  {
    var before := RulesOf(cfg, name);
    assert (before + rules)[n := rule] == before + rules[n := rule];
    assert cfg.policies[name := before + rules][name := before + rules[n := rule]]
        == cfg.policies[name := before + rules[n := rule]];
  }

  lemma NoRules(cfg: Config, name: string)
    requires name in cfg.policies
    ensures WithRules(cfg, name, map[]) == cfg
  {
    assert RulesOf(cfg, name) + map[] == RulesOf(cfg, name);
    assert cfg.policies[name := RulesOf(cfg, name)] == cfg.policies;
  }

  lemma {:induction false} SequencesRun(cfg: Config, name: string, sequences: seq<Pbr.Sequence>)
    requires AllUsable(sequences) && name in cfg.policies
    ensures Takes(POLICIES, cfg, InPolicy(name), Collect(sequences, Pbr.SequenceLines),
              WithRules(cfg, name, Table(sequences, SeqOf, RuleOf)), InPolicy(name))
  {
    if sequences == [] {
      NoRules(cfg, name);
      TakesNone(POLICIES, cfg, InPolicy(name));
    } else {
      var k := |sequences| - 1;
      var front, last := sequences[..k], sequences[k];
      var lines, more := Collect(front, Pbr.SequenceLines), Pbr.SequenceLines(last);
      var rules := Table(front, SeqOf, RuleOf);
      assert forall i :: 0 <= i < k ==> front[i] == sequences[i];
      SequencesRun(cfg, name, front);
      SequenceRuns(WithRules(cfg, name, rules), name, last);
      RulesGrow(cfg, name, rules, last.seqNo, RuleOf(last));
      TakesThen(POLICIES, cfg, InPolicy(name), lines, WithRules(cfg, name, rules), InPolicy(name), more,
                WithRules(cfg, name, Table(sequences, SeqOf, RuleOf)), InPolicy(name));
    }
  }

  // ---- the attachments -----------------------------------------------------------------------

  /** What one attachment block makes of the policies at the interfaces. */
  function AtInput(input: map<string, string>, iface: string, name: string, attach: bool): map<string, string> {
    if attach then input[iface := name]
    else if iface in input && input[iface] == name then input - {iface}
    else input
  }

  function AllAtInput(input: map<string, string>, attachments: seq<Pbr.Attachment>, name: string, attach: bool)
    : map<string, string>
  {
    if attachments == [] then input
    else
      var k := |attachments| - 1;
      AtInput(AllAtInput(input, attachments[..k], name, attach), attachments[k].iface, name, attach)
  }

  function BlockOf(name: string, attach: bool): Pbr.Attachment -> seq<string> {
    if attach then Pbr.AttachLines(name) else Pbr.DetachLines(name)
  }

  lemma BlockRuns(cfg: Config, iface: string, name: string, attach: bool, a: string, b: string, c: string)
    requires CommandOf(a) == EnterInterface(iface) && CommandOf(c) == Exit
    requires CommandOf(b) == if attach then Attach(name) else Detach(name)
    ensures Takes(POLICIES, cfg, Global, [a, b, c], cfg.(input := AtInput(cfg.input, iface, name, attach)), Global)
  {
    ThreeLines(POLICIES, cfg, Global, a, b, c);
    BlockTyped(Global, a, b, c);
  }

  lemma OneAttachment(cfg: Config, at: Pbr.Attachment, name: string, attach: bool)
    requires Pbr.ValidAttachment(at) && IsToken(name)
    ensures Takes(POLICIES, cfg, Global, BlockOf(name, attach)(at),
              cfg.(input := AtInput(cfg.input, at.iface, name, attach)), Global)
  {
    Pbr.InterfaceToken(at.iface);
    InterfaceRead(at.iface);
    PolicyRead(name);
    ExitRead();
    var policy := if attach then "service-policy type pbr input " + name
                  else "no service-policy type pbr input " + name;
    BlockRuns(cfg, at.iface, name, attach, "interface " + at.iface, policy, "exit");
  }

  predicate AllValid(attachments: seq<Pbr.Attachment>) {
    forall i :: 0 <= i < |attachments| ==> Pbr.ValidAttachment(attachments[i])
  }

  lemma {:induction false} AttachmentsRun(cfg: Config, attachments: seq<Pbr.Attachment>, name: string, attach: bool)
    requires AllValid(attachments) && IsToken(name)
    ensures Takes(POLICIES, cfg, Global, Collect(attachments, BlockOf(name, attach)),
              cfg.(input := AllAtInput(cfg.input, attachments, name, attach)), Global)
  {
    if attachments == [] {
      TakesNone(POLICIES, cfg, Global);
    } else {
      var k := |attachments| - 1;
      var front := attachments[..k];
      var lines, more := Collect(front, BlockOf(name, attach)), BlockOf(name, attach)(attachments[k]);
      assert forall i :: 0 <= i < k ==> front[i] == attachments[i];
      AttachmentsRun(cfg, front, name, attach);
      OneAttachment(cfg.(input := AllAtInput(cfg.input, front, name, attach)), attachments[k], name, attach);
      TakesThen(POLICIES, cfg, Global, lines, cfg.(input := AllAtInput(cfg.input, front, name, attach)), Global, more,
                cfg.(input := AllAtInput(cfg.input, attachments, name, attach)), Global);
    }
  }

  lemma ListedFront(attachments: seq<Pbr.Attachment>, iface: string)
    requires attachments != []
    ensures var k := |attachments| - 1;
            Listed(attachments, iface) <==> Listed(attachments[..k], iface) || attachments[k].iface == iface
  {
    var k := |attachments| - 1;
    assert forall i :: 0 <= i < k ==> attachments[..k][i] == attachments[i];
  }

  lemma {:induction false} Attached(input: map<string, string>, attachments: seq<Pbr.Attachment>, name: string)
    ensures AttachedTo(input, AllAtInput(input, attachments, name, true), attachments, name)
  {
    if attachments != [] {
      Attached(input, attachments[..|attachments| - 1], name);
      forall i ensures var k := |attachments| - 1;
              Listed(attachments, i) <==> Listed(attachments[..k], i) || attachments[k].iface == i {
        ListedFront(attachments, i);
      }
    }
  }

  lemma {:induction false} Detached(input: map<string, string>, attachments: seq<Pbr.Attachment>, name: string)
    ensures DetachedFrom(input, AllAtInput(input, attachments, name, false), attachments, name)
  {
    if attachments != [] {
      Detached(input, attachments[..|attachments| - 1], name);
      forall i ensures var k := |attachments| - 1;
              Listed(attachments, i) <==> Listed(attachments[..k], i) || attachments[k].iface == i {
        ListedFront(attachments, i);
      }
    }
  }
  // ---- convergence ----------------------------------------------------------------------------

  lemma LineRuns(cfg: Config, mode: Mode, line: string)
    requires !CommandOf(line).Unknown? && (CommandOf(line).Exit? ==> mode != Global)
    ensures Takes(POLICIES, cfg, mode, [line], Execute(cfg, mode, CommandOf(line)), NextMode(mode, CommandOf(line)))
  {
    KnownTyped(mode, line);
    TakesOne(POLICIES, cfg, mode, line);
  }

  function Freed(cfg: Config, args: Pbr.Args): Config {
    Config(cfg.policies - {args.name}, AllAtInput(cfg.input, args.attachments, args.name, false))
  }

  /** Detaching and removing. */
  lemma LeadRuns(cfg: Config, args: Pbr.Args)
    requires IsToken(args.name) && AllValid(args.attachments)
    ensures Takes(POLICIES, cfg, Global, Pbr.Lead(args), Freed(cfg, args), Global)
  {
    var detached := cfg.(input := AllAtInput(cfg.input, args.attachments, args.name, false));
    AttachmentsRun(cfg, args.attachments, args.name, false);
    HeaderRead(args.name);
    LineRuns(detached, Global, "no " + Pbr.Header(args.name));
    TakesThen(POLICIES, cfg, Global, Collect(args.attachments, Pbr.DetachLines(args.name)), detached, Global,
              ["no " + Pbr.Header(args.name)], Freed(cfg, args), Global);
  }

  function WithPolicy(cfg: Config, name: string, rules: map<int, Rule>): Config {
    cfg.(policies := cfg.policies[name := rules])
  }

  lemma EmptyPolicy(cfg: Config, name: string, rules: map<int, Rule>)
    requires name !in cfg.policies
    ensures Execute(cfg, Global, EnterPolicy(name)) == WithPolicy(cfg, name, map[])
    ensures WithRules(WithPolicy(cfg, name, map[]), name, rules) == WithPolicy(cfg, name, rules)
  {
    assert map[] + rules == rules;
    assert cfg.policies[name := map[]][name := rules] == cfg.policies[name := rules];
  }

  /** The policy itself, on a device without it. */
  lemma PolicyRuns(cfg: Config, args: Pbr.Args)
    requires IsToken(args.name) && AllUsable(args.sequences) && args.name !in cfg.policies
    ensures Takes(POLICIES, cfg, Global, [Pbr.Header(args.name)] + Collect(args.sequences, Pbr.SequenceLines),
              WithPolicy(cfg, args.name, Declared(args)), InPolicy(args.name))
  {
    var name := args.name;
    EmptyPolicy(cfg, name, Declared(args));
    HeaderRead(name);
    LineRuns(cfg, Global, Pbr.Header(name));
    SequencesRun(WithPolicy(cfg, name, map[]), name, args.sequences);
    TakesThen(POLICIES, cfg, Global, [Pbr.Header(name)], WithPolicy(cfg, name, map[]), InPolicy(name),
              Collect(args.sequences, Pbr.SequenceLines), WithPolicy(cfg, name, Declared(args)), InPolicy(name));
  }

  function AttachedAll(cfg: Config, args: Pbr.Args): Config {
    cfg.(input := AllAtInput(cfg.input, args.attachments, args.name, true))
  }

  /** Leaving the policy and attaching it. */
  lemma TailRuns(cfg: Config, args: Pbr.Args)
    requires IsToken(args.name) && AllValid(args.attachments)
    ensures Takes(POLICIES, cfg, InPolicy(args.name), Pbr.Tail(args), AttachedAll(cfg, args), Global)
  {
    ExitRuns(cfg, args.name, "exit");
    AttachmentsRun(cfg, args.attachments, args.name, true);
    TakesThen(POLICIES, cfg, InPolicy(args.name), ["exit"], cfg, Global,
              Collect(args.attachments, Pbr.AttachLines(args.name)), AttachedAll(cfg, args), Global);
  }

  lemma ExitRuns(cfg: Config, name: string, line: string)
    requires line == "exit"
    ensures Takes(POLICIES, cfg, InPolicy(name), [line], cfg, Global)
  {
    ExitRead();
    LineRuns(cfg, InPolicy(name), line);
  }

  function Applied(cfg: Config, args: Pbr.Args): Config {
    AttachedAll(WithPolicy(Freed(cfg, args), args.name, Declared(args)), args)
  }

  lemma RenderedRuns(cfg: Config, args: Pbr.Args)
    requires IsToken(args.name) && AllUsable(args.sequences) && AllValid(args.attachments)
    ensures Takes(POLICIES, cfg, Global, Pbr.Rendered(args), Applied(cfg, args), Global)
  {
    var name := args.name;
    var body := [Pbr.Header(name)] + Collect(args.sequences, Pbr.SequenceLines);
    var freed, built := Freed(cfg, args), WithPolicy(Freed(cfg, args), name, Declared(args));
    LeadRuns(cfg, args);
    PolicyRuns(freed, args);
    TailRuns(built, args);
    TakesThen(POLICIES, cfg, Global, Pbr.Lead(args), freed, Global, body, built, InPolicy(name));
    TakesThen(POLICIES, cfg, Global, Pbr.Lead(args) + body, built, InPolicy(name), Pbr.Tail(args),
              Applied(cfg, args), Global);
  }

  /** The policy is exactly as declared, or gone; its listed interfaces have it, or have it
      no longer; every other policy and every other interface is as before. */
  ghost predicate LeavesDeclared(before: Config, after: Config, args: Pbr.Args, remove: bool) {
    if remove then
      after.policies == before.policies - {args.name}
      && DetachedFrom(before.input, after.input, args.attachments, args.name)
    else
      after.policies == before.policies[args.name := Declared(args)]
      && AttachedTo(before.input, after.input, args.attachments, args.name)
  }

  function Left(cfg: Config, args: Pbr.Args, remove: bool): Config {
    if remove then Freed(cfg, args) else Applied(cfg, args)
  }

  lemma StagedRuns(cfg: Config, args: Pbr.Args, remove: bool)
    requires IsToken(args.name) && AllValid(args.attachments) && (!remove ==> AllUsable(args.sequences))
    ensures Takes(POLICIES, cfg, Global, Pbr.Staged(args, remove), Left(cfg, args, remove), Global)
  {
    if remove {
      LeadRuns(cfg, args);
    } else {
      RenderedRuns(cfg, args);
    }
  }

  lemma LeftIsDeclared(cfg: Config, args: Pbr.Args, remove: bool)
    ensures LeavesDeclared(cfg, Left(cfg, args, remove), args, remove)
  {
    Detached(cfg.input, args.attachments, args.name);
    if !remove {
      Attached(AllAtInput(cfg.input, args.attachments, args.name, false), args.attachments, args.name);
      assert (cfg.policies - {args.name})[args.name := Declared(args)] == cfg.policies[args.name := Declared(args)];
    }
  }

  lemma ValidUsable(args: Pbr.Args, isAddr: string -> bool)
    requires Pbr.ValidArgs(args, isAddr) && WordsOnly(args)
    ensures AllUsable(args.sequences) && AllValid(args.attachments)
  {
    forall i | 0 <= i < |args.sequences|
      ensures WordsOf(args.sequences[i]) && Pbr.ActionCount(args.sequences[i].action) == 1
    {
      assert Pbr.ValidSequence(args.sequences[i], isAddr);
    }
  }

  /** From any prior state: applying leaves the policy exactly as declared, at the input of
      every listed interface, and removing leaves it out, at the input of none of them;
      nothing else changes. */
  lemma Converges(cfg: Config, args: Pbr.Args, remove: bool, isAddr: string -> bool)
    requires Pbr.ValidArgs(args, isAddr) && IsToken(args.name) && (!remove ==> WordsOnly(args))
    ensures LeavesDeclared(cfg, Run(POLICIES, cfg, Pbr.Staged(args, remove)), args, remove)
  {
    if !remove {
      ValidUsable(args, isAddr);
    }
    StagedRuns(cfg, args, remove);
    LeftIsDeclared(cfg, args, remove);
  }

  /** With distinct numbers, the declared policy holds every sequence's class and action,
      and no other number. */
  lemma DeclaredExactly(args: Pbr.Args)
    requires DistinctKeys(args.sequences, SeqOf)
    ensures forall i :: 0 <= i < |args.sequences| ==>
              var s := args.sequences[i];
              SeqOf(s) in Declared(args) && Declared(args)[SeqOf(s)] == RuleOf(s)
    ensures forall n :: n in Declared(args) ==> HasKey(args.sequences, SeqOf, n)
  {
    forall i | 0 <= i < |args.sequences|
      ensures var s := args.sequences[i];
              SeqOf(s) in Declared(args) && Declared(args)[SeqOf(s)] == RuleOf(s)
    {
      TableValue(args.sequences, SeqOf, RuleOf, i);
    }
    forall n | n in Declared(args) ensures HasKey(args.sequences, SeqOf, n) {
      TableKeys(args.sequences, SeqOf, RuleOf, n);
    }
  }

  /** An interface that is no longer listed keeps the policy: an update does not detach it. */
  lemma DroppedInterfaceKeepsPolicy(cfg: Config, args: Pbr.Args, iface: string, isAddr: string -> bool)
    requires Pbr.ValidArgs(args, isAddr) && WordsOnly(args)
    requires iface in cfg.input && cfg.input[iface] == args.name
    ensures var after := Run(POLICIES, cfg, Pbr.Staged(args, false));
            iface in after.input && after.input[iface] == args.name
  {
    Converges(cfg, args, false, isAddr);
  }

  /** One apply over a network that may break any call: the configuration is as before, or
      the commit was reached and the policy is exactly as declared, or gone. */
  lemma ApplyLeavesDeclared(show: Config -> seq<string>, dev: Device<Config>, session: string, args: Pbr.Args,
                            remove: bool, nets: Nets, isAddr: string -> bool)
    requires IsToken(session)
    requires Pbr.ValidArgs(args, isAddr) && IsToken(args.name) && (!remove ==> WordsOnly(args))
    ensures var sem := SemanticsOf(POLICIES, show);
            var after := AfterApply(sem, dev, session, Pbr.Staged(args, remove), nets).running;
            if Commits(nets)
            then LeavesDeclared(Replay(sem, dev.running, Batches(dev, session)), after, args, remove)
            else after == dev.running
  {
    var cmds := Pbr.Staged(args, remove);
    var before := Replay(SemanticsOf(POLICIES, show), dev.running, Batches(dev, session));
    if !remove {
      ValidUsable(args, isAddr);
    }
    assert cmds != [];
    StagedRuns(before, args, remove);
    LeftIsDeclared(before, args, remove);
    ApplyTakes(POLICIES, show, dev, session, cmds, nets, Left(before, args, remove), Global);
  }
  // ---- texts that are not one word --------------------------------------------------------------

  predicate HeldAction(a: Action) {
    match a
    case ToHop(address, vrf) => IsToken(address) && (vrf.Some? ==> IsToken(vrf.value))
    case ToGroup(group) => IsToken(group)
    case _ => true
  }

  ghost predicate HeldRules(rules: map<int, Rule>) {
    forall n :: n in rules ==> IsToken(rules[n].class_) && HeldAction(rules[n].action)
  }

  /** A device holds words. */
  ghost predicate Held(cfg: Config) {
    && (forall name :: name in cfg.policies ==> IsToken(name) && HeldRules(cfg.policies[name]))
    && (forall i :: i in cfg.input ==> IsToken(cfg.input[i]))
  }

  predicate HeldMode(mode: Mode) {
    match mode
    case InPolicy(name) => IsToken(name)
    case InRule(name, _) => IsToken(name)
    case _ => true
  }

  predicate HeldCommand(cmd: Command) {
    match cmd
    case EnterPolicy(name) => IsToken(name)
    case EnterRule(_, class_) => IsToken(class_)
    case SetAction(action) => HeldAction(action)
    case Attach(name) => IsToken(name)
    case Detach(name) => IsToken(name)
    case NoPolicy(name) => IsToken(name)
    case _ => true
  }

  lemma WordHeld(words: seq<string>, i: nat)
    requires AllTokens(words) && i < |words|
    ensures IsToken(words[i]) && AllTokens(words[1..])
  {
  }

  lemma SetHeld(words: seq<string>)
    requires AllTokens(words)
    ensures HeldCommand(SetCommand(words))
  {
    if |words| >= 2 {
      WordHeld(words, 1);
    }
    if |words| == 4 {
      WordHeld(words, 3);
    }
  }

  lemma NoHeld(words: seq<string>)
    requires AllTokens(words)
    ensures HeldCommand(NoCommand(words))
  {
    if |words| > 0 {
      WordHeld(words, |words| - 1);
    }
  }

  lemma CommandHeld(line: string)
    ensures HeldCommand(CommandOf(line))
  {
    var words := Fields(line);
    if words != [] {
      WordHeld(words, |words| - 1);
      SetHeld(words[1..]);
      NoHeld(words[1..]);
    }
  }

  lemma WithRuleHeld(cfg: Config, name: string, n: int, rule: Rule)
    requires Held(cfg) && IsToken(name) && IsToken(rule.class_) && HeldAction(rule.action)
    ensures Held(WithRule(cfg, name, n, rule))
  {
    assert HeldRules(RulesOf(cfg, name));
    assert HeldRules(RulesOf(cfg, name)[n := rule]);
  }

  lemma ExecuteHeld(cfg: Config, mode: Mode, cmd: Command)
    requires Held(cfg) && HeldMode(mode) && HeldCommand(cmd)
    ensures Held(Execute(cfg, mode, cmd)) && HeldMode(NextMode(mode, cmd))
  {
    match cmd
    case EnterPolicy(name) => assert HeldRules(RulesOf(cfg, name));
    case EnterRule(n, class_) =>
      if mode.InPolicy? || mode.InRule? {
        WithRuleHeld(cfg, mode.name, n, Rule(class_, NoAction));
      }
    case SetAction(action) =>
      if mode.InRule? && mode.n in RulesOf(cfg, mode.name) {
        assert HeldRules(RulesOf(cfg, mode.name));
        WithRuleHeld(cfg, mode.name, mode.n, RulesOf(cfg, mode.name)[mode.n].(action := action));
      }
    case _ =>
  }

  /** Whatever is typed, a device keeps holding words only. */
  lemma {:induction false} RunHeld(cfg: Config, mode: Mode, lines: seq<string>)
    requires Held(cfg) && HeldMode(mode)
    ensures Held(Effect(POLICIES, cfg, mode, lines)) && HeldMode(ModeFrom(POLICIES, mode, lines))
  {
    if lines != [] {
      var n := |lines| - 1;
      RunHeld(cfg, mode, lines[..n]);
      CommandHeld(lines[n]);
      ExecuteHeld(Effect(POLICIES, cfg, mode, lines[..n]), ModeFrom(POLICIES, mode, lines[..n]), CommandOf(lines[n]));
    }
  }

  lemma DeclaredHeld(args: Pbr.Args, isAddr: string -> bool)
    requires Pbr.ValidArgs(args, isAddr) && DistinctKeys(args.sequences, SeqOf) && HeldRules(Declared(args))
    ensures forall i :: 0 <= i < |args.sequences| ==> WordsOf(args.sequences[i])
  {
    forall i | 0 <= i < |args.sequences| ensures WordsOf(args.sequences[i]) {
      assert Pbr.ValidSequence(args.sequences[i], isAddr);
      TableValue(args.sequences, SeqOf, RuleOf, i);
      assert HeldAction(ActionOf(args.sequences[i].action));
    }
  }

  /** Validation lets names and classes with blanks in them through, and any group name. When
      the sequence numbers are distinct, a device reaches the declared policy if and only if
      all the texts are single words. */
  lemma ConvergesExactly(cfg: Config, args: Pbr.Args, isAddr: string -> bool)
    requires Pbr.ValidArgs(args, isAddr) && DistinctKeys(args.sequences, SeqOf) && Held(cfg)
    ensures LeavesDeclared(cfg, Run(POLICIES, cfg, Pbr.Staged(args, false)), args, false) <==> WordsOnly(args)
  {
    var after := Run(POLICIES, cfg, Pbr.Staged(args, false));
    if WordsOnly(args) {
      Converges(cfg, args, false, isAddr);
    }
    if LeavesDeclared(cfg, after, args, false) {
      RunHeld(cfg, Global, Pbr.Staged(args, false));
      assert args.name in after.policies && after.policies[args.name] == Declared(args);
      DeclaredHeld(args, isAddr);
    }
  }

  /** Lines that are read alike do the same. */
  lemma {:induction false} SameCommands(cfg: Config, mode: Mode, a: seq<string>, b: seq<string>)
    requires |a| == |b| && forall i :: 0 <= i < |a| ==> CommandOf(a[i]) == CommandOf(b[i])
    ensures Effect(POLICIES, cfg, mode, a) == Effect(POLICIES, cfg, mode, b)
    ensures ModeFrom(POLICIES, mode, a) == ModeFrom(POLICIES, mode, b)
  {
    if a != [] {
      SameCommands(cfg, mode, a[..|a| - 1], b[..|b| - 1]);
    }
  }
  lemma ServiceHead()
    ensures Fields("service-policy type pbr input") == ["service-policy", "type", "pbr", "input"]
  {
    ServiceWords();
    Words4("service-policy", "type", "pbr", "input");
  }

  lemma ServiceWords()
    ensures "service-policy type pbr input" == "service-policy" + " " + "type" + " " + "pbr" + " " + "input"
  {
  }

  lemma MapHead()
    ensures Fields("policy-map type pbr") == ["policy-map", "type", "pbr"]
  {
    MapWords();
    Words3("policy-map", "type", "pbr");
  }

  lemma MapWords()
    ensures "policy-map type pbr" == "policy-map" + " " + "type" + " " + "pbr"
  {
  }

  lemma PolicyTail(name: string)
    ensures "service-policy type pbr input " + name == "service-policy type pbr input" + " " + name
    ensures Pbr.Header(name) == "policy-map type pbr" + " " + name
  {
  }

  lemma NoService(words: seq<string>)
    ensures NoCommand(["service-policy", "type", "pbr", "input"] + words)
         == if |words| == 1 then Detach(words[0]) else Unknown
  {
  }

  lemma NoMap(words: seq<string>)
    ensures NoCommand(["policy-map", "type", "pbr"] + words) == if |words| == 1 then NoPolicy(words[0]) else Unknown
  {
  }

  lemma DetachRead(name: string)
    ensures CommandOf("no service-policy type pbr input " + name)
         == if |Fields(name)| == 1 then Detach(Fields(name)[0]) else Unknown
  {
    ServiceHead();
    PolicyTail(name);
    NoPolicyLine(name);
    FieldsAppend("service-policy type pbr input", name);
    NoWord("service-policy type pbr input " + name, ["service-policy", "type", "pbr", "input"] + Fields(name));
    NoService(Fields(name));
  }

  lemma RemovalRead(name: string)
    ensures CommandOf("no " + Pbr.Header(name))
         == if |Fields(name)| == 1 then NoPolicy(Fields(name)[0]) else Unknown
  {
    MapHead();
    PolicyTail(name);
    FieldsAppend("policy-map type pbr", name);
    NoWord(Pbr.Header(name), ["policy-map", "type", "pbr"] + Fields(name));
    NoMap(Fields(name));
  }

  /** A name of one word, with blanks around it or not, is read as that word; any other name
      makes the lines unreadable. */
  lemma NameRead(name: string)
    ensures var words := Fields(name);
            && CommandOf("no service-policy type pbr input " + name)
               == (if |words| == 1 then Detach(words[0]) else Unknown)
            && CommandOf("no " + Pbr.Header(name)) == (if |words| == 1 then NoPolicy(words[0]) else Unknown)
  {
    DetachRead(name);
    RemovalRead(name);
  }

  lemma {:induction false} DetachReadAlike(attachments: seq<Pbr.Attachment>, name: string, word: string)
    requires Fields(name) == [word]
    ensures var a := Collect(attachments, Pbr.DetachLines(name));
            var b := Collect(attachments, Pbr.DetachLines(word));
            |a| == |b| && forall i :: 0 <= i < |a| ==> CommandOf(a[i]) == CommandOf(b[i])
  {
    if attachments != [] {
      DetachReadAlike(attachments[..|attachments| - 1], name, word);
      DetachAlike(name, word);
    }
  }

  lemma DetachAlike(name: string, word: string)
    requires Fields(name) == [word]
    ensures CommandOf("no service-policy type pbr input " + name)
         == CommandOf("no service-policy type pbr input " + word)
  {
    assert AllTokens(Fields(name)) && Fields(name)[0] == word;
    FieldsToken(word);
    DetachRead(name);
    DetachRead(word);
  }

  lemma LeadReadAlike(cfg: Config, args: Pbr.Args, word: string)
    requires Fields(args.name) == [word] && AllValid(args.attachments)
    ensures Run(POLICIES, cfg, Pbr.Lead(args)) == Freed(cfg, args.(name := word))
  {
    var trimmed := args.(name := word);
    assert AllTokens(Fields(args.name)) && Fields(args.name)[0] == word;
    FieldsToken(word);
    NameRead(args.name);
    NameRead(word);
    DetachReadAlike(args.attachments, args.name, word);
    SameCommands(cfg, Global, Pbr.Lead(args), Pbr.Lead(trimmed));
    LeadRuns(cfg, trimmed);
  }

  lemma QuietBlock(cfg: Config, at: Pbr.Attachment, name: string)
    requires |Fields(name)| != 1 && Pbr.ValidAttachment(at)
    ensures Effect(POLICIES, cfg, Global, Pbr.DetachLines(name)(at)) == cfg
    ensures ModeFrom(POLICIES, Global, Pbr.DetachLines(name)(at)) == Global
  {
    Pbr.InterfaceToken(at.iface);
    InterfaceRead(at.iface);
    DetachRead(name);
    ExitRead();
    QuietLines(cfg, at.iface, "interface " + at.iface, "no service-policy type pbr input " + name, "exit");
  }

  lemma QuietLines(cfg: Config, iface: string, a: string, b: string, c: string)
    requires CommandOf(a) == EnterInterface(iface) && CommandOf(b) == Unknown && CommandOf(c) == Exit
    ensures Effect(POLICIES, cfg, Global, [a, b, c]) == cfg && ModeFrom(POLICIES, Global, [a, b, c]) == Global
  {
    ThreeLines(POLICIES, cfg, Global, a, b, c);
  }

  lemma {:induction false} QuietLead(cfg: Config, attachments: seq<Pbr.Attachment>, name: string)
    requires |Fields(name)| != 1 && AllValid(attachments)
    ensures Effect(POLICIES, cfg, Global, Collect(attachments, Pbr.DetachLines(name))) == cfg
    ensures ModeFrom(POLICIES, Global, Collect(attachments, Pbr.DetachLines(name))) == Global
  {
    if attachments != [] {
      var k := |attachments| - 1;
      assert forall i :: 0 <= i < k ==> attachments[..k][i] == attachments[i];
      QuietLead(cfg, attachments[..k], name);
      QuietBlock(cfg, attachments[k], name);
      LinesAppend(POLICIES, cfg, Global, Collect(attachments[..k], Pbr.DetachLines(name)),
                  Pbr.DetachLines(name)(attachments[k]));
      ModeAppend(POLICIES, Global, Collect(attachments[..k], Pbr.DetachLines(name)),
                 Pbr.DetachLines(name)(attachments[k]));
    }
  }

  lemma NothingRemoved(cfg: Config, args: Pbr.Args)
    requires |Fields(args.name)| != 1 && AllValid(args.attachments)
    ensures Run(POLICIES, cfg, Pbr.Lead(args)) == cfg
  {
    QuietLead(cfg, args.attachments, args.name);
    RemovalRead(args.name);
    QuietLast(cfg, Collect(args.attachments, Pbr.DetachLines(args.name)), "no " + Pbr.Header(args.name));
  }

  lemma QuietLast(cfg: Config, lines: seq<string>, line: string)
    requires Effect(POLICIES, cfg, Global, lines) == cfg && CommandOf(line) == Unknown
    ensures Effect(POLICIES, cfg, Global, lines + [line]) == cfg
  {
    MoreLines(POLICIES, cfg, Global, lines, line);
  }

  predicate AtIface(cfg: Config, iface: string, name: string) {
    iface in cfg.input && cfg.input[iface] == name
  }

  /** The device has a policy of this name, or a listed interface has it at its input. */
  ghost predicate InUse(cfg: Config, attachments: seq<Pbr.Attachment>, name: string) {
    || name in cfg.policies
    || exists i :: 0 <= i < |attachments| && AtIface(cfg, attachments[i].iface, name)
  }

  lemma FreedExactly(cfg: Config, args: Pbr.Args, word: string)
    requires Held(cfg) && !IsToken(args.name)
    ensures LeavesDeclared(cfg, Freed(cfg, args.(name := word)), args, true) <==> !InUse(cfg, args.attachments, word)
  {
    var after := Freed(cfg, args.(name := word));
    Detached(cfg.input, args.attachments, word);
    assert cfg.policies - {args.name} == cfg.policies;
    if word in cfg.policies {
      assert word !in after.policies;
    } else {
      assert cfg.policies - {word} == cfg.policies;
    }
    forall i | 0 <= i < |args.attachments| ensures Listed(args.attachments, args.attachments[i].iface) {
    }
  }

  lemma NothingMissing(cfg: Config, args: Pbr.Args)
    requires Held(cfg) && !IsToken(args.name)
    ensures LeavesDeclared(cfg, cfg, args, true)
  {
    assert cfg.policies - {args.name} == cfg.policies;
  }

  /** A removal leaves out exactly the named policy, unless the name is some other policy's
      name with blanks around it, and that policy is there or at a listed interface: then
      it is that one that goes. */
  lemma RemovesExactly(cfg: Config, args: Pbr.Args)
    requires Held(cfg) && AllValid(args.attachments)
    ensures LeavesDeclared(cfg, Run(POLICIES, cfg, Pbr.Staged(args, true)), args, true)
       <==> (IsToken(args.name) || |Fields(args.name)| != 1
             || !InUse(cfg, args.attachments, Fields(args.name)[0]))
  {
    if IsToken(args.name) {
      StagedRuns(cfg, args, true);
      LeftIsDeclared(cfg, args, true);
    } else if |Fields(args.name)| != 1 {
      NothingRemoved(cfg, args);
      NothingMissing(cfg, args);
    } else {
      LeadReadAlike(cfg, args, Fields(args.name)[0]);
      FreedExactly(cfg, args, Fields(args.name)[0]);
    }
  }

  /** A policy that was attached to an interface and is then declared without it: the
      interface keeps it. */
  lemma DroppedInterfaceStays(cfg: Config, isAddr: string -> bool) returns (before: Pbr.Args, args: Pbr.Args)
    ensures Pbr.ValidArgs(before, isAddr) && Pbr.ValidArgs(args, isAddr)
    ensures before.attachments == [Pbr.Attachment("Ethernet1", None)] && args == before.(attachments := [])
    ensures var first := Run(POLICIES, cfg, Pbr.Staged(before, false));
            var after := Run(POLICIES, first, Pbr.Staged(args, false));
            "Ethernet1" in after.input && after.input["Ethernet1"] == args.name
  {
    var drop := Pbr.Sequence(10, "C", Pbr.Action(None, None, None, Some(true)));
    before := Pbr.Args("P", [drop], [Pbr.Attachment("Ethernet1", None)]);
    args := before.(attachments := []);
    EthernetOne("Ethernet1");
    OneLetter("P");
    OneLetter("C");
    Converges(cfg, before, false, isAddr);
    assert before.attachments[0].iface == "Ethernet1";
    assert Listed(before.attachments, "Ethernet1");
    DroppedInterfaceKeepsPolicy(Run(POLICIES, cfg, Pbr.Staged(before, false)), args, "Ethernet1", isAddr);
  }

  lemma EthernetOne(name: string)
    requires name == "Ethernet1"
    ensures Pbr.IsInterface(name)
  {
    assert name[|"Ethernet"|..] == "1";
    assert Pbr.AfterKind(name, "Ethernet");
  }

  lemma OneLetter(s: string)
    requires |s| == 1 && !IsSpace(s[0])
    ensures IsToken(s) && TrimSpace(s) == s
  {
  }
}
