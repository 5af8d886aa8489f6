/** What the staged route-map commands do to a device, from any prior state. */
module RouteMapDevice {
  import opened Seqs
  import opened Sorting
  import opened Text
  import opened Eapi
  import opened Eos
  import opened RouteMap

  /** Every argument of the entry is one word. */
  ghost predicate WordsOnly(e: Entry) {
    forall c: Clause :: AllTokens(ClauseArgs(e, c))
  }

  ghost predicate AllWordsOnly(es: seq<Entry>) {
    forall i :: 0 <= i < |es| ==> WordsOnly(es[i])
  }

  // ---- the declared state --------------------------------------------------------------

  function DeclaredClauses(e: Entry, cs: seq<Clause>): map<Clause, seq<string>> {
    map c | c in cs && ClauseArgs(e, c) != [] :: ClauseArgs(e, c)
  }

  /** The block as declared: the action, and exactly the clauses that are given. */
  function BlockOf(e: Entry): Block {
    Block(e.action, DeclaredClauses(e, ORDER))
  }

  /** The configuration with one route-map replaced, or left out. */
  function HasMap(cfg: Config, name: string, blocks: Option<map<int, Block>>): Config {
    match blocks
    case None => cfg.(routeMaps := cfg.routeMaps - {name})
    case Some(v) => cfg.(routeMaps := cfg.routeMaps[name := v])
  }

  function Declared(args: Args): map<int, Block> {
    Table(args.entries, SeqOf, BlockOf)
  }

  lemma OrderIsComplete(c: Clause)
    ensures c in ORDER
  {
    var all := ORDER;
    match c
    case MatchIpPrefixList => assert all[0] == c;
    case MatchAsPath => assert all[1] == c;
    case MatchCommunity => assert all[2] == c;
    case MatchExtcommunity => assert all[3] == c;
    case MatchInterface => assert all[4] == c;
    case MatchLocalPreference => assert all[5] == c;
    case MatchMetric => assert all[6] == c;
    case MatchSourceProtocol => assert all[7] == c;
    case MatchTag => assert all[8] == c;
    case SetAsPathPrepend => assert all[9] == c;
    case SetCommunity => assert all[10] == c;
    case SetExtcommunityRt => assert all[11] == c;
    case SetIpNextHop => assert all[12] == c;
    case SetLocalPreference => assert all[13] == c;
    case SetMetric => assert all[14] == c;
    case SetOrigin => assert all[15] == c;
    case SetTag => assert all[16] == c;
    case ContinueAt => assert all[17] == c;
  }

  /** A declared map holds exactly its entries, each with exactly its clauses. */
  lemma DeclaredExactly(args: Args, i: nat, c: Clause, n: int)
    requires ValidArgs(args) && i < |args.entries|
    ensures var e := args.entries[i];
            && SeqOf(e) in Declared(args)
            && Declared(args)[SeqOf(e)].action == e.action
            && (c in Declared(args)[SeqOf(e)].clauses <==> ClauseArgs(e, c) != [])
            && (ClauseArgs(e, c) != [] ==> Declared(args)[SeqOf(e)].clauses[c] == ClauseArgs(e, c))
    ensures n in Declared(args) <==> HasKey(args.entries, SeqOf, n)
  {
    TableValue(args.entries, SeqOf, BlockOf, i);
    TableKeys(args.entries, SeqOf, BlockOf, n);
    OrderIsComplete(c);
  }

  // ---- the device's reading of each line -------------------------------------------------

  lemma MatchWords(key: string, args: seq<string>)
    requires args != []
    ensures CommandOfWords("", ["match", key] + args) == MatchClause([key] + args)
  {
    assert (["match", key] + args)[1..] == [key] + args;
  }

  lemma SetWords(key: string, args: seq<string>)
    requires args != []
    ensures CommandOfWords("", ["set", key] + args) == SetCommand([key] + args)
  {
    assert (["set", key] + args)[1..] == [key] + args;
  }

  /** Only remark lines are read by more than their words. */
  lemma LineIrrelevant(line: string, words: seq<string>)
    requires |words| >= 1 && words[0] != "ip"
    ensures CommandOfWords(line, words) == CommandOfWords("", words)
  {
  }

  lemma SimpleMatch(c: Clause, key: string, args: seq<string>)
    requires args != []
    requires (c == MatchAsPath && key == "as-path") || (c == MatchCommunity && key == "community")
             || (c == MatchExtcommunity && key == "extcommunity") || (c == MatchInterface && key == "interface")
             || (c == MatchLocalPreference && key == "local-preference") || (c == MatchMetric && key == "metric")
             || (c == MatchSourceProtocol && key == "source-protocol") || (c == MatchTag && key == "tag")
    ensures MatchClause([key] + args) == SetClause(c, args)
  {
    ConsParts(key, args);
  }

  lemma SimpleSet(c: Clause, key: string, args: seq<string>)
    requires args != []
    requires (c == SetCommunity && key == "community") || (c == SetLocalPreference && key == "local-preference")
             || (c == SetMetric && key == "metric") || (c == SetOrigin && key == "origin")
             || (c == SetTag && key == "tag")
    ensures SetCommand([key] + args) == SetClause(c, args)
  {
    ConsParts(key, args);
  }

  lemma IpMatch(args: seq<string>)
    requires args != []
    ensures MatchClause(["ip", "address", "prefix-list"] + args) == SetClause(MatchIpPrefixList, args)
  {
    assert (["ip", "address", "prefix-list"] + args)[3..] == args;
  }

  lemma LongSet(c: Clause, key: string, second: string, args: seq<string>)
    requires args != []
    requires (c == SetAsPathPrepend && key == "as-path" && second == "prepend")
             || (c == SetExtcommunityRt && key == "extcommunity" && second == "rt")
             || (c == SetIpNextHop && key == "ip" && second == "next-hop")
    ensures SetCommand([key, second] + args) == SetClause(c, args)
  {
    assert ([key, second] + args)[2..] == args;
  }

  lemma ContinueWords(args: seq<string>)
    requires args != []
    ensures CommandOfWords("", ["continue"] + args) == SetClause(ContinueAt, args)
  {
    ConsParts("continue", args);
  }

  function SecondWord(c: Clause): string {
    if c == ContinueAt then "" else Keyword(c)[1]
  }

  lemma KeywordCommand(c: Clause, args: seq<string>)
    requires args != []
    ensures CommandOfWords("", Keyword(c) + args) == SetClause(c, args)
  {
    if c == ContinueAt {
      ContinueWords(args);
    } else if c == MatchIpPrefixList {
      LongMatchWords(args);
    } else if IsMatchClause(c) {
      MatchWords(SecondWord(c), args);
      SimpleMatch(c, SecondWord(c), args);
    } else if c == SetAsPathPrepend || c == SetExtcommunityRt || c == SetIpNextHop {
      LongSetWords(c, args);
    } else {
      SetWords(SecondWord(c), args);
      SimpleSet(c, SecondWord(c), args);
    }
  }

  lemma LongMatchWords(args: seq<string>)
    requires args != []
    ensures CommandOfWords("", Keyword(MatchIpPrefixList) + args) == SetClause(MatchIpPrefixList, args)
  {
    MatchWords("ip", ["address", "prefix-list"] + args);
    assert ["match", "ip"] + (["address", "prefix-list"] + args) == Keyword(MatchIpPrefixList) + args;
    assert ["ip"] + (["address", "prefix-list"] + args) == ["ip", "address", "prefix-list"] + args;
    IpMatch(args);
  }

  lemma LongSetWords(c: Clause, args: seq<string>)
    requires args != []
    requires c == SetAsPathPrepend || c == SetExtcommunityRt || c == SetIpNextHop
    ensures CommandOfWords("", Keyword(c) + args) == SetClause(c, args)
  {
    ThreeWordSet(Keyword(c), args);
    LongSet(c, Keyword(c)[1], Keyword(c)[2], args);
  }

  lemma ThreeWordSet(keyword: seq<string>, args: seq<string>)
    requires |keyword| == 3 && keyword[0] == "set" && args != []
    ensures CommandOfWords("", keyword + args) == SetCommand([keyword[1], keyword[2]] + args)
  {
    var key, second := keyword[1], keyword[2];
    SetWords(key, [second] + args);
    assert ["set", key] + ([second] + args) == keyword + args;
    assert [key] + ([second] + args) == [key, second] + args;
  }

  /** The head of a clause line is its keyword and a space. */
  predicate HeadMatches(c: Clause) {
    Head(c) == Join(Keyword(c), " ") + " " && AllTokens(Keyword(c))
  }

  lemma HeadTwo(c: Clause, a: string, b: string)
    requires Keyword(c) == [a, b] && IsToken(a) && IsToken(b)
    requires Head(c) == a + " " + b + " "
    ensures HeadMatches(c)
  {
    Words2(a, b);
  }

  lemma HeadThree(c: Clause, a: string, b: string, d: string)
    requires Keyword(c) == [a, b, d] && IsToken(a) && IsToken(b) && IsToken(d)
    requires Head(c) == a + " " + b + " " + d + " "
    ensures HeadMatches(c)
  {
    Words3(a, b, d);
  }

  lemma HeadFour(c: Clause, a: string, b: string, d: string, e: string)
    requires Keyword(c) == [a, b, d, e] && IsToken(a) && IsToken(b) && IsToken(d) && IsToken(e)
    requires Head(c) == a + " " + b + " " + d + " " + e + " "
    ensures HeadMatches(c)
  {
    Words4(a, b, d, e);
  }

  lemma MatchIpPrefixListHead()
    ensures HeadMatches(MatchIpPrefixList)
  {
    HeadFour(MatchIpPrefixList, "match", "ip", "address", "prefix-list");
  }

  lemma MatchAsPathHead()
    ensures HeadMatches(MatchAsPath)
  {
    HeadTwo(MatchAsPath, "match", "as-path");
  }

  lemma MatchCommunityHead()
    ensures HeadMatches(MatchCommunity)
  {
    HeadTwo(MatchCommunity, "match", "community");
  }

  lemma MatchExtcommunityHead()
    ensures HeadMatches(MatchExtcommunity)
  {
    HeadTwo(MatchExtcommunity, "match", "extcommunity");
  }

  lemma MatchInterfaceHead()
    ensures HeadMatches(MatchInterface)
  {
    HeadTwo(MatchInterface, "match", "interface");
  }

  lemma MatchLocalPreferenceHead()
    ensures HeadMatches(MatchLocalPreference)
  {
    HeadTwo(MatchLocalPreference, "match", "local-preference");
  }

  lemma MatchMetricHead()
    ensures HeadMatches(MatchMetric)
  {
    HeadTwo(MatchMetric, "match", "metric");
  }

  lemma MatchSourceProtocolHead()
    ensures HeadMatches(MatchSourceProtocol)
  {
    HeadTwo(MatchSourceProtocol, "match", "source-protocol");
  }

  lemma MatchTagHead()
    ensures HeadMatches(MatchTag)
  {
    HeadTwo(MatchTag, "match", "tag");
  }

  lemma SetAsPathPrependHead()
    ensures HeadMatches(SetAsPathPrepend)
  {
    HeadThree(SetAsPathPrepend, "set", "as-path", "prepend");
  }

  lemma SetCommunityHead()
    ensures HeadMatches(SetCommunity)
  {
    HeadTwo(SetCommunity, "set", "community");
  }

  lemma SetExtcommunityRtHead()
    ensures HeadMatches(SetExtcommunityRt)
  {
    HeadThree(SetExtcommunityRt, "set", "extcommunity", "rt");
  }

  lemma SetIpNextHopHead()
    ensures HeadMatches(SetIpNextHop)
  {
    HeadThree(SetIpNextHop, "set", "ip", "next-hop");
  }

  lemma SetLocalPreferenceHead()
    ensures HeadMatches(SetLocalPreference)
  {
    HeadTwo(SetLocalPreference, "set", "local-preference");
  }

  lemma SetMetricHead()
    ensures HeadMatches(SetMetric)
  {
    HeadTwo(SetMetric, "set", "metric");
  }

  lemma SetOriginHead()
    ensures HeadMatches(SetOrigin)
  {
    HeadTwo(SetOrigin, "set", "origin");
  }

  lemma SetTagHead()
    ensures HeadMatches(SetTag)
  {
    HeadTwo(SetTag, "set", "tag");
  }

  lemma ContinueHead()
    ensures HeadMatches(ContinueAt)
  {
    assert IsToken("continue");
  }

  lemma HeadIsKeyword(c: Clause)
    ensures HeadMatches(c)
  {
    match c
    case MatchIpPrefixList => MatchIpPrefixListHead();
    case MatchAsPath => MatchAsPathHead();
    case MatchCommunity => MatchCommunityHead();
    case MatchExtcommunity => MatchExtcommunityHead();
    case MatchInterface => MatchInterfaceHead();
    case MatchLocalPreference => MatchLocalPreferenceHead();
    case MatchMetric => MatchMetricHead();
    case MatchSourceProtocol => MatchSourceProtocolHead();
    case MatchTag => MatchTagHead();
    case SetAsPathPrepend => SetAsPathPrependHead();
    case SetCommunity => SetCommunityHead();
    case SetExtcommunityRt => SetExtcommunityRtHead();
    case SetIpNextHop => SetIpNextHopHead();
    case SetLocalPreference => SetLocalPreferenceHead();
    case SetMetric => SetMetricHead();
    case SetOrigin => SetOriginHead();
    case SetTag => SetTagHead();
    case ContinueAt => ContinueHead();
  }

  /** A clause line is read by the device as that clause with those arguments,
      and never ends the session. */
  lemma ClauseCommand(c: Clause, args: seq<string>)
    requires args != [] && AllTokens(args)
    ensures CommandOf(Head(c) + Join(args, " ")) == SetClause(c, args)
  {
    HeadIsKeyword(c);
    KeywordNotEmpty(c);
    KeywordLine(Head(c) + Join(args, " "), Keyword(c), args);
    LineIrrelevant(Head(c) + Join(args, " "), Keyword(c) + args);
    KeywordCommand(c, args);
  }

  lemma KeywordNotEmpty(c: Clause)
    ensures Keyword(c) != [] && Keyword(c)[0] != "ip"
  {
  }

  lemma KeywordLine(line: string, keyword: seq<string>, args: seq<string>)
    requires keyword != [] && args != [] && AllTokens(keyword) && AllTokens(args)
    requires line == Join(keyword, " ") + " " + Join(args, " ")
    ensures Fields(line) == keyword + args
  {
    JoinAppend(keyword, args, " ");
    FieldsJoin(keyword + args);
  }

  lemma NegateCommand(name: string)
    requires IsToken(name)
    ensures CommandOf(NegateCmd(name)) == NoRouteMap(name)
  {
    Words3("no", "route-map", name);
    NegateShape(name);
  }

  lemma NegateShape(name: string)
    ensures NegateCmd(name) == "no" + " " + "route-map" + " " + name
  {
  }

  lemma HeaderCommand(name: string, e: Entry)
    requires IsToken(name) && ValidEntry(e)
    ensures CommandOf(HeaderLine(name, e)) == EnterRouteMap(name, e.action, SeqOf(e))
  {
    ItoaToken(e.seqNo);
    AtoiItoa(e.seqNo);
    HeaderRead(name, e.action, Itoa(e.seqNo));
  }

  lemma HeaderRead(name: string, action: string, number: string)
    requires IsToken(name) && IsToken(number) && Atoi(number).Some?
    requires action == "permit" || action == "deny"
    ensures var line := "route-map " + name + " " + action + " " + number;
            CommandOf(line) == EnterRouteMap(name, action, Atoi(number).value)
  {
    HeaderShape(name, action, number);
    Words4("route-map", name, action, number);
    HeaderWords("route-map " + name + " " + action + " " + number, name, action, number);
  }

  lemma HeaderShape(name: string, action: string, number: string)
    ensures "route-map " + name + " " + action + " " + number
         == "route-map" + " " + name + " " + action + " " + number
  {
  }

  lemma HeaderWords(line: string, name: string, action: string, number: string)
    requires Fields(line) == ["route-map", name, action, number]
    requires action == "permit" || action == "deny"
    requires Atoi(number).Some?
    ensures CommandOf(line) == EnterRouteMap(name, action, Atoi(number).value)
  {
  }

  lemma ExitCommand()
    ensures CommandOf("exit") == Exit
  {
    FieldsToken("exit");
  }

  // ---- executing a block -------------------------------------------------------------------

  lemma WithBlockTwice(cfg: Config, name: string, n: int, a: Block, b: Block)
    ensures WithBlock(WithBlock(cfg, name, n, a), name, n, b) == WithBlock(cfg, name, n, b)
    ensures RouteMapOf(WithBlock(cfg, name, n, a), name) == RouteMapOf(cfg, name)[n := a]
  {
    var blocks := RouteMapOf(cfg, name);
    assert blocks[n := a][n := b] == blocks[n := b];
    assert cfg.routeMaps[name := blocks[n := a]][name := blocks[n := b]] == cfg.routeMaps[name := blocks[n := b]];
  }

  /** One clause line inside the block it belongs to. */
  lemma ClauseExecutes(cfg: Config, name: string, n: int, block: Block, line: string, c: Clause, args: seq<string>)
    requires CommandOf(line) == SetClause(c, args)
    ensures RunLines(WithBlock(cfg, name, n, block), InRouteMap(name, n), [line])
         == (WithBlock(cfg, name, n, WithClause(block, c, args)), InRouteMap(name, n))
  {
    RunOne(WithBlock(cfg, name, n, block), InRouteMap(name, n), line);
    WithBlockTwice(cfg, name, n, block, WithClause(block, c, args));
  }

  /** A clause with its arguments, or no clause when there are none. */
  function Put(block: Block, c: Clause, args: seq<string>): Block {
    if args == [] then block else block.(clauses := block.clauses[c := args])
  }

  lemma OneLineExecutes(cfg: Config, name: string, n: int, block: Block, c: Clause, args: seq<string>)
    requires AllTokens(args) && c !in block.clauses
    ensures RunLines(WithBlock(cfg, name, n, block), InRouteMap(name, n), OneLine(Head(c), args))
         == (WithBlock(cfg, name, n, Put(block, c, args)), InRouteMap(name, n))
  {
    if args != [] {
      ClauseCommand(c, args);
      ClauseExecutes(cfg, name, n, block, Head(c) + Join(args, " "), c, args);
      AppendEmpty(args);
    }
  }

  lemma PlainRtCommand(rt: string)
    requires IsToken(rt)
    ensures CommandOf(RtLine(rt, false)) == SetClause(SetExtcommunityRt, [rt])
  {
    assert RtLine(rt, false) == Head(SetExtcommunityRt) + rt;
    OneArgCommand(SetExtcommunityRt, rt);
  }

  lemma OneArgCommand(c: Clause, arg: string)
    requires IsToken(arg)
    ensures CommandOf(Head(c) + arg) == SetClause(c, [arg])
  {
    ClauseCommand(c, [arg]);
  }

  lemma AdditiveRtCommand(rt: string, word: string)
    requires IsToken(rt) && IsToken(word)
    ensures CommandOf(Head(SetExtcommunityRt) + (rt + " " + word)) == SetClause(SetExtcommunityRt, [rt, word])
  {
    Words2(rt, word);
    ClauseCommand(SetExtcommunityRt, [rt, word]);
  }

  lemma AdditiveToken()
    ensures IsToken("additive")
  {
  }

  lemma RtAdditiveShape(rt: string)
    ensures RtLine(rt, true) == Head(SetExtcommunityRt) + (rt + " " + "additive")
  {
    Associate(Head(SetExtcommunityRt), rt, " additive");
    Associate(rt, " ", "additive");
  }

  lemma RtCommand(rt: string, additive: bool, suffix: seq<string>)
    requires IsToken(rt) && suffix == if additive then ["additive"] else []
    ensures CommandOf(RtLine(rt, additive)) == SetClause(SetExtcommunityRt, [rt] + suffix)
  {
    if additive {
      AdditiveToken();
      RtAdditiveShape(rt);
      AdditiveRtCommand(rt, "additive");
    } else {
      PlainRtCommand(rt);
      AppendEmpty([rt]);
    }
  }

  /** Extended community lines add up. */
  lemma {:induction false} RtsExecute(cfg: Config, name: string, n: int, block: Block, lines: seq<string>,
                                      rts: seq<string>, suffix: seq<string>)
    requires |lines| == |rts| && SetExtcommunityRt !in block.clauses
    requires forall i :: 0 <= i < |rts| ==> CommandOf(lines[i]) == SetClause(SetExtcommunityRt, [rts[i]] + suffix)
    ensures RunLines(WithBlock(cfg, name, n, block), InRouteMap(name, n), lines)
         == (WithBlock(cfg, name, n, Put(block, SetExtcommunityRt, RtArgs(rts, suffix))), InRouteMap(name, n))
  {
    if rts != [] {
      var k := |rts| - 1;
      var front := RtArgs(rts[..k], suffix);
      RtsExecute(cfg, name, n, block, lines[..k], rts[..k], suffix);
      ClauseExecutes(cfg, name, n, Put(block, SetExtcommunityRt, front), lines[k], SetExtcommunityRt,
        [rts[k]] + suffix);
      RtStep(block, front, [rts[k]] + suffix);
      Snoc(lines);
      RunLinesAppend(WithBlock(cfg, name, n, block), InRouteMap(name, n), lines[..k], [lines[k]]);
    }
  }

  lemma RtStep(block: Block, front: seq<string>, more: seq<string>)
    requires SetExtcommunityRt !in block.clauses && more != []
    ensures WithClause(Put(block, SetExtcommunityRt, front), SetExtcommunityRt, more)
         == Put(block, SetExtcommunityRt, front + more)
  {
    if front == [] {
      AppendEmpty(more);
    } else {
      assert block.clauses[SetExtcommunityRt := front][SetExtcommunityRt := front + more]
          == block.clauses[SetExtcommunityRt := front + more];
    }
  }

  lemma {:induction false} RtArgsHaveRts(rts: seq<string>, suffix: seq<string>)
    requires AllTokens(RtArgs(rts, suffix))
    ensures AllTokens(rts)
  {
    if rts != [] {
      var k := |rts| - 1;
      var front, last := RtArgs(rts[..k], suffix), [rts[k]] + suffix;
      var all := front + last;
      assert all == RtArgs(rts, suffix);
      assert forall i :: 0 <= i < |front| ==> all[i] == front[i];
      assert all[|front|] == rts[k];
      RtArgsHaveRts(rts[..k], suffix);
      Snoc(rts);
    }
  }

  lemma RtLinesExecute(cfg: Config, name: string, n: int, block: Block, s: Set)
    requires AllTokens(s.extcommunityRt) && SetExtcommunityRt !in block.clauses
    ensures RunLines(WithBlock(cfg, name, n, block), InRouteMap(name, n),
            RtLines(s.extcommunityRt, Flag(s.extcommunityRtAdditive)))
         == (WithBlock(cfg, name, n, Put(block, SetExtcommunityRt, RtArgs(s.extcommunityRt, RtWords(s)))),
           InRouteMap(name, n))
  {
    var rts, additive, suffix := s.extcommunityRt, Flag(s.extcommunityRtAdditive), RtWords(s);
    var lines := RtLines(rts, additive);
    forall i | 0 <= i < |rts|
      ensures CommandOf(lines[i]) == SetClause(SetExtcommunityRt, [rts[i]] + suffix)
    {
      RtCommand(rts[i], additive, suffix);
    }
    RtsExecute(cfg, name, n, block, lines, rts, suffix);
  }

  lemma ClauseLinesExecute(cfg: Config, name: string, n: int, block: Block, e: Entry, c: Clause)
    requires AllTokens(ClauseArgs(e, c)) && c !in block.clauses
    ensures RunLines(WithBlock(cfg, name, n, block), InRouteMap(name, n), ClauseLines(e, c))
         == (WithBlock(cfg, name, n, Put(block, c, ClauseArgs(e, c))), InRouteMap(name, n))
  {
    if c == SetExtcommunityRt {
      SetOnly(e, c);
      if e.sets.Some? {
        var s := e.sets.value;
        RtArgsHaveRts(s.extcommunityRt, RtWords(s));
        RtLinesExecute(cfg, name, n, block, s);
      }
    } else {
      OneLineExecutes(cfg, name, n, block, c, ClauseArgs(e, c));
    }
  }

  predicate DistinctClauses(cs: seq<Clause>) {
    forall i, j :: 0 <= i < j < |cs| ==> cs[i] != cs[j]
  }

  lemma ClausesFront(cs: seq<Clause>)
    requires cs != [] && DistinctClauses(cs)
    ensures DistinctClauses(cs[..|cs| - 1]) && cs[|cs| - 1] !in cs[..|cs| - 1]
    ensures forall c :: c in cs <==> c in cs[..|cs| - 1] || c == cs[|cs| - 1]
  {
    var k := |cs| - 1;
    Snoc(cs);
    assert forall i :: 0 <= i < k ==> cs[..k][i] == cs[i];
  }

  lemma DeclaredStep(e: Entry, cs: seq<Clause>)
    requires cs != [] && DistinctClauses(cs)
    ensures cs[|cs| - 1] !in DeclaredClauses(e, cs[..|cs| - 1])
    ensures Put(Block(e.action, DeclaredClauses(e, cs[..|cs| - 1])), cs[|cs| - 1], ClauseArgs(e, cs[|cs| - 1]))
         == Block(e.action, DeclaredClauses(e, cs))
  {
    ClausesFront(cs);
    var k := |cs| - 1;
    var before, after, args := DeclaredClauses(e, cs[..k]), DeclaredClauses(e, cs), ClauseArgs(e, cs[k]);
    if args == [] {
      assert before == after;
    } else {
      assert before[cs[k] := args] == after;
    }
  }

  /** Clause by clause, the block becomes what is declared. */
  lemma {:induction false} BodyExecutes(cfg: Config, name: string, n: int, e: Entry, cs: seq<Clause>)
    requires WordsOnly(e) && DistinctClauses(cs)
    ensures RunLines(WithBlock(cfg, name, n, Block(e.action, map[])), InRouteMap(name, n), Collect(cs, LinesOf(e)))
         == (WithBlock(cfg, name, n, Block(e.action, DeclaredClauses(e, cs))), InRouteMap(name, n))
  {
    var blank := Block(e.action, map[]);
    if cs == [] {
      assert DeclaredClauses(e, cs) == map[];
    } else {
      var k := |cs| - 1;
      ClausesFront(cs);
      DeclaredStep(e, cs);
      BodyExecutes(cfg, name, n, e, cs[..k]);
      ClauseLinesExecute(cfg, name, n, Block(e.action, DeclaredClauses(e, cs[..k])), e, cs[k]);
      RunLinesAppend(WithBlock(cfg, name, n, blank), InRouteMap(name, n), Collect(cs[..k], LinesOf(e)),
        ClauseLines(e, cs[k]));
    }
  }

  lemma MatchOrderDistinct()
    ensures DistinctClauses(MATCH_ORDER)
    ensures forall c :: c in MATCH_ORDER ==> IsMatchClause(c)
  {
  }

  lemma SetOrderDistinct()
    ensures DistinctClauses(SET_ORDER + [ContinueAt])
    ensures forall c :: c in SET_ORDER + [ContinueAt] ==> !IsMatchClause(c)
  {
  }

  lemma DistinctJoin(a: seq<Clause>, b: seq<Clause>)
    requires DistinctClauses(a) && DistinctClauses(b)
    requires forall c :: c in a ==> IsMatchClause(c)
    requires forall c :: c in b ==> !IsMatchClause(c)
    ensures DistinctClauses(a + b)
  {
    forall i, j | 0 <= i < j < |a + b|
      ensures (a + b)[i] != (a + b)[j]
    {
      if i < |a| <= j {
        assert a[i] in a && b[j - |a|] in b;
      }
    }
  }

  lemma OrderDistinct()
    ensures DistinctClauses(ORDER)
  {
    MatchOrderDistinct();
    SetOrderDistinct();
    DistinctJoin(MATCH_ORDER, SET_ORDER + [ContinueAt]);
    Associate(MATCH_ORDER, SET_ORDER, [ContinueAt]);
  }

  /** One rendered block, on a device whose map does not have that sequence. */
  lemma EntryExecutes(cfg: Config, name: string, e: Entry)
    requires IsToken(name) && ValidEntry(e) && WordsOnly(e)
    requires SeqOf(e) !in RouteMapOf(cfg, name)
    ensures RunLines(cfg, Global, EntryLines(name, e)) == (WithBlock(cfg, name, SeqOf(e), BlockOf(e)), Global)
  {
    var inside := WithBlock(cfg, name, SeqOf(e), Block(e.action, map[]));
    EnterExecutes(cfg, name, e);
    BodyByClause(e);
    OrderDistinct();
    BodyExecutes(cfg, name, SeqOf(e), e, ORDER);
    ExitExecutes(WithBlock(cfg, name, SeqOf(e), BlockOf(e)), InRouteMap(name, SeqOf(e)));
    RunThree(cfg, Global, [HeaderLine(name, e)], BodyLines(e), ["exit"]);
  }

  lemma EnterExecutes(cfg: Config, name: string, e: Entry)
    requires IsToken(name) && ValidEntry(e)
    requires SeqOf(e) !in RouteMapOf(cfg, name)
    ensures RunLines(cfg, Global, [HeaderLine(name, e)])
         == (WithBlock(cfg, name, SeqOf(e), Block(e.action, map[])), InRouteMap(name, SeqOf(e)))
  {
    HeaderCommand(name, e);
    RunOne(cfg, Global, HeaderLine(name, e));
  }

  lemma ExitExecutes(cfg: Config, mode: Mode)
    ensures RunLines(cfg, mode, ["exit"]) == (cfg, Global)
  {
    ExitCommand();
    RunOne(cfg, mode, "exit");
  }

  lemma RunThree(cfg: Config, mode: Mode, a: seq<string>, b: seq<string>, c: seq<string>)
    ensures RunLines(cfg, mode, a + b + c) ==
            var (cfg1, mode1) := RunLines(cfg, mode, a);
            var (cfg2, mode2) := RunLines(cfg1, mode1, b);
            RunLines(cfg2, mode2, c)
  {
    RunLinesAppend(cfg, mode, a + b, c);
    RunLinesAppend(cfg, mode, a, b);
  }

  // ---- convergence ----------------------------------------------------------------------------

  lemma TableStep(cfg: Config, name: string, table: map<int, Block>, n: int, block: Block)
    ensures WithBlock(HasMap(cfg, name, Some(table)), name, n, block) == HasMap(cfg, name, Some(table[n := block]))
    ensures name !in cfg.routeMaps ==> WithBlock(cfg, name, n, block) == HasMap(cfg, name, Some(map[n := block]))
    ensures RouteMapOf(HasMap(cfg, name, Some(table)), name) == table
  {
    assert cfg.routeMaps[name := table][name := table[n := block]] == cfg.routeMaps[name := table[n := block]];
  }

  /** The state after some of the entries. */
  function Partly(cfg: Config, name: string, es: seq<Entry>): Config {
    if es == [] then cfg else HasMap(cfg, name, Some(Table(es, SeqOf, BlockOf)))
  }

  lemma PartlySnoc(cfg: Config, name: string, es: seq<Entry>, e: Entry)
    requires name !in cfg.routeMaps
    requires forall i :: 0 <= i < |es| ==> SeqOf(es[i]) != SeqOf(e)
    ensures SeqOf(e) !in RouteMapOf(Partly(cfg, name, es), name)
    ensures WithBlock(Partly(cfg, name, es), name, SeqOf(e), BlockOf(e)) == Partly(cfg, name, es + [e])
  {
    TableKeys(es, SeqOf, BlockOf, SeqOf(e));
    TableSnoc(es, e, SeqOf, BlockOf);
    TableStep(cfg, name, Table(es, SeqOf, BlockOf), SeqOf(e), BlockOf(e));
    if es == [] {
      assert Table(es, SeqOf, BlockOf) == map[];
    }
  }

  lemma {:induction false} EntriesExecute(cfg: Config, name: string, es: seq<Entry>)
    requires IsToken(name) && name !in cfg.routeMaps
    requires ValidEntries(es) && AllWordsOnly(es) && DistinctKeys(es, SeqOf)
    ensures RunLines(cfg, Global, AllEntryLines(name, es)) == (Partly(cfg, name, es), Global)
  {
    if es != [] {
      var k := |es| - 1;
      DistinctFront(es, SeqOf);
      EntriesExecute(cfg, name, es[..k]);
      PartlySnoc(cfg, name, es[..k], es[k]);
      EntryExecutes(Partly(cfg, name, es[..k]), name, es[k]);
      RunLinesAppend(cfg, Global, AllEntryLines(name, es[..k]), EntryLines(name, es[k]));
      Snoc(es);
    }
  }

  lemma AscendingUsable(args: Args)
    requires ValidArgs(args) && AllWordsOnly(args.entries)
    ensures var es := Ascending(args.entries, SeqOf);
            es != [] && ValidEntries(es) && AllWordsOnly(es) && DistinctKeys(es, SeqOf)
  {
    var es := Ascending(args.entries, SeqOf);
    forall i | 0 <= i < |es| ensures ValidEntry(es[i]) && WordsOnly(es[i]) {
      SameElements(es, args.entries, i);
    }
    SameLength(es, args.entries);
    AscendingOfPermutation(args.entries, args.entries, SeqOf);
  }

  lemma HasMapTwice(cfg: Config, name: string, a: Option<map<int, Block>>, b: Option<map<int, Block>>)
    ensures HasMap(HasMap(cfg, name, a), name, b) == HasMap(cfg, name, b)
  {
    var once := HasMap(cfg, name, a).routeMaps;
    match b
    case None => assert once - {name} == cfg.routeMaps - {name};
    case Some(v) => assert once[name := v] == cfg.routeMaps[name := v];
  }

  lemma NegateExecutes(cfg: Config, name: string)
    requires IsToken(name)
    ensures RunLines(cfg, Global, [NegateCmd(name)]) == (HasMap(cfg, name, None), Global)
  {
    NegateCommand(name);
    RunOne(cfg, Global, NegateCmd(name));
  }

  /** From any prior state the command list leaves the map exactly as declared,
      with no stale sequence or clause, and everything else as it was; removal
      leaves exactly the map out. */
  lemma Converges(cfg: Config, args: Args, remove: bool)
    requires IsToken(args.name) && (!remove ==> ValidArgs(args) && AllWordsOnly(args.entries))
    ensures Run(cfg, Rendered(args, remove)) == HasMap(cfg, args.name, if remove then None else Some(Declared(args)))
  {
    NegateExecutes(cfg, args.name);
    if !remove {
      var gone := HasMap(cfg, args.name, None);
      var es := Ascending(args.entries, SeqOf);
      AscendingUsable(args);
      EntriesExecute(gone, args.name, es);
      RunLinesAppend(cfg, Global, [NegateCmd(args.name)], AllEntryLines(args.name, es));
      TablePermuted(args.entries, es, SeqOf, BlockOf);
      HasMapTwice(cfg, args.name, None, Some(Declared(args)));
    }
  }

  /** Hence applying twice is applying once, */
  lemma AppliesIdempotently(cfg: Config, args: Args, remove: bool)
    requires IsToken(args.name) && (!remove ==> ValidArgs(args) && AllWordsOnly(args.entries))
    ensures Run(Run(cfg, Rendered(args, remove)), Rendered(args, remove)) == Run(cfg, Rendered(args, remove))
  {
    var target := if remove then None else Some(Declared(args));
    Converges(cfg, args, remove);
    Converges(HasMap(cfg, args.name, target), args, remove);
    HasMapTwice(cfg, args.name, target, target);
  }

  /** and what was applied to the map before does not matter. */
  lemma AppliesWithoutHistory(cfg: Config, before: Args, beforeRemove: bool, args: Args, remove: bool)
    requires before.name == args.name && IsToken(args.name)
    requires !beforeRemove ==> ValidArgs(before) && AllWordsOnly(before.entries)
    requires !remove ==> ValidArgs(args) && AllWordsOnly(args.entries)
    ensures Run(Run(cfg, Rendered(before, beforeRemove)), Rendered(args, remove)) == Run(cfg, Rendered(args, remove))
  {
    var earlier := if beforeRemove then None else Some(Declared(before));
    Converges(cfg, before, beforeRemove);
    Converges(cfg, args, remove);
    Converges(HasMap(cfg, args.name, earlier), args, remove);
    HasMapTwice(cfg, args.name, earlier, if remove then None else Some(Declared(args)));
  }

  // ---- names and words with blanks in them ---------------------------------------------------

  /** What a device holds of a declared map, its entries could only have given
      word by word. */
  lemma HeldDeclared(args: Args)
    requires ValidArgs(args) && HeldMap(Declared(args))
    ensures AllWordsOnly(args.entries)
  {
    forall i, c: Clause | 0 <= i < |args.entries|
      ensures AllTokens(ClauseArgs(args.entries[i], c))
    {
      var e := args.entries[i];
      DeclaredExactly(args, i, c, SeqOf(e));
      assert HeldBlock(Declared(args)[SeqOf(e)]);
    }
  }

  lemma HeldTarget(cfg: Config, args: Args)
    requires ValidArgs(args) && Held(HasMap(cfg, args.name, Some(Declared(args))))
    ensures IsToken(args.name) && AllWordsOnly(args.entries)
  {
    var next := HasMap(cfg, args.name, Some(Declared(args)));
    assert args.name in next.routeMaps && next.routeMaps[args.name] == Declared(args);
    HeldDeclared(args);
  }

  /** Validation lets names and arguments with blanks in them through. The
      declared map is reached from a device if and only if the name and every
      argument are single words: no device holds another map. */
  lemma ConvergesExactly(cfg: Config, args: Args)
    requires ValidArgs(args) && Held(cfg)
    ensures Run(cfg, Rendered(args, false)) == HasMap(cfg, args.name, Some(Declared(args)))
            <==> IsToken(args.name) && AllWordsOnly(args.entries)
  {
    var lines, next := Rendered(args, false), Run(cfg, Rendered(args, false));
    RunHeld(cfg, Global, lines);
    if IsToken(args.name) && AllWordsOnly(args.entries) {
      Converges(cfg, args, false);
    } else if next == HasMap(cfg, args.name, Some(Declared(args))) {
      HeldTarget(cfg, args);
    }
  }

  lemma NegateFields(name: string)
    ensures Fields(NegateCmd(name)) == ["no", "route-map"] + Fields(name)
  {
    FieldsWord("route-map", name);
    FieldsWord("no", "route-map" + " " + name);
    NegateTail(name);
    Pair("no", "route-map", Fields(name));
  }

  lemma NegateTail(name: string)
    ensures NegateCmd(name) == "no" + " " + ("route-map" + " " + name)
  {
  }

  lemma NegateRead(line: string, tail: seq<string>)
    ensures CommandOfWords(line, ["no", "route-map"] + tail)
         == if |tail| == 1 then NoRouteMap(tail[0]) else Unknown
  {
  }

  /** A removal leaves out exactly the named map, unless the name is some other
      map's name with blanks around it: then it is that map that goes. */
  lemma RemovesExactly(cfg: Config, args: Args)
    requires Held(cfg)
    ensures Run(cfg, Rendered(args, true)) == HasMap(cfg, args.name, None)
            <==> (IsToken(args.name) || |Fields(args.name)| != 1 || Fields(args.name)[0] !in cfg.routeMaps)
  {
    var name := args.name;
    NegateFields(name);
    NegateRead(NegateCmd(name), Fields(name));
    RunOne(cfg, Global, NegateCmd(name));
    if IsToken(name) {
      FieldsToken(name);
    } else {
      assert name !in cfg.routeMaps;
      assert cfg.routeMaps - {name} == cfg.routeMaps;
      if |Fields(name)| == 1 {
        var word := Fields(name)[0];
        if word in cfg.routeMaps {
          assert word !in (cfg.routeMaps - {word});
        } else {
          assert cfg.routeMaps - {word} == cfg.routeMaps;
        }
      }
    }
  }

  /** Valid maps that no device ever reaches: one of two words' name, */
  lemma TwoWordNameMissed(cfg: Config, args: Args)
    requires Held(cfg) && args == Args("a b", [Entry(10, "permit", None, None, None)])
    ensures ValidArgs(args)
    ensures Run(cfg, Rendered(args, false)) != HasMap(cfg, args.name, Some(Declared(args)))
  {
    TwoWordsText(args.name);
    ConvergesExactly(cfg, args);
  }

  /** and one that matches an interface of two words. */
  lemma TwoWordArgumentMissed(cfg: Config, args: Args)
    requires Held(cfg)
    requires args == Args("a", [Entry(10, "permit", Some(EMPTY_MATCH.(iface := Some("a b"))), None, None)])
    ensures ValidArgs(args)
    ensures Run(cfg, Rendered(args, false)) != HasMap(cfg, args.name, Some(Declared(args)))
  {
    var e := args.entries[0];
    TwoWordsText("a b");
    assert ClauseArgs(e, MatchInterface) == ["a b"];
    assert !IsToken(ClauseArgs(e, MatchInterface)[0]);
    assert !WordsOnly(e);
    ConvergesExactly(cfg, args);
  }

  // ---- applying over a session -----------------------------------------------------------------

  method ApplyRouteMap(cli: Client<Config>, sessionPrefix: string, args: Args, remove: bool, nets: Nets)
    returns (err: Option<Error>, ghost sess: Session?<Config>)
    requires cli.slot == 0
    requires !remove ==> ValidArgs(args)
    modifies cli, cli.node
    ensures cli.slot == 0
    ensures sess != null ==> fresh(sess) && !sess.open
    ensures cli.node.dev
         == AfterApply(cli.node.sem, old(cli.node.dev), sessionPrefix + "rmap-" + SessionSlug(args.name),
           Rendered(args, remove), nets)
    ensures err == None <==> !nets.open.Broken? && !nets.stage.Broken? && !nets.close.Broken?
  {
    var sessName := sessionPrefix + "rmap-" + SessionSlug(args.name);
    var cmds := BuildRouteMapCmds(args, remove);
    err, sess := ApplyCommands(cli, sessName, cmds, nets);
  }

  /** A line of the map's own block structure: it touches no other map. */
  predicate IsOwn(line: string, name: string) {
    match CommandOf(line)
    case NoRouteMap(n) => n == name
    case EnterRouteMap(n, _, _) => n == name
    case SetClause(_, _) => true
    case Exit => true
    case _ => false
  }

  predicate AllOwn(lines: seq<string>, name: string) {
    forall i :: 0 <= i < |lines| ==> IsOwn(lines[i], name)
  }

  lemma OwnJoin(a: seq<string>, b: seq<string>, name: string)
    requires AllOwn(a, name) && AllOwn(b, name)
    ensures AllOwn(a + b, name)
  {
  }

  predicate AllClauses(lines: seq<string>) {
    forall i :: 0 <= i < |lines| ==> CommandOf(lines[i]).SetClause?
  }

  lemma ClauseLinesSet(e: Entry, c: Clause)
    requires AllTokens(ClauseArgs(e, c))
    ensures AllClauses(ClauseLines(e, c))
  {
    if c == SetExtcommunityRt {
      SetOnly(e, c);
      if e.sets.Some? {
        var s := e.sets.value;
        RtArgsHaveRts(s.extcommunityRt, RtWords(s));
        forall i | 0 <= i < |s.extcommunityRt| ensures CommandOf(EntryRtLines(e)[i]).SetClause? {
          RtCommand(s.extcommunityRt[i], Flag(s.extcommunityRtAdditive), RtWords(s));
        }
      }
    } else if ClauseArgs(e, c) != [] {
      ClauseCommand(c, ClauseArgs(e, c));
    }
  }

  lemma {:induction false} BodySets(e: Entry, cs: seq<Clause>)
    requires WordsOnly(e)
    ensures AllClauses(Collect(cs, LinesOf(e)))
  {
    if cs != [] {
      var k := |cs| - 1;
      BodySets(e, cs[..k]);
      ClauseLinesSet(e, cs[k]);
    }
  }

  lemma ClausesOwn(lines: seq<string>, name: string)
    requires AllClauses(lines)
    ensures AllOwn(lines, name)
  {
    forall i | 0 <= i < |lines| ensures IsOwn(lines[i], name) {
      assert CommandOf(lines[i]).SetClause?;
    }
  }

  // ---- every `exit` closes a block ---------------------------------------------------------

  lemma NestedSnoc(lines: seq<string>, line: string)
    requires WellNested(lines) && !CommandOf(line).Unknown?
    requires CommandOf(line).Exit? ==> ModeAfter(lines).InRouteMap?
    ensures WellNested(lines + [line])
    ensures ModeAfter(lines + [line]) == NextMode(ModeAfter(lines), CommandOf(line))
  {
    var all := lines + [line];
    SnocParts(lines, line);
    forall i | 0 <= i < |all|
      ensures !CommandOf(all[i]).Unknown? && (CommandOf(all[i]).Exit? ==> ModeAfter(all[..i]).InRouteMap?)
    {
      if i < |lines| {
        assert all[i] == lines[i] && all[..i] == lines[..i];
      }
    }
  }

  lemma {:induction false} NestedClauses(before: seq<string>, body: seq<string>)
    requires WellNested(before) && AllClauses(body)
    ensures WellNested(before + body) && ModeAfter(before + body) == ModeAfter(before)
  {
    if body == [] {
      AppendEmpty(before);
    } else {
      var k := |body| - 1;
      NestedClauses(before, body[..k]);
      NestedSnoc(before + body[..k], body[k]);
      Snoc(body);
      Associate(before, body[..k], [body[k]]);
    }
  }

  lemma NestedBlock(before: seq<string>, name: string, e: Entry)
    requires WellNested(before) && IsToken(name) && ValidEntry(e) && WordsOnly(e)
    ensures WellNested(before + EntryLines(name, e))
  {
    var header, body := HeaderLine(name, e), BodyLines(e);
    HeaderCommand(name, e);
    NestedSnoc(before, header);
    BodyByClause(e);
    BodySets(e, ORDER);
    NestedClauses(before + [header], body);
    ExitCommand();
    NestedSnoc(before + [header] + body, "exit");
    ThreeParts(before, [header], body, ["exit"]);
  }

  lemma {:induction false} NestedEntries(before: seq<string>, name: string, es: seq<Entry>)
    requires WellNested(before) && IsToken(name) && ValidEntries(es) && AllWordsOnly(es)
    ensures WellNested(before + AllEntryLines(name, es))
  {
    if es == [] {
      AppendEmpty(before);
    } else {
      var k := |es| - 1;
      NestedEntries(before, name, es[..k]);
      NestedBlock(before + AllEntryLines(name, es[..k]), name, es[k]);
      Associate(before, AllEntryLines(name, es[..k]), EntryLines(name, es[k]));
    }
  }

  lemma NestedNegate(name: string)
    requires IsToken(name)
    ensures WellNested([NegateCmd(name)])
  {
    NegateCommand(name);
    AppendEmpty([NegateCmd(name)]);
    NestedSnoc([], NegateCmd(name));
  }

  // ---- and every line is the map's own --------------------------------------------------------

  lemma HeaderOwn(name: string, e: Entry)
    requires IsToken(name) && ValidEntry(e)
    ensures AllOwn([HeaderLine(name, e)], name)
  {
    HeaderCommand(name, e);
  }

  lemma ExitOwn(name: string)
    ensures AllOwn(["exit"], name)
  {
    ExitCommand();
  }

  lemma EntryOwn(name: string, e: Entry)
    requires IsToken(name) && ValidEntry(e) && WordsOnly(e)
    ensures AllOwn(EntryLines(name, e), name)
  {
    HeaderOwn(name, e);
    BodyByClause(e);
    BodySets(e, ORDER);
    ClausesOwn(BodyLines(e), name);
    ExitOwn(name);
    OwnJoin([HeaderLine(name, e)], BodyLines(e), name);
    OwnJoin([HeaderLine(name, e)] + BodyLines(e), ["exit"], name);
  }

  lemma {:induction false} EntriesOwn(name: string, es: seq<Entry>)
    requires IsToken(name) && ValidEntries(es) && AllWordsOnly(es)
    ensures AllOwn(AllEntryLines(name, es), name)
  {
    if es != [] {
      var k := |es| - 1;
      EntriesOwn(name, es[..k]);
      EntryOwn(name, es[k]);
      OwnJoin(AllEntryLines(name, es[..k]), EntryLines(name, es[k]), name);
    }
  }

  lemma NegateOwn(name: string)
    requires IsToken(name)
    ensures AllOwn([NegateCmd(name)], name)
  {
    NegateCommand(name);
  }

  lemma RenderedOwn(args: Args, remove: bool)
    requires IsToken(args.name) && (!remove ==> ValidArgs(args) && AllWordsOnly(args.entries))
    ensures Rendered(args, remove) != [] && AllOwn(Rendered(args, remove), args.name)
    ensures PlainBody(EOS_CLI, Rendered(args, remove))
  {
    NegateOwn(args.name);
    NestedNegate(args.name);
    if !remove {
      var es := Ascending(args.entries, SeqOf);
      AscendingUsable(args);
      EntriesOwn(args.name, es);
      OwnJoin([NegateCmd(args.name)], AllEntryLines(args.name, es), args.name);
      NestedEntries([NegateCmd(args.name)], args.name, es);
    }
    NestedIsPlain(Rendered(args, remove));
  }

  /** One apply over a network that may break any call, on a device where earlier
      applies may have left lines in the same session: either running-config is
      as before, or the commit was reached and the map is exactly as declared,
      whatever the leftover lines were. */
  lemma ApplyLeavesDeclared(show: Config -> seq<string>, dev: Device<Config>, session: string, args: Args,
                            remove: bool, nets: Nets)
    requires IsToken(session) && IsToken(args.name)
    requires !remove ==> ValidArgs(args) && AllWordsOnly(args.entries)
    ensures var after := AfterApply(SemanticsOf(show), dev, session, Rendered(args, remove), nets);
            after.running ==
            if Commits(nets)
            then HasMap(Replay(SemanticsOf(show), dev.running, Batches(dev, session)), args.name,
                        if remove then None else Some(Declared(args)))
            else dev.running
  {
    var sem, cmds := SemanticsOf(show), Rendered(args, remove);
    RenderedOwn(args, remove);
    ApplyRunning(sem, dev, session, cmds, nets);
    ReplayEndsWith(sem, dev.running, Batches(dev, session), cmds);
    Converges(Replay(sem, dev.running, Batches(dev, session)), args, remove);
  }
}
