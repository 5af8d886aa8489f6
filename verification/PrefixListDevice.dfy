/** What the staged prefix-list commands do to a device, from any prior state. */
module PrefixListDevice {
  import opened Text
  import opened Seqs
  import opened Sorting
  import opened Eapi
  import opened Eos
  import opened PrefixList
  import Netip
  import PrefixListRead

  // ---- the declared state ----------------------------------------------------------------

  function RuleOf(e: Entry): seq<string> {
    [e.action, e.prefix] + Bounds(e)
  }

  function DeclaredRemark(args: Args): Option<string> {
    if args.remark == Some("") then None else args.remark
  }

  function Declared(args: Args): PrefixListConfig {
    PrefixListConfig(DeclaredRemark(args), Table(args.entries, SeqOf, RuleOf))
  }

  /** A declared list holds exactly its entries: no other sequence number. */
  lemma DeclaredExactly(args: Args)
    requires ValidArgs(args)
    ensures forall i :: 0 <= i < |args.entries| ==>
              var e := args.entries[i];
              SeqOf(e) in Declared(args).rules && Declared(args).rules[SeqOf(e)] == RuleOf(e)
    ensures forall n :: n in Declared(args).rules ==> HasKey(args.entries, SeqOf, n)
  {
    forall i | 0 <= i < |args.entries|
      ensures var e := args.entries[i];
              SeqOf(e) in Declared(args).rules && Declared(args).rules[SeqOf(e)] == RuleOf(e)
    {
      TableValue(args.entries, SeqOf, RuleOf, i);
    }
    forall n | n in Declared(args).rules ensures HasKey(args.entries, SeqOf, n) {
      TableKeys(args.entries, SeqOf, RuleOf, n);
    }
  }

  // ---- the device's reading of each line ----------------------------------------------------

  lemma NegateWords(name: string)
    requires IsToken(name)
    ensures Fields(NegateCmd(name)) == ["no", "ip", "prefix-list", name]
  {
    Words4("no", "ip", "prefix-list", name);
    NegateShape(name);
  }

  lemma NegateShape(name: string)
    ensures NegateCmd(name) == "no" + " " + "ip" + " " + "prefix-list" + " " + name
  {
  }

  lemma NegateCommand(name: string)
    requires IsToken(name)
    ensures CommandOf(NegateCmd(name)) == NoPrefixList(name)
  {
    NegateWords(name);
  }

  lemma EntryCmdWords(name: string, e: Entry)
    requires IsToken(name) && ValidEntry(e)
    ensures Fields(EntryCmd(name, e)) == ["ip", "prefix-list", name] + EntryWords(e)
  {
    PrefixListRead.EntryWordsAreTokens(e);
    FieldsJoin(["ip", "prefix-list", name] + EntryWords(e));
  }

  lemma EntryParts<T>(a: T, b: T, c: T, d: T, n: T, x: T, y: T, rest: seq<T>)
    ensures [a, b, c] + ([d, n, x, y] + rest) == [a, b, c, d, n] + ([x, y] + rest)
  {
  }

  lemma EntryCommand(name: string, e: Entry)
    requires IsToken(name) && ValidEntry(e)
    ensures CommandOf(EntryCmd(name, e)) == PrefixRule(name, SeqOf(e), RuleOf(e))
  {
    EntryCmdWords(name, e);
    AtoiItoa(e.seqNo);
    EntryParts("ip", "prefix-list", name, "seq", Itoa(e.seqNo), e.action, e.prefix, Bounds(e));
    RuleCommand(EntryCmd(name, e), name, Itoa(e.seqNo), e.seqNo, RuleOf(e));
  }

  lemma RemarkCommand(name: string, text: string)
    requires IsToken(name)
    ensures var line := "ip prefix-list " + name + " remark " + text;
            CommandOf(line) == PrefixRemark(name, text)
  {
    var line := "ip prefix-list " + name + " remark " + text;
    RemarkWords(name, text);
    CutOwnPrefix("ip prefix-list " + name + " remark ", text);
    var words := [name, "remark"] + Fields(text);
    assert (["ip", "prefix-list"] + words)[2..] == words;
    assert PrefixListCommand(line, words) == PrefixRemark(name, text);
  }

  lemma RemarkWords(name: string, text: string)
    requires IsToken(name)
    ensures Fields("ip prefix-list " + name + " remark " + text)
         == ["ip", "prefix-list"] + ([name, "remark"] + Fields(text))
  {
    RemarkShape(name, text);
    FourWords("ip", "prefix-list", name, "remark", text);
  }

  lemma RemarkShape(name: string, text: string)
    ensures "ip prefix-list " + name + " remark " + text
         == "ip" + " " + ("prefix-list" + " " + (name + " " + ("remark" + " " + text)))
  {
  }

  lemma FourWords(a: string, b: string, c: string, d: string, rest: string)
    requires IsToken(a) && IsToken(b) && IsToken(c) && IsToken(d)
    ensures Fields(a + " " + (b + " " + (c + " " + (d + " " + rest)))) == [a, b] + ([c, d] + Fields(rest))
  {
    TwoWords(c, d, rest);
    TwoWords(a, b, c + " " + (d + " " + rest));
  }

  lemma TwoWords(a: string, b: string, rest: string)
    requires IsToken(a) && IsToken(b)
    ensures Fields(a + " " + (b + " " + rest)) == [a, b] + Fields(rest)
  {
    var tail := b + " " + rest;
    FieldsWord(b, rest);
    FieldsWord(a, tail);
    Pair(a, b, Fields(rest));
  }

  // ---- convergence ---------------------------------------------------------------------------

  lemma EntriesExecute(cfg: Config, name: string, es: seq<Entry>)
    requires IsToken(name) && es != []
    requires ValidEntries(es)
    ensures var pl := PrefixListOf(cfg, name);
            RunLines(cfg, Global, EntryCmds(name, es))
            == (HasList(cfg, name, Some(pl.(rules := pl.rules + Table(es, SeqOf, RuleOf)))), Global)
  {
    forall i | 0 <= i < |es|
      ensures CommandOf(EntryCmds(name, es)[i]) == PrefixRule(name, SeqOf(es[i]), RuleOf(es[i]))
    {
      EntryCommand(name, es[i]);
    }
    RulesExecute(cfg, name, EntryCmds(name, es), es, SeqOf, RuleOf);
  }

  lemma RemarkExecutes(cfg: Config, args: Args)
    requires IsToken(args.name) && args.name !in cfg.prefixLists
    ensures RunLines(cfg, Global, RemarkCmds(args)) ==
            (if DeclaredRemark(args) == None then cfg
             else HasList(cfg, args.name, Some(PrefixListConfig(DeclaredRemark(args), map[]))), Global)
  {
    if DeclaredRemark(args) != None {
      RemarkCommand(args.name, args.remark.value);
      RunOne(cfg, Global, RemarkCmds(args)[0]);
    }
  }

  lemma NegateExecutes(cfg: Config, name: string)
    requires IsToken(name)
    ensures RunLines(cfg, Global, [NegateCmd(name)]) == (HasList(cfg, name, None), Global)
  {
    NegateCommand(name);
    RunOne(cfg, Global, NegateCmd(name));
  }

  /** After the remark line, if any, the list has its remark and no rules yet. */
  lemma Remarked(cfg: Config, args: Args, pl: PrefixListConfig)
    requires IsToken(args.name) && args.name !in cfg.prefixLists
    ensures var next := RunLines(cfg, Global, RemarkCmds(args)).0;
            && PrefixListOf(next, args.name) == PrefixListConfig(DeclaredRemark(args), map[])
            && HasList(next, args.name, Some(pl)) == HasList(cfg, args.name, Some(pl))
  {
    RemarkExecutes(cfg, args);
    HasListTwice(cfg, args.name, Some(PrefixListConfig(DeclaredRemark(args), map[])), Some(pl));
  }

  lemma FreshRules(pl: PrefixListConfig, table: map<int, seq<string>>)
    requires pl.rules == map[]
    ensures pl.(rules := pl.rules + table) == PrefixListConfig(pl.remark, table)
  {
    assert map[] + table == table;
  }

  /** The declaring lines, on a device without the list. */
  lemma ConfigExecutes(cfg: Config, args: Args)
    requires IsToken(args.name) && ValidArgs(args) && args.name !in cfg.prefixLists
    ensures RunLines(cfg, Global, ConfigCmds(args)).0 == HasList(cfg, args.name, Some(Declared(args)))
  {
    var es := Ascending(args.entries, SeqOf);
    AscendingValid(args);
    RunLinesAppend(cfg, Global, RemarkCmds(args), EntryCmds(args.name, es));
    RemarkExecutes(cfg, args);
    Remarked(cfg, args, Declared(args));
    var next := RunLines(cfg, Global, RemarkCmds(args)).0;
    EntriesExecute(next, args.name, es);
    TablePermuted(args.entries, es, SeqOf, RuleOf);
    FreshRules(PrefixListOf(next, args.name), Table(es, SeqOf, RuleOf));
  }

  /** From any prior state the command list leaves the list exactly as declared
      and everything else as it was; removal leaves exactly the list out. */
  lemma Converges(cfg: Config, args: Args, remove: bool)
    requires IsToken(args.name) && (!remove ==> ValidArgs(args))
    ensures Run(cfg, Rendered(args, remove)) == HasList(cfg, args.name, if remove then None else Some(Declared(args)))
  {
    var gone := HasList(cfg, args.name, None);
    NegateExecutes(cfg, args.name);
    if !remove {
      RunLinesAppend(cfg, Global, [NegateCmd(args.name)], ConfigCmds(args));
      ConfigExecutes(gone, args);
      HasListTwice(cfg, args.name, None, Some(Declared(args)));
    }
  }

  /** Hence applying twice is applying once, */
  lemma AppliesIdempotently(cfg: Config, args: Args, remove: bool)
    requires IsToken(args.name) && (!remove ==> ValidArgs(args))
    ensures Run(Run(cfg, Rendered(args, remove)), Rendered(args, remove)) == Run(cfg, Rendered(args, remove))
  {
    var target := if remove then None else Some(Declared(args));
    Converges(cfg, args, remove);
    Converges(HasList(cfg, args.name, target), args, remove);
    HasListTwice(cfg, args.name, target, target);
  }

  /** and what was applied to the list before does not matter. */
  lemma AppliesWithoutHistory(cfg: Config, before: Args, beforeRemove: bool, args: Args, remove: bool)
    requires before.name == args.name && IsToken(args.name)
    requires (!beforeRemove ==> ValidArgs(before)) && (!remove ==> ValidArgs(args))
    ensures Run(Run(cfg, Rendered(before, beforeRemove)), Rendered(args, remove)) == Run(cfg, Rendered(args, remove))
  {
    var earlier := if beforeRemove then None else Some(Declared(before));
    Converges(cfg, before, beforeRemove);
    Converges(cfg, args, remove);
    Converges(HasList(cfg, args.name, earlier), args, remove);
    HasListTwice(cfg, args.name, earlier, if remove then None else Some(Declared(args)));
  }

  // ---- names that are not one word -----------------------------------------------------------

  /** Validation lets names with blanks in them through. The declared list is
      reached from a device if and only if the name is one word: no device holds
      a list of another name. */
  lemma ConvergesExactly(cfg: Config, args: Args)
    requires ValidArgs(args) && Held(cfg)
    ensures Run(cfg, Rendered(args, false)) == HasList(cfg, args.name, Some(Declared(args))) <==> IsToken(args.name)
  {
    if IsToken(args.name) {
      Converges(cfg, args, false);
    } else {
      RunHeld(cfg, Global, Rendered(args, false));
      assert args.name in HasList(cfg, args.name, Some(Declared(args))).prefixLists;
    }
  }

  lemma NegateFields(name: string)
    ensures Fields(NegateCmd(name)) == ["no", "ip", "prefix-list"] + Fields(name)
  {
    ThreeWords("no", "ip", "prefix-list", name);
    NegateTail(name);
  }

  lemma NegateTail(name: string)
    ensures NegateCmd(name) == "no" + " " + ("ip" + " " + ("prefix-list" + " " + name))
  {
  }

  lemma ThreeWords(a: string, b: string, c: string, rest: string)
    requires IsToken(a) && IsToken(b) && IsToken(c)
    ensures Fields(a + " " + (b + " " + (c + " " + rest))) == [a, b, c] + Fields(rest)
  {
    FieldsWord(c, rest);
    TwoWords(a, b, c + " " + rest);
    Associate([a, b], [c], Fields(rest));
    assert [a, b] + [c] == [a, b, c];
  }

  lemma NegateRead(line: string, tail: seq<string>)
    ensures CommandOfWords(line, ["no", "ip", "prefix-list"] + tail)
         == if |tail| == 1 then NoPrefixList(tail[0]) else Unknown
  {
  }

  /** A removal leaves out exactly the named list, unless the name is some other
      list's name with blanks around it: then it is that list that goes. */
  lemma RemovesExactly(cfg: Config, args: Args)
    requires Held(cfg)
    ensures Run(cfg, Rendered(args, true)) == HasList(cfg, args.name, None)
            <==> (IsToken(args.name) || |Fields(args.name)| != 1 || Fields(args.name)[0] !in cfg.prefixLists)
  {
    var name := args.name;
    NegateFields(name);
    NegateRead(NegateCmd(name), Fields(name));
    RunOne(cfg, Global, NegateCmd(name));
    if IsToken(name) {
      FieldsToken(name);
    } else {
      assert name !in cfg.prefixLists;
      assert cfg.prefixLists - {name} == cfg.prefixLists;
      if |Fields(name)| == 1 {
        var word := Fields(name)[0];
        if word in cfg.prefixLists {
          assert word !in (cfg.prefixLists - {word});
        } else {
          assert cfg.prefixLists - {word} == cfg.prefixLists;
        }
      }
    }
  }

  /** A valid list of two words' name, which no device ever reaches, */
  lemma TwoWordNameMissed(cfg: Config) returns (args: Args)
    requires Held(cfg)
    ensures args.name == "a b" && ValidArgs(args)
    ensures Run(cfg, Rendered(args, false)) != HasList(cfg, args.name, Some(Declared(args)))
  {
    var prefix := Netip.SomePrefix();
    args := Args("a b", None, [Entry(10, "permit", prefix, None, None, None)]);
    TwoWordsText(args.name);
    ConvergesExactly(cfg, args);
  }

  /** and one whose removal takes out another list. */
  lemma PaddedNameRemoves(cfg: Config) returns (args: Args)
    requires Held(cfg) && "a" in cfg.prefixLists
    ensures args.name == " a" && ValidArgs(args)
    ensures Run(cfg, Rendered(args, true)) != HasList(cfg, args.name, None)
  {
    var prefix := Netip.SomePrefix();
    args := Args(" a", None, [Entry(10, "permit", prefix, None, None, None)]);
    PaddedWord(args.name);
    RemovesExactly(cfg, args);
  }

  lemma PaddedWord(s: string)
    requires s == " a"
    ensures !IsToken(s) && Fields(s) == ["a"] && TrimSpace(s) == "a"
  {
    assert IsSpace(s[0]) && s[1..] == "a";
    FieldsToken("a");
    TrimIndented(" ", "a", "");
    assert " " + "a" + "" == s;
  }

  // ---- applying over a session -----------------------------------------------------------------

  method ApplyPrefixList(cli: Client<Config>, sessionPrefix: string, args: Args, remove: bool, nets: Nets)
    returns (err: Option<Error>, ghost sess: Session?<Config>)
    requires cli.slot == 0
    requires !remove ==> ValidArgs(args)
    modifies cli, cli.node
    ensures cli.slot == 0
    ensures sess != null ==> fresh(sess) && !sess.open
    ensures cli.node.dev
         == AfterApply(cli.node.sem, old(cli.node.dev), sessionPrefix + "pfxlist-" + SessionSlug(args.name),
           Rendered(args, remove), nets)
    ensures err == None <==> !nets.open.Broken? && !nets.stage.Broken? && !nets.close.Broken?
  {
    var sessName := sessionPrefix + "pfxlist-" + SessionSlug(args.name);
    var cmds := BuildPrefixListCmds(args, remove);
    err, sess := ApplyCommands(cli, sessName, cmds, nets);
  }

  // ---- lines of one list -------------------------------------------------------------------------

  /** A line about the list alone. */
  predicate IsOwn(line: string, name: string) {
    match CommandOf(line)
    case NoPrefixList(n) => n == name
    case PrefixRule(n, _, _) => n == name
    case PrefixRemark(n, _) => n == name
    case _ => false
  }

  predicate AllOwn(lines: seq<string>, name: string) {
    forall i :: 0 <= i < |lines| ==> IsOwn(lines[i], name)
  }

  lemma RenderedOwn(args: Args, remove: bool)
    requires IsToken(args.name) && (!remove ==> ValidArgs(args))
    ensures Rendered(args, remove) != [] && AllOwn(Rendered(args, remove), args.name)
    ensures PlainBody(EOS_CLI, Rendered(args, remove))
  {
    NegateCommand(args.name);
    if !remove {
      RemarkOwn(args);
      EntriesOwn(args);
    }
    OwnIsPlain(Rendered(args, remove), args.name);
  }

  lemma OwnIsPlain(lines: seq<string>, name: string)
    requires AllOwn(lines, name)
    ensures PlainBody(EOS_CLI, lines)
  {
    forall i | 0 <= i < |lines|
      ensures !CommandOf(lines[i]).Unknown? && !CommandOf(lines[i]).Exit?
    {
      assert IsOwn(lines[i], name);
    }
    NestedIsPlain(lines);
  }

  lemma RemarkOwn(args: Args)
    requires IsToken(args.name)
    ensures AllOwn(RemarkCmds(args), args.name)
  {
    if RemarkCmds(args) != [] {
      RemarkCommand(args.name, args.remark.value);
    }
  }

  lemma EntriesOwn(args: Args)
    requires IsToken(args.name) && ValidArgs(args)
    ensures AllOwn(EntryCmds(args.name, Ascending(args.entries, SeqOf)), args.name)
  {
    var es := Ascending(args.entries, SeqOf);
    var cmds := EntryCmds(args.name, es);
    AscendingValid(args);
    forall i | 0 <= i < |cmds| ensures IsOwn(cmds[i], args.name) {
      EntryCommand(args.name, es[i]);
    }
  }
}
