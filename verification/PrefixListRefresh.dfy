/** From apply to refresh: after any run of applies over a network that breaks, what
    Read finds on the device is what the last effective commit declared. */
module PrefixListRefresh {
  import opened Text
  import opened Sorting
  import opened Eapi
  import opened Eos
  import opened PrefixList
  import opened PrefixListRead
  import opened PrefixListDevice
  import opened Runs

  // ---- how the device shows a list -----------------------------------------------------

  function RuleRest(n: int, rule: seq<string>): string {
    Join(["seq", Itoa(n)] + rule, " ")
  }

  function ShownRemark(pl: PrefixListConfig): seq<string> {
    if pl.remark.Some? then ["remark " + pl.remark.value] else []
  }

  /** The sequence numbers of the rules, each once, in some order. */
  predicate Numbers(order: seq<int>, rules: map<int, seq<string>>) {
    && (forall i :: 0 <= i < |order| ==> order[i] in rules)
    && (forall n :: n in rules ==> n in order)
    && (forall i, j :: 0 <= i < j < |order| ==> order[i] != order[j])
  }

  function ShownRules(order: seq<int>, rules: map<int, seq<string>>): (rests: seq<string>)
    requires forall i :: 0 <= i < |order| ==> order[i] in rules
    ensures |rests| == |order|
    ensures forall i :: 0 <= i < |order| ==> rests[i] == RuleRest(order[i], rules[order[i]])
  {
    seq(|order|, i requires 0 <= i < |order| => RuleRest(order[i], rules[order[i]]))
  }

  /** The lines that begin `ip prefix-list NAME ` are one for the remark and one for
      each rule, in any order, between any other lines; none if there is no list. */
  ghost predicate Shows(lines: seq<string>, name: string, cfg: Config) {
    if name !in cfg.prefixLists then Rests(lines, name) == []
    else
      var pl := cfg.prefixLists[name];
      exists order: seq<int> :: Numbers(order, pl.rules)
        && multiset(Rests(lines, name)) == multiset(ShownRemark(pl) + ShownRules(order, pl.rules))
  }

  // ---- the rules in the order shown --------------------------------------------------------

  lemma {:induction false} EntriesInOrder(entries: seq<Entry>, order: seq<int>) returns (es: seq<Entry>)
    requires forall i :: 0 <= i < |order| ==> HasKey(entries, SeqOf, order[i])
    ensures |es| == |order|
    ensures forall i :: 0 <= i < |es| ==> es[i] in entries && SeqOf(es[i]) == order[i]
  {
    if order == [] {
      es := [];
    } else {
      var n := |order| - 1;
      assert forall i :: 0 <= i < n ==> order[..n][i] == order[i];
      var front := EntriesInOrder(entries, order[..n]);
      assert HasKey(entries, SeqOf, order[n]);
      var k :| 0 <= k < |entries| && SeqOf(entries[k]) == order[n];
      es := front + [entries[k]];
    }
  }

  /** Entries picked by all the numbers of a declared list are its entries. */
  lemma OrderedEntries(args: Args, order: seq<int>, es: seq<Entry>)
    requires ValidArgs(args) && Numbers(order, Declared(args).rules)
    requires |es| == |order|
    requires forall i :: 0 <= i < |es| ==> es[i] in args.entries && SeqOf(es[i]) == order[i]
    ensures multiset(es) == multiset(args.entries)
  {
    assert DistinctKeys(es, SeqOf);
    forall x | x in args.entries ensures x in es {
      var k :| 0 <= k < |args.entries| && args.entries[k] == x;
      TableValue(args.entries, SeqOf, RuleOf, k);
      var i :| 0 <= i < |order| && order[i] == SeqOf(x);
      SameKeySame(args.entries, es[i], x, SeqOf);
    }
    SameDistinct(es, args.entries, SeqOf);
  }

  lemma ShownEntry(args: Args, e: Entry)
    requires ValidArgs(args) && e in args.entries
    ensures SeqOf(e) in Declared(args).rules
    ensures RuleRest(SeqOf(e), Declared(args).rules[SeqOf(e)]) == EntryRest(e)
  {
    var k :| 0 <= k < |args.entries| && args.entries[k] == e;
    TableValue(args.entries, SeqOf, RuleOf, k);
    RuleWords("seq", Itoa(e.seqNo), e.action, e.prefix, Bounds(e));
  }

  lemma RuleWords<T>(a: T, b: T, c: T, d: T, rest: seq<T>)
    ensures [a, b] + ([c, d] + rest) == [a, b, c, d] + rest
  {
  }

  const RestOf := (e: Entry) => [EntryRest(e)]

  /** The shown rules, in whatever order, are the rendered entries. */
  lemma ShownRulesRendered(args: Args, order: seq<int>)
    requires ValidArgs(args) && Numbers(order, Declared(args).rules)
    ensures multiset(ShownRules(order, Declared(args).rules)) == multiset(EntryRests(Ascending(args.entries, SeqOf)))
  {
    var rules, sorted := Declared(args).rules, Ascending(args.entries, SeqOf);
    forall i | 0 <= i < |order| ensures HasKey(args.entries, SeqOf, order[i]) {
      TableKeys(args.entries, SeqOf, RuleOf, order[i]);
    }
    var es := EntriesInOrder(args.entries, order);
    OrderedEntries(args, order, es);
    forall i | 0 <= i < |es| ensures ShownRules(order, rules)[i] == EntryRest(es[i]) {
      ShownEntry(args, es[i]);
    }
    CollectOneEach(es, ShownRules(order, rules), RestOf);
    CollectOneEach(sorted, EntryRests(sorted), RestOf);
    CollectPermuted(es, sorted, RestOf);
  }

  lemma ShownRemarkRendered(args: Args)
    ensures ShownRemark(Declared(args)) == RemarkRests(args)
  {
  }

  /** Reading a list that the device holds as declared gives the declaration back. */
  lemma DeclaredReadsBack(args: Args, cfg: Config, text: string, row: Row, found: bool)
    requires ValidArgs(args)
    requires args.name in cfg.prefixLists && cfg.prefixLists[args.name] == Declared(args)
    requires Shows(TrimmedLines(text), args.name, cfg)
    requires IsReading(TrimmedLines(text), args.name, row, found)
    ensures found && row == Row(args.name, RemarkText(args), Ascending(args.entries, SeqOf))
  {
    var rests := Rests(TrimmedLines(text), args.name);
    var rules := Declared(args).rules;
    var order: seq<int> :| Numbers(order, rules)
      && multiset(rests) == multiset(ShownRemark(Declared(args)) + ShownRules(order, rules));
    ShownRulesRendered(args, order);
    ShownRemarkRendered(args);
    RestsRead(args, rests);
    DistinctKeysPermuted(args.entries, Collect(rests, PickEntries), SeqOf);
    SortSliceDetermined(Collect(rests, PickEntries), row.entries, SeqOf);
    AscendingOfPermutation(args.entries, Collect(rests, PickEntries), SeqOf);
  }

  // ---- after a run ------------------------------------------------------------------------------

  /** After any run of Create, Update and Delete over several lists and maps, with calls
      breaking anywhere and leftover sessions resumed, Read finds for every list exactly
      what its last effective commit declared, and nothing after an effective Delete. */
  lemma RefreshAfterRun(show: Config -> seq<string>, dev: Device<Config>, sessionPrefix: string, evs: seq<Event>,
                        keys: set<Key>, name: string, text: string, row: Row, found: bool)
    requires IsToken(sessionPrefix) && RunOver(evs, keys)
    requires SessionsApart(sessionPrefix, keys) && OwnLeftovers(dev, sessionPrefix, keys)
    requires LastCommit(evs, ListKey(name)).Some?
    requires Shows(TrimmedLines(text), name, AfterRun(SemanticsOf(show), dev, sessionPrefix, evs).running)
    requires IsReading(TrimmedLines(text), name, row, found)
    ensures var ev := LastCommit(evs, ListKey(name)).value;
            ev.ListEvent?
            && if ev.remove then !found
               else found && row == Row(name, RemarkText(ev.list), Ascending(ev.list.entries, SeqOf))
  {
    var after := AfterRun(SemanticsOf(show), dev, sessionPrefix, evs).running;
    var ev := LastCommit(evs, ListKey(name)).value;
    RunsAreSafe(show, dev, sessionPrefix, evs, keys);
    LastCommitIsEvent(evs, ListKey(name));
    assert ValidEvent(ev);
    assert At(after, ListKey(name)) == Target(ev);
    if !ev.remove {
      DeclaredReadsBack(ev.list, after, text, row, found);
    }
  }
  // ---- drift -------------------------------------------------------------------------------

  function FillState(row: Row, state: Args): Args {
    state.(
    remark := if row.remark != "" then Some(row.remark) else state.remark,
    entries := if row.entries != [] then row.entries else state.entries)
  }

  /** Drift is seen: whatever is stored for a list that the device holds as `live`, after a
      refresh the entries are the live ones in order, and so is the remark, if it has one. */
  lemma DriftIsSeen(live: Args, cfg: Config, text: string, row: Row, found: bool, stored: Args)
    requires ValidArgs(live) && stored.name == live.name
    requires live.name in cfg.prefixLists && cfg.prefixLists[live.name] == Declared(live)
    requires Shows(TrimmedLines(text), stored.name, cfg)
    requires IsReading(TrimmedLines(text), stored.name, row, found)
    ensures found
    ensures FillState(row, stored)
         == stored.(remark := if DeclaredRemark(live).Some? then live.remark else stored.remark,
              entries := Ascending(live.entries, SeqOf))
  {
    DeclaredReadsBack(live, cfg, text, row, found);
  }
}
