/** Reading a prefix-list back from `show running-config | grep prefix-list`. */
module PrefixListRead {
  import opened Text
  import opened Seqs
  import opened Sorting
  import opened PrefixList
  import Netip

  datatype Row = Row(name: string, remark: string, entries: seq<Entry>)

  // ---- one line -----------------------------------------------------------------------

  /** The optional bounds: pairs of a keyword and a number. Pairs that do not fit
      are skipped. */
  function WithBounds(e: Entry, words: seq<string>): Entry
    decreases |words|
  {
    if |words| < 2 then e
    else WithBounds(WithBound(e, words[0], Atoi(words[1])), words[2..])
  }

  function WithBound(e: Entry, key: string, n: Option<Int>): Entry {
    if n == None then e
    else if key == "eq" then e.(eq := n)
    else if key == "ge" then e.(ge := n)
    else if key == "le" then e.(le := n)
    else e
  }

  function EntryOfWords(words: seq<string>): Option<Entry> {
    if |words| < 4 || words[0] != "seq" then None
    else if words[2] != "permit" && words[2] != "deny" then None
    else
      match Atoi(words[1])
      case None => None
      case Some(n) => Some(WithBounds(Entry(n, words[2], words[3], None, None, None), words[4..]))
  }

  /** What a line says about a list: at most one entry, at most one remark. */
  function LineRest(line: string, name: string): Option<string> {
    CutPrefix(line, "ip prefix-list " + name + " ")
  }

  function RestRemarks(rest: string): seq<string> {
    match CutPrefix(rest, "remark ")
    case Some(text) => [text]
    case None => []
  }

  function RestEntries(rest: string): seq<Entry> {
    if CutPrefix(rest, "remark ").Some? then []
    else
      match EntryOfWords(Fields(rest))
      case Some(e) => [e]
      case None => []
  }

  function LineRests(name: string): string -> seq<string> {
    (line: string) => match LineRest(line, name) case Some(rest) => [rest] case None => []
  }

  const PickRemarks := (rest: string) => RestRemarks(rest)
  const PickEntries := (rest: string) => RestEntries(rest)

  /** What follows the list's own prefix, line by line. */
  function Rests(lines: seq<string>, name: string): seq<string> {
    Collect(lines, LineRests(name))
  }

  function LastOr(s: seq<string>, default: string): string {
    if s == [] then default else s[|s| - 1]
  }

  /** The parser's answer for a text, up to the order an unstable sort may give
      to equal sequence numbers. */
  ghost predicate IsReading(lines: seq<string>, name: string, row: Row, found: bool) {
    var rests := Rests(lines, name);
    && found == (rests != [])
    && (!found ==> row == Row("", "", []))
    && (found ==>
          && row.name == name
          && row.remark == LastOr(Collect(rests, PickRemarks), "")
          && multiset(row.entries) == multiset(Collect(rests, PickEntries))
          && SortedBy(row.entries, SeqOf))
  }

  method ParsePrefixListEntryRest(rest: string) returns (entry: Option<Entry>)
    ensures entry == EntryOfWords(Fields(rest))
  {
    var tokens := Fields(rest);
    if |tokens| < 4 || tokens[0] != "seq" {
      return None;
    }
    var n := Atoi(tokens[1]);
    var action := tokens[2];
    if n == None || (action != "permit" && action != "deny") {
      return None;
    }
    var e := Entry(n.value, action, tokens[3], None, None, None);
    var i := 4;
    while i < |tokens| - 1
      invariant 4 <= i <= |tokens|
      invariant WithBounds(e, tokens[i..]) == WithBounds(Entry(n.value, action, tokens[3], None, None, None),
              tokens[4..])
    {
      assert tokens[i..][2..] == tokens[i + 2..];
      var val := Atoi(tokens[i + 1]);
      if val.Some? {
        match tokens[i] {
          case "eq" => e := e.(eq := val);
          case "ge" => e := e.(ge := val);
          case "le" => e := e.(le := val);
          case _ =>
        }
      }
      i := i + 2;
    }
    return Some(e);
  }

  method ParsePrefixListLines(out: string, name: string) returns (row: Row, found: bool)
    ensures IsReading(TrimmedLines(out), name, row, found)
  {
    var remark, entries;
    found, remark, entries := ScanLines(out, name);
    if !found {
      return Row("", "", []), false;
    }
    entries := SortSlice(entries, SeqOf);
    row := Row(name, remark, entries);
  }

  /** The line loop of the parser. */
  method ScanLines(out: string, name: string) returns (found: bool, remark: string, entries: seq<Entry>)
    ensures var rests := Rests(TrimmedLines(out), name);
            && found == (rests != [])
            && remark == LastOr(Collect(rests, PickRemarks), "")
            && entries == Collect(rests, PickEntries)
  {
    var raws := Split(out, '\n');
    ghost var lines := TrimmedLines(out);
    ghost var rests: seq<string> := [];
    found, remark, entries := false, "", [];
    for i := 0 to |raws|
      invariant rests == Rests(lines[..i], name)
      invariant found == (rests != [])
      invariant remark == LastOr(Collect(rests, PickRemarks), "")
      invariant entries == Collect(rests, PickEntries)
    {
      var line := TrimSpace(raws[i]);
      assert lines[..i + 1] == lines[..i] + [line];
      CollectSnoc(lines[..i], line, LineRests(name));
      var rest := CutPrefix(line, "ip prefix-list " + name + " ");
      if rest == None {
        continue;
      }
      found := true;
      ghost var before := rests;
      rests := rests + [rest.value];
      remark, entries := ApplyRest(before, rest.value, remark, entries);
    }
    assert lines[..|raws|] == lines;
  }

  method ApplyRest(ghost before: seq<string>, rest: string, remark: string, entries: seq<Entry>)
    returns (remark': string, entries': seq<Entry>)
    requires remark == LastOr(Collect(before, PickRemarks), "")
    requires entries == Collect(before, PickEntries)
    ensures remark' == LastOr(Collect(before + [rest], PickRemarks), "")
    ensures entries' == Collect(before + [rest], PickEntries)
  {
    CollectSnoc(before, rest, PickRemarks);
    CollectSnoc(before, rest, PickEntries);
    remark', entries' := remark, entries;
    var text := CutPrefix(rest, "remark ");
    if text.Some? {
      return text.value, entries;
    }
    var entry := ParsePrefixListEntryRest(rest);
    if entry.Some? {
      entries' := entries + [entry.value];
    }
  }

  // ---- reading back what was rendered ------------------------------------------------------

  lemma OneBound(e: Entry, key: string, word: string, n: Int)
    requires Atoi(word) == Some(n)
    ensures WithBounds(e, [key, word]) == WithBound(e, key, Some(n))
  {
    assert [key, word][2..] == [];
  }

  lemma TwoBounds(e: Entry, key: string, word: string, n: Int, key': string, word': string, n': Int)
    requires Atoi(word) == Some(n) && Atoi(word') == Some(n')
    ensures WithBounds(e, [key, word, key', word']) == WithBound(WithBound(e, key, Some(n)), key', Some(n'))
  {
    assert [key, word, key', word'][2..] == [key', word'];
    OneBound(WithBound(e, key, Some(n)), key', word', n');
  }

  lemma BoundsRead(e: Entry)
    requires ValidEntry(e)
    ensures WithBounds(Entry(e.seqNo, e.action, e.prefix, None, None, None), Bounds(e)) == e
  {
    var bare := Entry(e.seqNo, e.action, e.prefix, None, None, None);
    if e.eq.Some? {
      AtoiItoa(e.eq.value);
      OneBound(bare, "eq", Itoa(e.eq.value), e.eq.value);
    } else if e.ge.Some? && e.le.Some? {
      AtoiItoa(e.ge.value);
      AtoiItoa(e.le.value);
      TwoBounds(bare, "ge", Itoa(e.ge.value), e.ge.value, "le", Itoa(e.le.value), e.le.value);
    } else if e.ge.Some? {
      AtoiItoa(e.ge.value);
      OneBound(bare, "ge", Itoa(e.ge.value), e.ge.value);
    } else if e.le.Some? {
      AtoiItoa(e.le.value);
      OneBound(bare, "le", Itoa(e.le.value), e.le.value);
    }
  }

  lemma EntryWordsRead(e: Entry)
    requires ValidEntry(e)
    ensures EntryOfWords(EntryWords(e)) == Some(e)
  {
    AtoiItoa(e.seqNo);
    BoundsRead(e);
    assert EntryWords(e)[4..] == Bounds(e);
  }

  lemma EntryWordsAreTokens(e: Entry)
    requires ValidEntry(e)
    ensures AllTokens(EntryWords(e))
  {
    ItoaToken(e.seqNo);
    Netip.PrefixToken(e.prefix);
    BoundsAreTokens(e);
  }

  lemma BoundsAreTokens(e: Entry)
    ensures AllTokens(Bounds(e))
  {
    if e.eq.Some? { ItoaToken(e.eq.value); }
    if e.ge.Some? { ItoaToken(e.ge.value); }
    if e.le.Some? { ItoaToken(e.le.value); }
  }

  function EntryRest(e: Entry): string {
    Join(EntryWords(e), " ")
  }

  lemma EntryCmdShape(name: string, e: Entry)
    ensures EntryCmd(name, e) == "ip prefix-list " + name + " " + EntryRest(e)
  {
    var ws := EntryWords(e);
    assert ["ip", "prefix-list", name] + ws == ["ip"] + (["prefix-list"] + ([name] + ws));
    JoinCons("ip", ["prefix-list"] + ([name] + ws), " ");
    JoinCons("prefix-list", [name] + ws, " ");
    JoinCons(name, ws, " ");
    HeadShape(name, EntryRest(e));
  }

  lemma HeadShape(name: string, rest: string)
    ensures "ip" + " " + ("prefix-list" + " " + (name + " " + rest)) == "ip prefix-list " + name + " " + rest
  {
  }

  lemma EntryRestRead(e: Entry)
    requires ValidEntry(e)
    ensures RestEntries(EntryRest(e)) == [e] && RestRemarks(EntryRest(e)) == []
  {
    EntryWordsAreTokens(e);
    FieldsJoin(EntryWords(e));
    EntryWordsRead(e);
    JoinCons("seq", EntryWords(e)[1..], " ");
    assert EntryWords(e) == ["seq"] + EntryWords(e)[1..];
    NoPrefix(EntryRest(e), "remark ", 0);
  }

  lemma RemarkRestRead(text: string)
    ensures RestEntries("remark " + text) == [] && RestRemarks("remark " + text) == [text]
  {
    CutOwnPrefix("remark ", text);
  }

  /** An entry line is seen by its own list only. */
  lemma EntrySeenBy(m: string, n: string, e: Entry)
    requires IsToken(m) && IsToken(n)
    ensures LineRest(EntryCmd(m, e), n) == if m == n then Some(EntryRest(e)) else None
  {
    EntryCmdShape(m, e);
    CutNamed("ip prefix-list ", m, n, EntryRest(e));
  }

  lemma RemarkSeenBy(m: string, n: string, text: string)
    requires IsToken(m) && IsToken(n)
    ensures LineRest("ip prefix-list " + m + " remark " + text, n)
         == if m == n then Some("remark " + text) else None
  {
    assert "ip prefix-list " + m + " remark " + text == "ip prefix-list " + m + " " + ("remark " + text);
    CutNamed("ip prefix-list ", m, n, "remark " + text);
  }

  lemma NegateSeenByNone(m: string, n: string)
    ensures LineRest(NegateCmd(m), n) == None
  {
    NoPrefix(NegateCmd(m), "ip prefix-list " + n + " ", 0);
  }

  function RemarkRests(args: Args): seq<string> {
    if args.remark.Some? && args.remark.value != "" then ["remark " + args.remark.value] else []
  }

  function EntryRests(es: seq<Entry>): (rests: seq<string>)
    ensures |rests| == |es|
    ensures forall i :: 0 <= i < |es| ==> rests[i] == EntryRest(es[i])
  {
    seq(|es|, i requires 0 <= i < |es| => EntryRest(es[i]))
  }

  lemma EntriesSeenBy(m: string, n: string, es: seq<Entry>)
    requires IsToken(m) && IsToken(n)
    ensures Rests(EntryCmds(m, es), n) == if m == n then EntryRests(es) else []
  {
    var cmds, pick := EntryCmds(m, es), LineRests(n);
    forall i | 0 <= i < |es|
      ensures pick(cmds[i]) == if m == n then [EntryRests(es)[i]] else []
    {
      EntrySeenBy(m, n, es[i]);
    }
    if m == n {
      CollectOneEach(cmds, EntryRests(es), pick);
    } else {
      CollectNothing(cmds, pick);
    }
  }

  lemma RemarksSeenBy(args: Args, n: string)
    requires IsToken(args.name) && IsToken(n)
    ensures Rests(RemarkCmds(args), n) == if args.name == n then RemarkRests(args) else []
  {
    if RemarkCmds(args) != [] {
      RemarkSeenBy(args.name, n, args.remark.value);
      CollectOne(RemarkCmds(args)[0], LineRests(n));
    }
  }

  lemma NegateSeen(m: string, n: string)
    ensures Rests([NegateCmd(m)], n) == []
  {
    NegateSeenByNone(m, n);
    CollectOne(NegateCmd(m), LineRests(n));
  }

  /** What one list's rendered lines look like to the reader of list `n`. */
  lemma RenderedSeenBy(args: Args, n: string)
    requires IsToken(args.name) && IsToken(n)
    ensures Rests(Rendered(args, false), n)
         == if args.name == n then RemarkRests(args) + EntryRests(Ascending(args.entries, SeqOf)) else []
  {
    var es := Ascending(args.entries, SeqOf);
    NegateSeen(args.name, n);
    RemarksSeenBy(args, n);
    EntriesSeenBy(args.name, n, es);
    ThreeParts([NegateCmd(args.name)], RemarkCmds(args), EntryCmds(args.name, es), LineRests(n));
  }

  lemma ThreeParts<A, B>(a: seq<A>, b: seq<A>, c: seq<A>, f: A -> seq<B>)
    ensures Collect(a + (b + c), f) == Collect(a, f) + (Collect(b, f) + Collect(c, f))
  {
    CollectAppend(a, b + c, f);
    CollectAppend(b, c, f);
  }

  lemma EntryRestsRead(es: seq<Entry>)
    requires ValidEntries(es)
    ensures Collect(EntryRests(es), PickEntries) == es
    ensures Collect(EntryRests(es), PickRemarks) == []
  {
    var rests := EntryRests(es);
    forall i | 0 <= i < |es|
      ensures PickEntries(rests[i]) == [es[i]] && PickRemarks(rests[i]) == []
    {
      EntryRestRead(es[i]);
    }
    CollectOneEach(rests, es, PickEntries);
    CollectNothing(rests, PickRemarks);
  }

  lemma RemarkRestsRead(args: Args)
    ensures Collect(RemarkRests(args), PickEntries) == []
    ensures LastOr(Collect(RemarkRests(args), PickRemarks), "") == RemarkText(args)
    ensures |Collect(RemarkRests(args), PickRemarks)| <= 1
  {
    if RemarkRests(args) != [] {
      RemarkRestRead(args.remark.value);
      CollectOne(RemarkRests(args)[0], PickEntries);
      CollectOne(RemarkRests(args)[0], PickRemarks);
    }
  }

  function RemarkText(args: Args): string {
    if args.remark.Some? then args.remark.value else ""
  }

  /** The rests of one list, in any order, read back as that list. */
  lemma RestsRead(args: Args, rests: seq<string>)
    requires ValidArgs(args)
    requires multiset(rests) == multiset(RemarkRests(args) + EntryRests(Ascending(args.entries, SeqOf)))
    ensures rests != []
    ensures LastOr(Collect(rests, PickRemarks), "") == RemarkText(args)
    ensures multiset(Collect(rests, PickEntries)) == multiset(args.entries)
  {
    var es := Ascending(args.entries, SeqOf);
    var whole := RemarkRests(args) + EntryRests(es);
    AscendingValid(args);
    EntryRestsRead(es);
    RemarkRestsRead(args);
    CollectAppend(RemarkRests(args), EntryRests(es), PickEntries);
    CollectAppend(RemarkRests(args), EntryRests(es), PickRemarks);
    CollectPermuted(rests, whole, PickEntries);
    CollectPermuted(rests, whole, PickRemarks);
    SameSmall(Collect(rests, PickRemarks), Collect(whole, PickRemarks));
    SameLength(rests, whole);
  }

  lemma SameSmall<T>(a: seq<T>, b: seq<T>)
    requires multiset(a) == multiset(b)
    requires |b| <= 1
    ensures a == b
  {
    assert |multiset(a)| == |a| && |multiset(b)| == |b|;
    if |a| == 1 {
      assert a[0] in multiset(b);
    }
  }

  function AllRendered(lists: seq<Args>): seq<string> {
    if lists == [] then [] else AllRendered(lists[..|lists| - 1]) + Rendered(lists[|lists| - 1], false)
  }

  predicate NamesApart(lists: seq<Args>) {
    && (forall i :: 0 <= i < |lists| ==> IsToken(lists[i].name))
    && (forall i, j :: 0 <= i < j < |lists| ==> lists[i].name != lists[j].name)
  }

  lemma FrontApart(lists: seq<Args>)
    requires NamesApart(lists) && lists != []
    ensures NamesApart(lists[..|lists| - 1])
    ensures forall i :: 0 <= i < |lists| - 1 ==> lists[..|lists| - 1][i] == lists[i]
  {
    var front := lists[..|lists| - 1];
    assert forall i :: 0 <= i < |front| ==> front[i] == lists[i];
  }

  lemma {:induction false} OthersNotSeen(lists: seq<Args>, n: string)
    requires NamesApart(lists) && IsToken(n)
    requires forall i :: 0 <= i < |lists| ==> lists[i].name != n
    ensures Rests(AllRendered(lists), n) == []
  {
    if lists != [] {
      FrontApart(lists);
      OthersNotSeen(lists[..|lists| - 1], n);
      LastRenderedSeenBy(lists, n);
    }
  }

  lemma {:induction false} OwnSeen(lists: seq<Args>, i: nat)
    requires NamesApart(lists) && i < |lists|
    ensures Rests(AllRendered(lists), lists[i].name) == Rests(Rendered(lists[i], false), lists[i].name)
  {
    FrontApart(lists);
    LastRenderedSeenBy(lists, lists[i].name);
    if i < |lists| - 1 {
      OwnSeen(lists[..|lists| - 1], i);
    } else {
      OthersNotSeen(lists[..|lists| - 1], lists[i].name);
    }
  }

  lemma LastRenderedSeenBy(lists: seq<Args>, n: string)
    requires lists != [] && IsToken(lists[|lists| - 1].name) && IsToken(n)
    ensures var last := lists[|lists| - 1];
            var others := Rests(AllRendered(lists[..|lists| - 1]), n);
            && (last.name != n ==> Rests(AllRendered(lists), n) == others)
            && (others == [] ==> Rests(AllRendered(lists), n) == Rests(Rendered(last, false), n))
  {
    var k := |lists| - 1;
    RenderedSeenBy(lists[k], n);
    CollectAppend(AllRendered(lists[..k]), Rendered(lists[k], false), LineRests(n));
  }

  /** The round trip, with isolation: in any text whose lines are the rendered
      lines of several lists, in any order and with any indentation, reading one
      list gives exactly its remark and its entries in ascending order. */
  lemma ReadsBack(lists: seq<Args>, k: nat, text: string, row: Row, found: bool)
    requires k < |lists| && NamesApart(lists) && ValidArgs(lists[k])
    requires multiset(TrimmedLines(text)) == multiset(AllRendered(lists))
    requires IsReading(TrimmedLines(text), lists[k].name, row, found)
    ensures found
    ensures row == Row(lists[k].name, RemarkText(lists[k]), Ascending(lists[k].entries, SeqOf))
  {
    var args := lists[k];
    var rests := Rests(TrimmedLines(text), args.name);
    CollectPermuted(TrimmedLines(text), AllRendered(lists), LineRests(args.name));
    OwnSeen(lists, k);
    RenderedSeenBy(args, args.name);
    RestsRead(args, rests);
    DistinctKeysPermuted(args.entries, Collect(rests, PickEntries), SeqOf);
    SortSliceDetermined(Collect(rests, PickEntries), row.entries, SeqOf);
    AscendingOfPermutation(args.entries, Collect(rests, PickEntries), SeqOf);
  }

  /** A list that is not in the text is not found. */
  lemma AbsentNotFound(lists: seq<Args>, n: string, text: string, row: Row, found: bool)
    requires NamesApart(lists) && IsToken(n)
    requires forall i :: 0 <= i < |lists| ==> lists[i].name != n
    requires multiset(TrimmedLines(text)) == multiset(AllRendered(lists))
    requires IsReading(TrimmedLines(text), n, row, found)
    ensures !found
  {
    CollectPermuted(TrimmedLines(text), AllRendered(lists), LineRests(n));
    OthersNotSeen(lists, n);
    assert |multiset(Rests(TrimmedLines(text), n))| == |Rests(TrimmedLines(text), n)|;
  }

  /** A remark survives the line scanner: one line, not ending in white space. */
  predicate PlainRemark(args: Args) {
    EndsLine(RemarkText(args))
  }

  const Ends := (s: string) => EndsLine(s)

  lemma RestsEnd(lines: seq<string>, name: string)
    requires AllLines(lines)
    ensures All(Rests(lines, name), Ends)
  {
    forall i | 0 <= i < |lines| ensures All(LineRests(name)(lines[i]), Ends) {
      var head := "ip prefix-list " + name + " ";
      if CutPrefix(lines[i], head).Some? {
        TailEndsLine(lines[i], head, CutPrefix(lines[i], head).value);
      }
    }
    CollectAll(lines, LineRests(name), Ends);
  }

  lemma RemarksEnd(rests: seq<string>)
    requires All(rests, Ends)
    ensures All(Collect(rests, PickRemarks), Ends)
  {
    forall i | 0 <= i < |rests| ensures All(PickRemarks(rests[i]), Ends) {
      assert Ends(rests[i]);
      if HasPrefix(rests[i], "remark ") {
        CutEndsLine(rests[i], "remark ");
      }
    }
    CollectAll(rests, PickRemarks, Ends);
  }

  /** Whatever the text, the remark that is read is such a one. */
  lemma ReadRemarkEnds(text: string, name: string, row: Row, found: bool)
    requires IsReading(TrimmedLines(text), name, row, found)
    ensures EndsLine(row.remark)
  {
    var rests := Rests(TrimmedLines(text), name);
    RestsEnd(TrimmedLines(text), name);
    RemarksEnd(rests);
    if found && Collect(rests, PickRemarks) != [] {
      assert Ends(row.remark);
    }
  }

  lemma EntryCmdIsLine(name: string, e: Entry)
    requires IsToken(name) && ValidEntry(e)
    ensures IsLine(EntryCmd(name, e))
  {
    EntryWordsAreTokens(e);
    JoinIsLine(["ip", "prefix-list", name] + EntryWords(e));
  }

  /** For such lists the texts in question exist: printing the rendered lines one
      under another, in any order, is one. */
  lemma RenderedAreLines(args: Args)
    requires IsToken(args.name) && ValidArgs(args) && PlainRemark(args)
    ensures AllLines(Rendered(args, false))
  {
    var es := Ascending(args.entries, SeqOf);
    assert IsLine(NegateCmd(args.name));
    AscendingValid(args);
    forall i | 0 <= i < |es| ensures IsLine(EntryCmds(args.name, es)[i]) {
      EntryCmdIsLine(args.name, es[i]);
    }
    if RemarkCmds(args) != [] {
      RemarkIsLine(args.name, args.remark.value);
    }
  }

  lemma RemarkIsLine(name: string, text: string)
    requires IsToken(name)
    requires text != "" && '\n' !in text && !IsSpace(text[|text| - 1])
    ensures IsLine("ip prefix-list " + name + " remark " + text)
  {
    var line := "ip prefix-list " + name + " remark " + text;
    assert line[0] == 'i' && line[|line| - 1] == text[|text| - 1];
  }
}
