/** Exactly when other text in the same listing leaves the reading of a route-map
    alone. */
module RouteMapIsolation {
  import opened Seqs
  import opened Sorting
  import opened Text
  import opened Eos
  import opened RouteMap
  import opened RouteMapDevice
  import opened RouteMapRead
  import Scanner

  /** Arguments whose rendering reads back. */
  ghost predicate Usable(args: Args) {
    ValidArgs(args) && AllWordsOnly(args.entries) && AllReadable(args.entries)
  }

  function Listing(before: seq<string>, args: Args, after: seq<string>): seq<string> {
    before + Blocks(args) + after
  }

  /** Every map of this name reads back as declared between these two texts. */
  ghost predicate ReadsIntact(name: string, before: seq<string>, after: seq<string>) {
    forall args: Args, entries: seq<Entry> ::
      args.name == name && Usable(args) && IsReading(Listing(before, args, after), name, entries)
      ==> entries == NormalisedAll(Ascending(args.entries, SeqOf))
  }

  // ---- lines that say nothing about an entry ---------------------------------------------

  predicate Harmless(line: string) {
    && !HasPrefix(line, "match ")
    && !HasPrefix(line, "set ")
    && (match CutPrefix(line, "continue ")
        case Some(rest) => Atoi(rest) == None
        case None => true)
  }

  predicate AllHarmless(lines: seq<string>) {
    forall i :: 0 <= i < |lines| ==> Harmless(lines[i])
  }

  lemma HarmlessIgnored(cur: Entry, lines: seq<string>)
    requires AllHarmless(lines)
    ensures ApplyAll(cur, lines) == cur
  {
    forall i | 0 <= i < |lines| ensures ClauseStep(cur, lines[i]) == cur {
      assert Harmless(lines[i]);
    }
    Scanner.ScanIdle(cur, lines, ClauseStep);
  }

  /** An entry with some clause. */
  predicate Marked(e: Entry) {
    e.matches.Some? || e.sets.Some? || e.continueAt.Some?
  }

  lemma LineMarks(e: Entry, line: string)
    ensures Marked(e) || !Harmless(line) ==> Marked(ApplyClauseLine(e, line))
  {
  }

  lemma {:induction false} HarmfulLinesMark(e: Entry, lines: seq<string>)
    ensures Marked(e) || !AllHarmless(lines) ==> Marked(ApplyAll(e, lines))
  {
    if lines != [] {
      var k := |lines| - 1;
      HarmfulLinesMark(e, lines[..k]);
      LineMarks(ApplyAll(e, lines[..k]), lines[k]);
      Snoc(lines);
      ApplyAppend(e, lines[..k], [lines[k]]);
      ApplyOne(ApplyAll(e, lines[..k]), lines[k]);
      if !AllHarmless(lines) && Harmless(lines[k]) {
        var i :| 0 <= i < |lines| && !Harmless(lines[i]);
        assert lines[..k][i] == lines[i];
      }
    }
  }

  // ---- a map with nothing in it --------------------------------------------------------------

  /** The least a map can be: one entry without a clause. */
  function Bare(name: string): Args {
    Args(name, [Entry(10, "permit", None, None, None)])
  }

  lemma BareUsable(name: string)
    requires TrimSpace(name) != ""
    ensures Usable(Bare(name))
    ensures NormalisedAll(Ascending(Bare(name).entries, SeqOf)) == Bare(name).entries
  {
    var e := Bare(name).entries[0];
    forall c: Clause ensures AllTokens(ClauseArgs(e, c)) {
      assert ClauseArgs(e, c) == [];
    }
    assert WordsOnly(e) && Readable(e) && ValidEntry(e);
    var es := Bare(name).entries;
    assert SortedBy(es, SeqOf) && DistinctKeys(es, SeqOf);
    SortSliceDetermined(es, es, SeqOf);
    BareNormal(e);
    assert NormalisedAll(es) == [Normalised(e)];
  }

  lemma BareNormal(e: Entry)
    requires e.matches == None && e.sets == None
    ensures Normalised(e) == e
  {
  }

  // ---- the exact condition ---------------------------------------------------------------------

  /** A map among other text: any text without its headers may stand before it, and any
      text after it that is harmless. */
  lemma ReadsBackAmong(before: seq<string>, args: Args, after: seq<string>, entries: seq<Entry>)
    requires Usable(args) && NoHeaders(before, args.name) && NoHeaders(after, args.name)
    requires AllHarmless(after)
    requires IsReading(Listing(before, args, after), args.name, entries)
    ensures entries == NormalisedAll(Ascending(args.entries, SeqOf))
  {
    var es := NormalisedAll(Ascending(args.entries, SeqOf));
    ForeignLinesReadAsOurs(before, args, after);
    HarmlessIgnored(es[|es| - 1], after);
    Snoc(es);
    ScannedInOrder(args, Finish(ScanLines(NOTHING, Listing(before, args, after), args.name)), entries);
  }

  lemma HarmIsRead(name: string, before: seq<string>, after: seq<string>) returns (entries: seq<Entry>)
    requires TrimSpace(name) != "" && NoHeaders(before, name) && NoHeaders(after, name)
    requires !AllHarmless(after)
    ensures IsReading(Listing(before, Bare(name), after), name, entries)
    ensures entries != Bare(name).entries
  {
    BareUsable(name);
    var e := Bare(name).entries[0];
    ForeignLinesReadAsOurs(before, Bare(name), after);
    HarmfulLinesMark(e, after);
    entries := Finish(ScanLines(NOTHING, Listing(before, Bare(name), after), name));
    AppendEmpty([ApplyAll(e, after)]);
    assert entries == [ApplyAll(e, after)];
    assert entries[0] != e;
  }

  /** Between two texts without its headers, every map of a name reads back intact if and
      only if no line of the second starts `match ` or `set `, and none is a `continue`
      with a number. */
  lemma IntactExactly(name: string, before: seq<string>, after: seq<string>)
    requires TrimSpace(name) != "" && NoHeaders(before, name) && NoHeaders(after, name)
    ensures ReadsIntact(name, before, after) <==> AllHarmless(after)
  {
    if AllHarmless(after) {
      forall args: Args, entries: seq<Entry>
        | args.name == name && Usable(args) && IsReading(Listing(before, args, after), name, entries)
        ensures entries == NormalisedAll(Ascending(args.entries, SeqOf))
      {
        ReadsBackAmong(before, args, after, entries);
      }
    } else {
      var entries := HarmIsRead(name, before, after);
      BareUsable(name);
    }
  }

  // ---- other maps in the same text --------------------------------------------------------------

  lemma HarmfulHead(c: Clause, x: string)
    requires c != ContinueAt
    ensures !Harmless(Head(c) + x)
  {
    HeadBegins(c);
    if HasPrefix(Head(c), "match ") {
      LongerLine(Head(c), x, "match ");
    } else {
      LongerLine(Head(c), x, "set ");
    }
  }

  lemma LongerLine(head: string, x: string, p: string)
    requires HasPrefix(head, p)
    ensures HasPrefix(head + x, p)
  {
    assert (head + x)[..|p|] == head[..|p|];
  }

  lemma HeadBegins(c: Clause)
    requires c != ContinueAt
    ensures HasPrefix(Head(c), "match ") || HasPrefix(Head(c), "set ")
  {
    if IsMatchClause(c) {
      MatchHeadBegins(c);
    } else {
      SetHeadBegins(c);
    }
  }

  lemma MatchHeadBegins(c: Clause)
    requires IsMatchClause(c)
    ensures HasPrefix(Head(c), "match ")
  {
    assert Head(c)[..6] == "match ";
  }

  lemma SetHeadBegins(c: Clause)
    requires !IsMatchClause(c) && c != ContinueAt
    ensures HasPrefix(Head(c), "set ")
  {
    assert Head(c)[..4] == "set ";
  }

  lemma ContinueHarms(n: Int)
    ensures !Harmless("continue " + Itoa(n))
  {
    CutOwnPrefix("continue ", Itoa(n));
    AtoiItoa(n);
  }

  /** No line of an entry's body is harmless. */
  lemma ClauseHarms(e: Entry, c: Clause, i: nat)
    requires i < |ClauseLines(e, c)|
    ensures !Harmless(ClauseLines(e, c)[i])
  {
    if c == SetExtcommunityRt {
      RtHarms(e, i);
    } else if c == ContinueAt {
      ContinueHarms(e.continueAt.value);
    } else {
      HarmfulHead(c, Join(ClauseArgs(e, c), " "));
    }
  }

  lemma RtHarms(e: Entry, i: nat)
    requires i < |EntryRtLines(e)|
    ensures !Harmless(EntryRtLines(e)[i])
  {
    var rt, additive := e.sets.value.extcommunityRt[i], Flag(e.sets.value.extcommunityRtAdditive);
    var tail := if additive then rt + " additive" else rt;
    Associate("set extcommunity rt ", rt, " additive");
    HarmfulHead(SetExtcommunityRt, tail);
  }

  lemma {:induction false} BodyHarms(e: Entry, cs: seq<Clause>)
    ensures AllHarmless(Collect(cs, LinesOf(e))) ==> Collect(cs, LinesOf(e)) == []
  {
    if cs != [] {
      var k := |cs| - 1;
      var front, last := Collect(cs[..k], LinesOf(e)), ClauseLines(e, cs[k]);
      BodyHarms(e, cs[..k]);
      if AllHarmless(front + last) {
        FrontHarmless(front, last);
        if last != [] {
          ClauseHarms(e, cs[k], 0);
        }
      }
    }
  }

  lemma FrontHarmless(a: seq<string>, b: seq<string>)
    ensures AllHarmless(a + b) <==> AllHarmless(a) && AllHarmless(b)
  {
    if AllHarmless(a + b) {
      forall i | 0 <= i < |a| ensures Harmless(a[i]) {
        assert (a + b)[i] == a[i];
      }
      forall i | 0 <= i < |b| ensures Harmless(b[i]) {
        assert (a + b)[|a| + i] == b[i];
      }
    }
  }

  lemma FrameHarmless(line: string)
    requires line != "" && line[0] != 'm' && line[0] != 's' && line[0] != 'c'
    ensures Harmless(line)
  {
    NoPrefix(line, "match ", 0);
    NoPrefix(line, "set ", 0);
    NoPrefix(line, "continue ", 0);
  }

  /** A block is harmless exactly when it holds no clause. */
  lemma EntryHarms(name: string, e: Entry)
    ensures AllHarmless(EntryLines(name, e)) <==> BodyLines(e) == []
  {
    BodyByClause(e);
    BodyHarms(e, ORDER);
    HeaderFrame(name, e);
    FrameHarmless("exit");
    FrontHarmless([HeaderLine(name, e)] + BodyLines(e), ["exit"]);
    FrontHarmless([HeaderLine(name, e)], BodyLines(e));
  }

  lemma HeaderFrame(name: string, e: Entry)
    ensures Harmless(HeaderLine(name, e))
  {
    assert HeaderLine(name, e)[0] == 'r';
    FrameHarmless(HeaderLine(name, e));
  }

  predicate NoClause(e: Entry) {
    BodyLines(e) == []
  }

  predicate NoClauses(es: seq<Entry>) {
    All(es, NoClause)
  }

  lemma {:induction false} EntriesHarm(name: string, es: seq<Entry>)
    ensures AllHarmless(AllEntryLines(name, es)) <==> NoClauses(es)
  {
    if es != [] {
      var k := |es| - 1;
      EntriesHarm(name, es[..k]);
      EntryHarms(name, es[k]);
      FrontHarmless(AllEntryLines(name, es[..k]), EntryLines(name, es[k]));
      LastOfAll(es);
    }
  }

  lemma LastOfAll(es: seq<Entry>)
    requires es != []
    ensures NoClauses(es) <==> NoClauses(es[..|es| - 1]) && NoClause(es[|es| - 1])
  {
    AllLast(es, NoClause);
  }

  lemma NoHeadersAppend(a: seq<string>, b: seq<string>, name: string)
    requires NoHeaders(a, name) && NoHeaders(b, name)
    ensures NoHeaders(a + b, name)
  {
  }

  lemma OtherHeader(other: string, e: Entry, name: string)
    requires IsToken(other) && IsToken(name) && other != name
    ensures NoHeaders([HeaderLine(other, e)], name)
  {
    var number := Itoa(e.seqNo);
    CutNamed("route-map ", other, name, e.action + " " + number);
    FourPieces("route-map " + other + " ", e.action, " ", number);
  }

  lemma FourPieces<T>(a: seq<T>, b: seq<T>, c: seq<T>, d: seq<T>)
    ensures a + b + c + d == a + (b + c + d)
  {
  }

  lemma OtherEntryNoHeader(other: string, e: Entry, name: string)
    requires IsToken(other) && IsToken(name) && other != name
    ensures NoHeaders(EntryLines(other, e), name)
  {
    BodyByClause(e);
    BodyNoHeader(e, ORDER, name);
    OtherHeader(other, e, name);
    NoHeadersAppend([HeaderLine(other, e)], BodyLines(e), name);
    NoPrefix("exit", "route-map " + name + " ", 0);
    NoHeadersAppend([HeaderLine(other, e)] + BodyLines(e), ["exit"], name);
  }

  lemma {:induction false} OtherEntriesNoHeader(other: string, es: seq<Entry>, name: string)
    requires IsToken(other) && IsToken(name) && other != name
    ensures NoHeaders(AllEntryLines(other, es), name)
  {
    if es != [] {
      OtherEntriesNoHeader(other, es[..|es| - 1], name);
      OtherEntryNoHeader(other, es[|es| - 1], name);
    }
  }

  lemma NoClausesPermuted(a: seq<Entry>, b: seq<Entry>)
    requires multiset(a) == multiset(b) && NoClauses(a)
    ensures NoClauses(b)
  {
    forall i | 0 <= i < |b| ensures NoClause(b[i]) {
      SameElements(b, a, i);
    }
  }

  lemma OtherMapNoHeader(other: Args, name: string)
    requires IsToken(other.name) && IsToken(name) && other.name != name
    ensures NoHeaders(Rendered(other, false), name)
  {
    NoPrefix(NegateCmd(other.name), "route-map " + name + " ", 0);
    OtherEntriesNoHeader(other.name, Ascending(other.entries, SeqOf), name);
    NoHeadersAppend([NegateCmd(other.name)], AllEntryLines(other.name, Ascending(other.entries, SeqOf)), name);
  }

  lemma OtherMapHarms(other: Args)
    ensures AllHarmless(Rendered(other, false)) <==> NoClauses(other.entries)
  {
    var es := Ascending(other.entries, SeqOf);
    FrameHarmless(NegateCmd(other.name));
    FrontHarmless([NegateCmd(other.name)], AllEntryLines(other.name, es));
    EntriesHarm(other.name, es);
    if NoClauses(es) {
      NoClausesPermuted(es, other.entries);
    } else if NoClauses(other.entries) {
      NoClausesPermuted(other.entries, es);
    }
  }

  /** The rendered commands of another map leave a map's reading intact if and only if
      that other map has no clause in any entry. */
  lemma OtherMapExactly(name: string, before: seq<string>, other: Args)
    requires IsToken(name) && IsToken(other.name) && other.name != name
    requires NoHeaders(before, name)
    ensures ReadsIntact(name, before, Rendered(other, false)) <==> NoClauses(other.entries)
  {
    OtherMapNoHeader(other, name);
    OtherMapHarms(other);
    IntactExactly(name, before, Rendered(other, false));
  }

  /** A map of one entry that matches a tag. */
  function Tagging(name: string): Args {
    Args(name, [Entry(10, "permit", Some(EMPTY_MATCH.(tag := Some(5))), None, None)])
  }

  /** An ordinary map does the damage: after the commands of a map that matches tag 5,
      the bare map in front of them reads as one that matches tag 5 too. */
  lemma TagLeaks(name: string, other: string)
    requires IsToken(name) && IsToken(other) && name != other
    ensures ValidArgs(Tagging(other))
    ensures !ReadsIntact(name, [NegateCmd(name)], Rendered(Tagging(other), false))
  {
    NegateNoHeader(name);
    TaggingHasClause(other);
    OtherMapExactly(name, [NegateCmd(name)], Tagging(other));
    TaggingValid(other);
  }

  lemma TaggingValid(name: string)
    requires IsToken(name)
    ensures ValidArgs(Tagging(name))
  {
    assert TrimSpace(name) == name;
    assert ValidEntry(Tagging(name).entries[0]);
  }

  lemma TaggingHasClause(name: string)
    ensures !NoClauses(Tagging(name).entries)
  {
    var e := Tagging(name).entries[0];
    TagLine(e, OneLine("match tag ", NumberArg(Some(5))));
    assert BodyLines(e) != [];
  }

  lemma TagLine(e: Entry, last: seq<string>)
    requires e.matches == Some(EMPTY_MATCH.(tag := Some(5)))
    requires last == OneLine("match tag ", NumberArg(Some(5)))
    ensures MatchPart(e) != []
  {
    var m := e.matches.value;
    var front := MatchListLines(m)
      + OneLine("match interface ", TextArg(m.iface))
      + OneLine("match local-preference ", NumberArg(m.localPreference))
      + OneLine("match metric ", NumberArg(m.metric))
      + OneLine("match source-protocol ", TextArg(m.sourceProtocol));
    assert |last| == 1;
    assert MatchPart(e) == front + last;
  }
}
