/** From apply to refresh: after any run of applies over a network that breaks, what
    Read finds of a route-map is what the last effective commit declared. */
module RouteMapRefresh {
  import opened Text
  import opened Seqs
  import opened Sorting
  import opened Eapi
  import opened Eos
  import opened RouteMap
  import opened RouteMapDevice
  import opened RouteMapRead
  import opened RouteMapIsolation
  import opened Runs

  // ---- Read ------------------------------------------------------------------------------

  function HeaderStart(name: string): string {
    "route-map " + name + " "
  }

  /** Nothing is found in a text that does not mention the map's header. */
  ghost predicate Reads(out: string, name: string, found: Option<seq<Entry>>) {
    if Contains(out, HeaderStart(name))
    then found.Some? && IsReading(TrimmedLines(out), name, found.value)
    else found == None
  }

  method ReadRouteMap(out: string, name: string) returns (found: Option<seq<Entry>>)
    ensures Reads(out, name, found)
  {
    if out == "" || !Contains(out, "route-map " + name + " ") {
      EmptyHasNoHeader(name);
      return None;
    }
    var entries := ParseRouteMapSection(out, name);
    found := Some(entries);
  }

  lemma EmptyHasNoHeader(name: string)
    ensures !Contains("", HeaderStart(name))
  {
    assert |HeaderStart(name)| > 0;
  }

  // ---- how the device shows a map ----------------------------------------------------------

  /** One block in a listing: its clauses in some order, and what stands after it. */
  datatype Shown = Shown(entry: Entry, order: seq<Clause>, tail: seq<string>)

  /** The keyword of an extended community line is no community of its own. */
  predicate PlainRts(e: Entry) {
    e.sets.Some? ==> "additive" !in e.sets.value.extcommunityRt
  }

  ghost predicate ShownBlock(b: Shown, name: string) {
    && ValidEntry(b.entry) && WordsOnly(b.entry) && Readable(b.entry) && PlainRts(b.entry)
    && DistinctClauses(b.order) && (forall c: Clause :: c in b.order)
    && NoHeaders(b.tail, name) && AllHarmless(b.tail)
  }

  ghost predicate ShownBlocks(bs: seq<Shown>, name: string) {
    forall i :: 0 <= i < |bs| ==> ShownBlock(bs[i], name)
  }

  function BlockLines(name: string, b: Shown): seq<string> {
    [HeaderLine(name, b.entry)] + Collect(b.order, LinesOf(b.entry)) + b.tail
  }

  function AllBlockLines(name: string, bs: seq<Shown>): seq<string> {
    if bs == [] then [] else AllBlockLines(name, bs[..|bs| - 1]) + BlockLines(name, bs[|bs| - 1])
  }

  function EntriesOf(bs: seq<Shown>): (es: seq<Entry>)
    ensures |es| == |bs|
    ensures forall i :: 0 <= i < |bs| ==> es[i] == bs[i].entry
  {
    seq(|bs|, i requires 0 <= i < |bs| => bs[i].entry)
  }

  /** The blocks are shown in any order, one for each sequence number the device holds,
      each with exactly the clauses it holds. Anything that is not a header of the map may
      stand in front, and harmless lines after each block. */
  ghost predicate ShowsAs(lines: seq<string>, name: string, blocks: map<int, Block>, before: seq<string>,
                          bs: seq<Shown>) {
    && lines == before + AllBlockLines(name, bs)
    && NoHeaders(before, name) && ShownBlocks(bs, name)
    && DistinctKeys(EntriesOf(bs), SeqOf)
    && Table(EntriesOf(bs), SeqOf, BlockOf) == blocks
  }

  ghost predicate Shows(lines: seq<string>, name: string, cfg: Config) {
    if name in cfg.routeMaps then exists before, bs :: ShowsAs(lines, name, cfg.routeMaps[name], before, bs)
    else NoHeaders(lines, name)
  }

  // ---- reading such a listing ----------------------------------------------------------------

  lemma PartComplete(e: Entry, cs: seq<Clause>)
    requires forall c: Clause :: c in cs
    ensures Part(e, cs) == Normalised(e)
  {
  }

  /** The order of the clauses is immaterial, and so is what follows them. */
  lemma BlockScanned(s: Scan, name: string, b: Shown)
    requires ShownBlock(b, name)
    ensures ScanLines(s, BlockLines(name, b), name) == Scan(Finish(s), Some(Normalised(b.entry)))
  {
    var e, header, body := b.entry, [HeaderLine(name, b.entry)], Collect(b.order, LinesOf(b.entry));
    RouteMapRead.HeaderRead(name, e);
    ScanOne(s, HeaderLine(name, e), name);
    BodyNoHeader(e, b.order, name);
    ScanBody(Finish(s), Part(e, []), body, name);
    BodyRead(e, b.order);
    PartComplete(e, b.order);
    ScanBody(Finish(s), Normalised(e), b.tail, name);
    HarmlessIgnored(Normalised(e), b.tail);
    ScanAppend(s, header, body, name);
    ScanAppend(s, header + body, b.tail, name);
  }

  lemma BlockFinished(lines: seq<string>, name: string, b: Shown)
    requires ShownBlock(b, name)
    ensures Finish(ScanLines(NOTHING, lines + BlockLines(name, b), name))
         == Finish(ScanLines(NOTHING, lines, name)) + [Normalised(b.entry)]
  {
    BlockScanned(ScanLines(NOTHING, lines, name), name, b);
    ScanAppend(NOTHING, lines, BlockLines(name, b), name);
  }

  lemma {:induction false} BlocksShownScanned(name: string, bs: seq<Shown>)
    requires ShownBlocks(bs, name)
    ensures Finish(ScanLines(NOTHING, AllBlockLines(name, bs), name)) == NormalisedAll(EntriesOf(bs))
  {
    if bs == [] {
      NothingScanned(name);
    } else {
      var k := |bs| - 1;
      BlocksShownScanned(name, bs[..k]);
      BlockFinished(AllBlockLines(name, bs[..k]), name, bs[k]);
      EntriesFront(bs);
      NormalisedSnoc(EntriesOf(bs));
    }
  }

  lemma NothingScanned(name: string)
    ensures Finish(ScanLines(NOTHING, [], name)) == []
  {
  }

  lemma EntriesFront(bs: seq<Shown>)
    requires bs != []
    ensures EntriesOf(bs)[..|bs| - 1] == EntriesOf(bs[..|bs| - 1])
    ensures EntriesOf(bs)[|bs| - 1] == bs[|bs| - 1].entry
  {
  }

  lemma ShownRead(name: string, blocks: map<int, Block>, before: seq<string>, bs: seq<Shown>, lines: seq<string>,
                  entries: seq<Entry>)
    requires ShowsAs(lines, name, blocks, before, bs) && IsReading(lines, name, entries)
    ensures multiset(entries) == multiset(NormalisedAll(EntriesOf(bs)))
    ensures DistinctKeys(entries, SeqOf)
  {
    BlocksShownScanned(name, bs);
    BeforeScanned(before, name);
    ScanAppend(NOTHING, before, AllBlockLines(name, bs), name);
    NormalisedDistinct(EntriesOf(bs));
    DistinctKeysPermuted(NormalisedAll(EntriesOf(bs)), entries, SeqOf);
  }

  lemma NormalisedDistinct(es: seq<Entry>)
    requires DistinctKeys(es, SeqOf)
    ensures DistinctKeys(NormalisedAll(es), SeqOf)
  {
    var r := NormalisedAll(es);
    forall i, j | 0 <= i < j < |r| ensures SeqOf(r[i]) != SeqOf(r[j]) {
      assert SeqOf(es[i]) != SeqOf(es[j]);
    }
  }

  // ---- the normal form declares the same ---------------------------------------------------------

  lemma NormSetArgs(s: Set, c: Clause)
    ensures SetArgs(NormSet(s), c) == SetArgs(s, c)
  {
  }

  lemma NormalisedArgs(e: Entry, c: Clause)
    ensures ClauseArgs(Normalised(e), c) == ClauseArgs(e, c)
  {
    var n := Normalised(e);
    if c != ContinueAt {
      NormMatchArgs(MatchOf(e), c);
      NormSetArgs(SetOf(e), c);
      EmptyArgs(c);
    }
  }

  lemma NormalisedBlock(e: Entry)
    ensures BlockOf(Normalised(e)) == BlockOf(e)
  {
    forall c: Clause ensures ClauseArgs(Normalised(e), c) == ClauseArgs(e, c) {
      NormalisedArgs(e, c);
    }
  }

  lemma {:induction false} NormalisedTable(es: seq<Entry>)
    ensures Table(NormalisedAll(es), SeqOf, BlockOf) == Table(es, SeqOf, BlockOf)
  {
    if es != [] {
      NormalisedTable(es[..|es| - 1]);
      NormalisedBlock(es[|es| - 1]);
      NormalisedSnoc(es);
      TableSnoc(NormalisedAll(es[..|es| - 1]), Normalised(es[|es| - 1]), SeqOf, BlockOf);
    }
  }

  /** What is read declares exactly what the device holds. */
  lemma ReadDeclares(name: string, blocks: map<int, Block>, before: seq<string>, bs: seq<Shown>, lines: seq<string>,
                     entries: seq<Entry>)
    requires ShowsAs(lines, name, blocks, before, bs) && IsReading(lines, name, entries)
    ensures Table(entries, SeqOf, BlockOf) == blocks
  {
    var es := EntriesOf(bs);
    ShownRead(name, blocks, before, bs, lines, entries);
    NormalisedTable(es);
    NormalisedDistinct(es);
    TablePermuted(NormalisedAll(es), entries, SeqOf, BlockOf);
  }

  // ---- and the state determines the normal form -----------------------------------------------------

  /** Usable as declared, and written without a keyword for a community. */
  ghost predicate Telling(e: Entry) {
    WordsOnly(e) && Readable(e) && PlainRts(e)
  }

  lemma SameBlockSameArgs(a: Entry, b: Entry, c: Clause)
    requires BlockOf(a) == BlockOf(b)
    ensures ClauseArgs(a, c) == ClauseArgs(b, c)
  {
    OrderIsComplete(c);
    var da, db := DeclaredClauses(a, ORDER), DeclaredClauses(b, ORDER);
    assert da == db;
    assert c in da <==> ClauseArgs(a, c) != [];
    assert c in db <==> ClauseArgs(b, c) != [];
  }

  lemma TextTold(a: Option<string>, b: Option<string>)
    requires TextArg(a) == TextArg(b)
    ensures NormText(a) == NormText(b)
  {
    if TextArg(a) != [] {
      assert TextArg(a)[0] == TextArg(b)[0];
    }
  }

  lemma NumberTold(a: Option<Int>, b: Option<Int>)
    requires NumberArg(a) == NumberArg(b)
    ensures a == b
  {
    if a.Some? {
      assert NumberArg(a)[0] == NumberArg(b)[0];
      ItoaInjective(a.value, b.value);
    }
  }

  lemma NumbersTold(a: seq<Int>, b: seq<Int>)
    requires ItoaAll(a) == ItoaAll(b)
    ensures a == b
  {
    IntsReadBack(a);
    IntsReadBack(b);
  }

  lemma MatchTold(a: Match, b: Match)
    requires forall c: Clause :: MatchArgs(a, c) == MatchArgs(b, c)
    ensures NormMatch(a) == NormMatch(b)
  {
    assert MatchArgs(a, MatchIpPrefixList) == MatchArgs(b, MatchIpPrefixList);
    assert MatchArgs(a, MatchAsPath) == MatchArgs(b, MatchAsPath);
    assert MatchArgs(a, MatchCommunity) == MatchArgs(b, MatchCommunity);
    assert MatchArgs(a, MatchExtcommunity) == MatchArgs(b, MatchExtcommunity);
    assert MatchArgs(a, MatchInterface) == MatchArgs(b, MatchInterface);
    TextTold(a.iface, b.iface);
    assert MatchArgs(a, MatchSourceProtocol) == MatchArgs(b, MatchSourceProtocol);
    TextTold(a.sourceProtocol, b.sourceProtocol);
    MatchNumbersTold(a, b);
  }

  lemma MatchNumbersTold(a: Match, b: Match)
    requires forall c: Clause :: MatchArgs(a, c) == MatchArgs(b, c)
    ensures a.tag == b.tag && a.metric == b.metric && a.localPreference == b.localPreference
  {
    assert MatchArgs(a, MatchTag) == MatchArgs(b, MatchTag);
    NumberTold(a.tag, b.tag);
    assert MatchArgs(a, MatchMetric) == MatchArgs(b, MatchMetric);
    NumberTold(a.metric, b.metric);
    assert MatchArgs(a, MatchLocalPreference) == MatchArgs(b, MatchLocalPreference);
    NumberTold(a.localPreference, b.localPreference);
  }

  /** The community fields are what the line reads back as. */
  lemma CommunityTold(a: Set, b: Set)
    requires CommunityArgs(a) == CommunityArgs(b) && AllTokens(CommunityArgs(a))
    requires CommunityReadable(a) && CommunityReadable(b)
    ensures SameCommunity(NormSet(a), NormSet(b))
  {
    if CommunityArgs(a) != [] {
      CommunityRead(a, EMPTY_SET);
      CommunityRead(b, EMPTY_SET);
    }
  }

  lemma {:induction false} RtsTold(a: seq<string>, b: seq<string>, suffix: seq<string>)
    requires RtArgs(a, suffix) == RtArgs(b, suffix)
    ensures a == b
  {
    RtArgsEmpty(a, suffix);
    RtArgsEmpty(b, suffix);
    if a != [] {
      var m, n := |a| - 1, |b| - 1;
      var frontA, frontB := RtArgs(a[..m], suffix), RtArgs(b[..n], suffix);
      SameEnds(frontA, [a[m]] + suffix, frontB, [b[n]] + suffix);
      assert ([a[m]] + suffix)[0] == a[m] && ([b[n]] + suffix)[0] == b[n];
      RtsTold(a[..m], b[..n], suffix);
      Snoc(a);
      Snoc(b);
    }
  }

  lemma SameEnds<T>(a: seq<T>, x: seq<T>, b: seq<T>, y: seq<T>)
    requires a + x == b + y && |x| == |y|
    ensures a == b && x == y
  {
    assert |a| == |b|;
    assert (a + x)[..|a|] == a && (b + y)[..|a|] == b;
    assert (a + x)[|a|..] == x && (b + y)[|a|..] == y;
  }

  lemma {:induction false} RtArgsHold(rts: seq<string>, suffix: seq<string>, word: string)
    requires word !in rts && word !in suffix
    ensures word !in RtArgs(rts, suffix)
  {
    if rts != [] {
      var k := |rts| - 1;
      Snoc(rts);
      RtArgsHold(rts[..k], suffix, word);
    }
  }

  lemma RtArgsEnd(rts: seq<string>, word: string)
    requires rts != []
    ensures word in RtArgs(rts, [word])
  {
    var k := |rts| - 1;
    var front, last := RtArgs(rts[..k], [word]), [rts[k]] + [word];
    assert (front + last)[|front| + 1] == word;
  }

  /** Whether the communities are additive can be told from the words. */
  lemma RtFlagTold(a: Set, b: Set)
    requires "additive" !in a.extcommunityRt && "additive" !in b.extcommunityRt
    requires SetArgs(a, SetExtcommunityRt) == SetArgs(b, SetExtcommunityRt) && a.extcommunityRt != []
    ensures Flag(a.extcommunityRtAdditive) == Flag(b.extcommunityRtAdditive)
  {
    RtArgsEmpty(a.extcommunityRt, RtWords(a));
    RtArgsEmpty(b.extcommunityRt, RtWords(b));
    if Flag(a.extcommunityRtAdditive) {
      RtArgsEnd(a.extcommunityRt, "additive");
    } else {
      RtArgsHold(a.extcommunityRt, [], "additive");
    }
    if Flag(b.extcommunityRtAdditive) {
      RtArgsEnd(b.extcommunityRt, "additive");
    } else {
      RtArgsHold(b.extcommunityRt, [], "additive");
    }
  }

  predicate SameRts(a: Set, b: Set) {
    a.extcommunityRt == b.extcommunityRt && a.extcommunityRtAdditive == b.extcommunityRtAdditive
  }

  lemma ExtcommunityTold(a: Set, b: Set)
    requires "additive" !in a.extcommunityRt && "additive" !in b.extcommunityRt
    requires SetArgs(a, SetExtcommunityRt) == SetArgs(b, SetExtcommunityRt)
    ensures SameRts(NormSet(a), NormSet(b))
  {
    RtArgsEmpty(a.extcommunityRt, RtWords(a));
    RtArgsEmpty(b.extcommunityRt, RtWords(b));
    if a.extcommunityRt != [] {
      RtFlagTold(a, b);
      RtsTold(a.extcommunityRt, b.extcommunityRt, RtWords(a));
    }
  }

  predicate SameScalars(a: Set, b: Set) {
    && a.localPreference == b.localPreference && a.tag == b.tag && a.asPathPrepend == b.asPathPrepend
    && a.metric == b.metric && a.ipNextHop == b.ipNextHop && a.origin == b.origin
  }

  lemma ScalarsTold(a: Set, b: Set)
    requires forall c: Clause :: SetArgs(a, c) == SetArgs(b, c)
    ensures SameScalars(NormSet(a), NormSet(b))
  {
    assert SetArgs(a, SetLocalPreference) == SetArgs(b, SetLocalPreference);
    NumberTold(a.localPreference, b.localPreference);
    assert SetArgs(a, SetTag) == SetArgs(b, SetTag);
    NumberTold(a.tag, b.tag);
    assert SetArgs(a, SetAsPathPrepend) == SetArgs(b, SetAsPathPrepend);
    NumbersTold(a.asPathPrepend, b.asPathPrepend);
    SetTextsTold(a, b);
  }

  lemma SetTextsTold(a: Set, b: Set)
    requires forall c: Clause :: SetArgs(a, c) == SetArgs(b, c)
    ensures NormText(a.metric) == NormText(b.metric) && NormText(a.ipNextHop) == NormText(b.ipNextHop)
    ensures NormText(a.origin) == NormText(b.origin)
  {
    assert SetArgs(a, SetMetric) == SetArgs(b, SetMetric);
    TextTold(a.metric, b.metric);
    assert SetArgs(a, SetIpNextHop) == SetArgs(b, SetIpNextHop);
    TextTold(a.ipNextHop, b.ipNextHop);
    assert SetArgs(a, SetOrigin) == SetArgs(b, SetOrigin);
    TextTold(a.origin, b.origin);
  }

  lemma SetTold(a: Set, b: Set)
    requires forall c: Clause :: SetArgs(a, c) == SetArgs(b, c)
    requires AllTokens(CommunityArgs(a)) && CommunityReadable(a) && CommunityReadable(b)
    requires "additive" !in a.extcommunityRt && "additive" !in b.extcommunityRt
    ensures NormSet(a) == NormSet(b)
  {
    assert SetArgs(a, SetCommunity) == SetArgs(b, SetCommunity);
    CommunityTold(a, b);
    assert SetArgs(a, SetExtcommunityRt) == SetArgs(b, SetExtcommunityRt);
    ExtcommunityTold(a, b);
    ScalarsTold(a, b);
  }

  lemma OwnArgs(e: Entry, c: Clause)
    ensures MatchArgs(MatchOf(e), c) == if IsMatchClause(c) then ClauseArgs(e, c) else []
    ensures SetArgs(SetOf(e), c) == if IsSetClause(c) then ClauseArgs(e, c) else []
  {
    EmptyArgs(c);
    if IsMatchClause(c) {
      MatchOnly(e, c);
    } else if c != ContinueAt {
      SetOnly(e, c);
    }
  }

  /** Entries that leave the same block on the device have the same normal form. */
  lemma BlockTells(a: Entry, b: Entry)
    requires Telling(a) && Telling(b) && BlockOf(a) == BlockOf(b) && a.seqNo == b.seqNo
    ensures Normalised(a) == Normalised(b)
  {
    forall c: Clause
      ensures ClauseArgs(a, c) == ClauseArgs(b, c)
      ensures MatchArgs(MatchOf(a), c) == MatchArgs(MatchOf(b), c)
      ensures SetArgs(SetOf(a), c) == SetArgs(SetOf(b), c)
    {
      SameBlockSameArgs(a, b, c);
      OwnArgs(a, c);
      OwnArgs(b, c);
    }
    MatchTold(MatchOf(a), MatchOf(b));
    OwnArgs(a, SetCommunity);
    SetTold(SetOf(a), SetOf(b));
    assert ClauseArgs(a, ContinueAt) == ClauseArgs(b, ContinueAt);
    NumberTold(a.continueAt, b.continueAt);
  }

  ghost predicate AllTelling(es: seq<Entry>) {
    forall i :: 0 <= i < |es| ==> Telling(es[i])
  }

  lemma TableTellsEntry(a: seq<Entry>, b: seq<Entry>, i: nat)
    requires DistinctKeys(a, SeqOf) && DistinctKeys(b, SeqOf) && AllTelling(a) && AllTelling(b)
    requires Table(a, SeqOf, BlockOf) == Table(b, SeqOf, BlockOf) && i < |a|
    ensures Normalised(a[i]) in NormalisedAll(b)
  {
    var n := SeqOf(a[i]);
    TableValue(a, SeqOf, BlockOf, i);
    TableKeys(b, SeqOf, BlockOf, n);
    var j :| 0 <= j < |b| && SeqOf(b[j]) == n;
    TableValue(b, SeqOf, BlockOf, j);
    BlockTells(a[i], b[j]);
    assert NormalisedAll(b)[j] == Normalised(a[i]);
  }

  lemma TableTellsAll(a: seq<Entry>, b: seq<Entry>, x: Entry)
    requires DistinctKeys(a, SeqOf) && DistinctKeys(b, SeqOf) && AllTelling(a) && AllTelling(b)
    requires Table(a, SeqOf, BlockOf) == Table(b, SeqOf, BlockOf) && x in NormalisedAll(a)
    ensures x in NormalisedAll(b)
  {
    var i :| 0 <= i < |a| && NormalisedAll(a)[i] == x;
    TableTellsEntry(a, b, i);
  }

  /** Maps that leave the same blocks have the same entries, in normal form. */
  lemma TableTells(a: seq<Entry>, b: seq<Entry>)
    requires DistinctKeys(a, SeqOf) && DistinctKeys(b, SeqOf) && AllTelling(a) && AllTelling(b)
    requires Table(a, SeqOf, BlockOf) == Table(b, SeqOf, BlockOf)
    ensures multiset(NormalisedAll(a)) == multiset(NormalisedAll(b))
  {
    forall x | x in NormalisedAll(a) || x in NormalisedAll(b)
      ensures x in NormalisedAll(a) && x in NormalisedAll(b)
    {
      if x in NormalisedAll(a) {
        TableTellsAll(a, b, x);
      } else {
        TableTellsAll(b, a, x);
      }
    }
    NormalisedDistinct(a);
    NormalisedDistinct(b);
    SameDistinct(NormalisedAll(a), NormalisedAll(b), SeqOf);
  }

  // ---- a declared map, read back ------------------------------------------------------------------------

  lemma HeaderIsThere(out: string, name: string, blocks: map<int, Block>, before: seq<string>, bs: seq<Shown>)
    requires ShowsAs(TrimmedLines(out), name, blocks, before, bs) && bs != []
    ensures Contains(out, HeaderStart(name))
  {
    var front, first := before, AllBlockLines(name, bs);
    FirstIsHeader(name, bs);
    var e := bs[0].entry;
    assert TrimmedLines(out)[|front|] == first[0] == HeaderLine(name, e);
    LineIsIn(out, |front|);
    RouteMapRead.HeaderRead(name, e);
    ContainsStart(out, HeaderLine(name, e), HeaderStart(name));
  }

  lemma {:induction false} FirstIsHeader(name: string, bs: seq<Shown>)
    requires bs != []
    ensures AllBlockLines(name, bs) != [] && AllBlockLines(name, bs)[0] == HeaderLine(name, bs[0].entry)
  {
    var k := |bs| - 1;
    var front, last := AllBlockLines(name, bs[..k]), BlockLines(name, bs[k]);
    if k > 0 {
      FirstIsHeader(name, bs[..k]);
      assert (front + last)[0] == front[0];
    } else {
      assert front == [];
      assert (front + last)[0] == last[0];
    }
  }

  predicate Plain(e: Entry) {
    Readable(e) && PlainRts(e)
  }

  /** No community is spelt like a keyword in its place. */
  predicate AllPlain(es: seq<Entry>) {
    forall i :: 0 <= i < |es| ==> Plain(es[i])
  }

  lemma NormalPlain(e: Entry)
    ensures Plain(Normalised(e)) <==> Plain(e)
  {
  }

  lemma NormalAllPlain(es: seq<Entry>, entries: seq<Entry>)
    requires AllPlain(es) && multiset(entries) == multiset(NormalisedAll(es))
    ensures AllPlain(entries)
  {
    forall i | 0 <= i < |entries| ensures Plain(entries[i]) {
      SameElements(entries, NormalisedAll(es), i);
      var j :| 0 <= j < |es| && NormalisedAll(es)[j] == entries[i];
      NormalPlain(es[j]);
    }
  }

  lemma PlainFromNormal(es: seq<Entry>, entries: seq<Entry>)
    requires AllPlain(entries) && entries == NormalisedAll(Ascending(es, SeqOf))
    ensures AllPlain(es)
  {
    var sorted := Ascending(es, SeqOf);
    forall i | 0 <= i < |es| ensures Plain(es[i]) {
      SameElements(es, sorted, i);
      var j :| 0 <= j < |sorted| && sorted[j] == es[i];
      assert Plain(entries[j]) && entries[j] == Normalised(sorted[j]);
      NormalPlain(sorted[j]);
    }
  }

  /** Reading a map that the device holds as declared gives entries that declare it again.
      They are the declared entries themselves, in normal form, if and only if no community
      is spelt like a keyword. */
  lemma DeclaredReadsBack(args: Args, cfg: Config, out: string, found: Option<seq<Entry>>)
    requires ValidArgs(args) && AllWordsOnly(args.entries)
    requires args.name in cfg.routeMaps && cfg.routeMaps[args.name] == Declared(args)
    requires Shows(TrimmedLines(out), args.name, cfg) && Reads(out, args.name, found)
    ensures found.Some? && Table(found.value, SeqOf, BlockOf) == Declared(args)
    ensures found.value == NormalisedAll(Ascending(args.entries, SeqOf)) <==> AllPlain(args.entries)
  {
    var blocks := Declared(args);
    var before, bs :| ShowsAs(TrimmedLines(out), args.name, blocks, before, bs);
    SomethingShown(args, bs);
    HeaderIsThere(out, args.name, blocks, before, bs);
    ReadDeclares(args.name, blocks, before, bs, TrimmedLines(out), found.value);
    ShownRead(args.name, blocks, before, bs, TrimmedLines(out), found.value);
    if AllPlain(args.entries) {
      ShownTelling(args, bs);
      TableTells(EntriesOf(bs), args.entries);
      DeclaredRow(args, found.value);
    } else if found.value == NormalisedAll(Ascending(args.entries, SeqOf)) {
      NormalAllPlain(EntriesOf(bs), found.value);
      PlainFromNormal(args.entries, found.value);
    }
  }

  lemma SomethingShown(args: Args, bs: seq<Shown>)
    requires ValidArgs(args) && Table(EntriesOf(bs), SeqOf, BlockOf) == Declared(args)
    ensures bs != []
  {
    var n := SeqOf(args.entries[0]);
    TableValue(args.entries, SeqOf, BlockOf, 0);
    TableKeys(EntriesOf(bs), SeqOf, BlockOf, n);
  }

  lemma ShownTelling(args: Args, bs: seq<Shown>)
    requires ShownBlocks(bs, args.name) && AllWordsOnly(args.entries) && AllPlain(args.entries)
    ensures AllTelling(EntriesOf(bs)) && AllTelling(args.entries)
  {
  }

  lemma DeclaredRow(args: Args, entries: seq<Entry>)
    requires ValidArgs(args) && AllWordsOnly(args.entries)
    requires multiset(entries) == multiset(NormalisedAll(args.entries)) && SortedBy(entries, SeqOf)
    ensures entries == NormalisedAll(Ascending(args.entries, SeqOf))
  {
    var sorted := Ascending(args.entries, SeqOf);
    AscendingUsable(args);
    NormalisedKeys(sorted);
    NormalisedPermuted(args.entries, sorted);
    NormalisedDistinct(args.entries);
    SortSliceDetermined(NormalisedAll(args.entries), entries, SeqOf);
    SortSliceDetermined(NormalisedAll(args.entries), NormalisedAll(sorted), SeqOf);
  }

  const NormalOne := (e: Entry) => [Normalised(e)]

  lemma NormalisedPermuted(a: seq<Entry>, b: seq<Entry>)
    requires multiset(a) == multiset(b)
    ensures multiset(NormalisedAll(a)) == multiset(NormalisedAll(b))
  {
    CollectOneEach(a, NormalisedAll(a), NormalOne);
    CollectOneEach(b, NormalisedAll(b), NormalOne);
    CollectPermuted(a, b, NormalOne);
  }

  // ---- after a run ----------------------------------------------------------------------------------------

  /** After any run of Create, Update and Delete over several lists and maps, with calls
      breaking anywhere and leftover sessions resumed, Read finds for every map entries that
      declare exactly what its last effective commit declared, and no entry after an
      effective Delete. */
  lemma RefreshAfterRun(show: Config -> seq<string>, dev: Device<Config>, sessionPrefix: string, evs: seq<Event>,
                        keys: set<Key>, name: string, out: string, found: Option<seq<Entry>>)
    requires IsToken(sessionPrefix) && RunOver(evs, keys)
    requires SessionsApart(sessionPrefix, keys) && OwnLeftovers(dev, sessionPrefix, keys)
    requires LastCommit(evs, MapKey(name)).Some?
    requires Shows(TrimmedLines(out), name, AfterRun(SemanticsOf(show), dev, sessionPrefix, evs).running)
    requires Reads(out, name, found)
    ensures var ev := LastCommit(evs, MapKey(name)).value;
            ev.MapEvent?
            && if ev.remove then found == (if Contains(out, HeaderStart(name)) then Some([]) else None)
               else
                 && found.Some? && Table(found.value, SeqOf, BlockOf) == Declared(ev.rmap)
                 && (found.value == NormalisedAll(Ascending(ev.rmap.entries, SeqOf)) <==> AllPlain(ev.rmap.entries))
  {
    var after := AfterRun(SemanticsOf(show), dev, sessionPrefix, evs).running;
    var ev := LastCommit(evs, MapKey(name)).value;
    RunsAreSafe(show, dev, sessionPrefix, evs, keys);
    LastCommitIsEvent(evs, MapKey(name));
    assert ValidEvent(ev);
    assert At(after, MapKey(name)) == Target(ev);
    if ev.remove {
      AbsentExactly(out, name, found);
    } else {
      DeclaredReadsBack(ev.rmap, after, out, found);
    }
  }

  // ---- a map that is not there ----------------------------------------------------------------------------

  /** Of a map without a header in the text, Read finds no entry; but it reports the map
      as present if and only if the text mentions its header anywhere. */
  lemma AbsentExactly(out: string, name: string, found: Option<seq<Entry>>)
    requires NoHeaders(TrimmedLines(out), name) && Reads(out, name, found)
    ensures found == if Contains(out, HeaderStart(name)) then Some([]) else None
  {
    BeforeScanned(TrimmedLines(out), name);
    if found.Some? {
      assert multiset(found.value) == multiset([]);
      SameLength<Entry>(found.value, []);
    }
  }

  /** Another feature that refers to the map is such a mention: after a removal, a BGP
      neighbour's line keeps the map present, with no entry. */
  lemma ReferenceIsFound(peer: string, name: string, found: Option<seq<Entry>>)
    requires IsToken(peer) && IsToken(name)
    requires Reads("neighbor " + peer + " route-map " + name + " in", name, found)
    ensures found == Some([])
  {
    var front := "neighbor " + peer + " ";
    var out := "neighbor " + peer + " route-map " + name + " in";
    ReferenceShape(peer, name, front, HeaderStart(name));
    ContainsMiddle(out, front, HeaderStart(name), "in");
    ReferenceLine(peer, name, out);
    AbsentExactly(out, name, found);
  }

  lemma ReferenceShape(peer: string, name: string, front: string, header: string)
    requires front == "neighbor " + peer + " " && header == "route-map " + name + " "
    ensures "neighbor " + peer + " route-map " + name + " in" == front + header + "in"
  {
  }

  lemma ReferenceLine(peer: string, name: string, out: string)
    requires out == "neighbor " + peer + " route-map " + name + " in"
    requires IsToken(peer) && IsToken(name)
    ensures NoHeaders(TrimmedLines(out), name)
  {
    var lines := TrimmedLines(out);
    forall c | c in out ensures c != '\n' {
      assert c in "neighbor " || c in peer || c in " route-map " || c in name || c in " in";
    }
    SplitNone(out, '\n');
    assert IsTrimmed(out);
    assert lines == [out];
    NoPrefix(out, "route-map " + name + " ", 0);
  }
}
