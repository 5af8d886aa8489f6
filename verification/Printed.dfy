/** Printed listings: for every reader, a text that shows the rendered lines, each
    with any indentation and any trailing blanks, is one that reads back. */
module Printed {
  import opened Seqs
  import opened Text
  import opened Rendering
  import opened Sorting
  import Netip
  import Eos
  import OspfArea
  import Lists = PrefixList
  import ListsRead = PrefixListRead
  import Maps = RouteMap
  import MapsDevice = RouteMapDevice
  import MapsRead = RouteMapRead
  import Isolation = RouteMapIsolation
  import Pbr
  import PbrRead
  import Routes = StaticRoute
  import RoutesRead = StaticRouteRead
  import Ospf = OspfSection
  import OspfRead
  import Vrrp
  import VrrpRead

  // ---- lines put together ----------------------------------------------------------------

  /** The beginning of a line. */
  predicate Opens(s: string) {
    s != "" && !IsSpace(s[0]) && '\n' !in s
  }

  /** The end of a line. */
  predicate Closes(s: string) {
    s != "" && !IsSpace(s[|s| - 1]) && '\n' !in s
  }

  lemma OpenMore(a: string, b: string)
    requires Opens(a) && '\n' !in b
    ensures Opens(a + b)
  {
    assert (a + b)[0] == a[0];
  }

  lemma OpenClose(a: string, b: string)
    requires Opens(a) && Closes(b)
    ensures IsLine(a + b) && Opens(a + b) && Closes(a + b)
  {
    OpenMore(a, b);
    assert (a + b)[|a + b| - 1] == b[|b| - 1];
  }

  lemma TokenBoth(t: string)
    requires IsToken(t)
    ensures Opens(t) && Closes(t) && IsLine(t)
  {
    assert forall i :: 0 <= i < |t| ==> t[i] != '\n';
  }

  lemma NumberBoth(n: Int)
    ensures Opens(Itoa(n)) && Closes(Itoa(n)) && IsLine(Itoa(n))
  {
    ItoaToken(n);
    TokenBoth(Itoa(n));
  }

  lemma LinesAppend(a: seq<string>, b: seq<string>)
    requires AllLines(a) && AllLines(b)
    ensures AllLines(a + b)
  {
  }

  lemma CollectLines<T>(s: seq<T>, f: T -> seq<string>)
    requires forall i :: 0 <= i < |s| ==> AllLines(f(s[i]))
    ensures AllLines(Collect(s, f))
  {
    CollectAll(s, f, IsLine);
  }

  lemma NumberedLines(head: string, n: Option<Int>)
    requires Opens(head)
    ensures AllLines(Numbered(head, n))
  {
    if n.Some? {
      NumberBoth(n.value);
      OpenClose(head, Itoa(n.value));
    }
  }

  predicate AllTexts(tails: seq<string>) {
    forall i :: 0 <= i < |tails| ==> Closes(tails[i])
  }

  lemma EachLines(head: string, tails: seq<string>)
    requires Opens(head) && AllTexts(tails)
    ensures AllLines(Each(head, tails))
  {
    forall i | 0 <= i < |tails| ensures IsLine(Each(head, tails)[i]) {
      OpenClose(head, tails[i]);
    }
  }

  // ---- prefix-lists ----------------------------------------------------------------------------

  predicate PrintableList(args: Lists.Args) {
    IsToken(args.name) && Lists.ValidArgs(args) && ListsRead.PlainRemark(args)
  }

  lemma {:induction false} ListsAreLines(lists: seq<Lists.Args>)
    requires forall i :: 0 <= i < |lists| ==> PrintableList(lists[i])
    ensures AllLines(ListsRead.AllRendered(lists))
  {
    if lists != [] {
      var k := |lists| - 1;
      assert forall i :: 0 <= i < k ==> lists[..k][i] == lists[i];
      ListsAreLines(lists[..k]);
      ListsRead.RenderedAreLines(lists[k]);
      LinesAppend(ListsRead.AllRendered(lists[..k]), Lists.Rendered(lists[k], false));
    }
  }

  lemma SameLines(shown: seq<string>, lines: seq<string>)
    requires multiset(shown) == multiset(lines) && AllLines(lines)
    ensures AllLines(shown)
  {
    forall i | 0 <= i < |shown| ensures IsLine(shown[i]) {
      SameElements(shown, lines, i);
    }
  }

  /** The lines of several prefix-lists, in any order: a list reads back if and only if its
      remark is one line that does not end in white space. */
  lemma PrefixListReadsBack(lists: seq<Lists.Args>, k: nat, shown: seq<string>, text: string, row: ListsRead.Row,
                            found: bool)
    requires k < |lists| && ListsRead.NamesApart(lists) && Lists.ValidArgs(lists[k])
    requires forall i :: 0 <= i < |lists| && i != k ==> PrintableList(lists[i])
    requires multiset(shown) == multiset(ListsRead.AllRendered(lists)) && Prints(text, shown)
    requires ListsRead.IsReading(TrimmedLines(text), lists[k].name, row, found)
    ensures ListsRead.PlainRemark(lists[k]) <==>
              && found
              && row == ListsRead.Row(lists[k].name, ListsRead.RemarkText(lists[k]),
                Ascending(lists[k].entries, Lists.SeqOf))
  {
    ListsRead.ReadRemarkEnds(text, lists[k].name, row, found);
    if ListsRead.PlainRemark(lists[k]) {
      assert PrintableList(lists[k]);
      ListsAreLines(lists);
      SameLines(shown, ListsRead.AllRendered(lists));
      ListsNotEmpty(lists);
      SameLength(shown, ListsRead.AllRendered(lists));
      PrintedIsRead(text, shown);
      ListsRead.ReadsBack(lists, k, text, row, found);
    }
  }

  lemma ListsNotEmpty(lists: seq<Lists.Args>)
    requires lists != []
    ensures ListsRead.AllRendered(lists) != []
  {
  }

  // ---- route-maps ---------------------------------------------------------------------------------

  lemma ArgsLine(head: string, args: seq<string>)
    requires Opens(head) && AllTokens(args)
    ensures AllLines(Maps.OneLine(head, args))
  {
    if args != [] {
      JoinIsLine(args);
      TrimmedCloses(Join(args, " "));
      OpenClose(head, Join(args, " "));
    }
  }

  lemma TrimmedCloses(s: string)
    requires IsLine(s) && s != ""
    ensures Opens(s) && Closes(s)
  {
  }

  lemma MatchHeadOpens(c: Eos.Clause)
    requires Maps.IsMatchClause(c)
    ensures Opens(Maps.Head(c))
  {
  }

  lemma SetHeadOpens(c: Eos.Clause)
    requires !Maps.IsMatchClause(c)
    ensures Opens(Maps.Head(c))
  {
  }

  lemma HeadOpens(c: Eos.Clause)
    ensures Opens(Maps.Head(c))
  {
    if Maps.IsMatchClause(c) {
      MatchHeadOpens(c);
    } else {
      SetHeadOpens(c);
    }
  }

  lemma RtsAreLines(e: Maps.Entry)
    requires AllTokens(Maps.ClauseArgs(e, Eos.SetExtcommunityRt))
    ensures AllLines(Maps.EntryRtLines(e))
  {
    Maps.SetOnly(e, Eos.SetExtcommunityRt);
    if e.sets.Some? {
      var s := e.sets.value;
      MapsDevice.RtArgsHaveRts(s.extcommunityRt, Maps.RtWords(s));
      forall i | 0 <= i < |s.extcommunityRt| ensures IsLine(Maps.EntryRtLines(e)[i]) {
        RtLineIsLine(s.extcommunityRt[i], Maps.Flag(s.extcommunityRtAdditive));
      }
    }
  }

  lemma RtLineIsLine(rt: string, additive: bool)
    requires IsToken(rt)
    ensures IsLine(Maps.RtLine(rt, additive))
  {
    RtIsLine("set extcommunity rt ", rt, " additive");
  }

  lemma RtIsLine(head: string, rt: string, tail: string)
    requires Opens(head) && IsToken(rt) && Closes(tail)
    ensures IsLine(head + rt) && IsLine(head + rt + tail)
  {
    TokenBoth(rt);
    OpenClose(head, rt);
    OpenClose(head + rt, tail);
  }

  lemma BodyIsLines(e: Maps.Entry)
    requires MapsDevice.WordsOnly(e)
    ensures AllLines(Maps.BodyLines(e))
  {
    Maps.BodyByClause(e);
    forall i | 0 <= i < |Maps.ORDER| ensures AllLines(Maps.LinesOf(e)(Maps.ORDER[i])) {
      ClauseIsLines(e, Maps.ORDER[i]);
    }
    CollectLines(Maps.ORDER, Maps.LinesOf(e));
  }

  lemma ActionIsToken(action: string)
    requires action == "permit" || action == "deny"
    ensures IsToken(action)
  {
  }

  lemma Framed(a: string, body: seq<string>, c: string)
    requires IsLine(a) && AllLines(body) && IsLine(c)
    ensures AllLines([a] + body + [c])
  {
  }

  lemma BlockIsLines(name: string, e: Maps.Entry)
    requires IsToken(name) && IsToken(e.action) && MapsDevice.WordsOnly(e)
    ensures AllLines(Maps.EntryLines(name, e))
  {
    BodyIsLines(e);
    HeaderIsLine("route-map ", name, e.action, Itoa(e.seqNo), e.seqNo);
    TokenBoth("exit");
    Framed(Maps.HeaderLine(name, e), Maps.BodyLines(e), "exit");
  }

  lemma ClauseIsLines(e: Maps.Entry, c: Eos.Clause)
    requires MapsDevice.WordsOnly(e)
    ensures AllLines(Maps.ClauseLines(e, c))
  {
    assert AllTokens(Maps.ClauseArgs(e, c));
    HeadOpens(c);
    if c == Eos.SetExtcommunityRt {
      RtsAreLines(e);
    } else {
      ArgsLine(Maps.Head(c), Maps.ClauseArgs(e, c));
    }
  }

  lemma HeaderIsLine(head: string, name: string, action: string, number: string, n: Int)
    requires Opens(head) && IsToken(name) && IsToken(action) && number == Itoa(n)
    ensures IsLine(head + name + " " + action + " " + number)
  {
    NumberBoth(n);
    TokenBoth(name);
    TokenBoth(action);
    OpenMore(head, name);
    OpenMore(head + name, " ");
    OpenMore(head + name + " ", action);
    OpenMore(head + name + " " + action, " ");
    OpenClose(head + name + " " + action + " ", number);
  }

  lemma {:induction false} BlocksAreLines(name: string, es: seq<Maps.Entry>)
    requires IsToken(name) && Maps.ValidEntries(es) && MapsDevice.AllWordsOnly(es)
    ensures AllLines(Maps.AllEntryLines(name, es))
  {
    if es != [] {
      var k := |es| - 1;
      BlocksAreLines(name, es[..k]);
      assert Maps.ValidEntry(es[k]);
      ActionIsToken(es[k].action);
      BlockIsLines(name, es[k]);
      LinesAppend(Maps.AllEntryLines(name, es[..k]), Maps.EntryLines(name, es[k]));
    }
  }

  /** A route-map between text without its headers and harmless text. */
  lemma RouteMapReadsBack(before: seq<string>, args: Maps.Args, after: seq<string>, text: string,
                          entries: seq<Maps.Entry>)
    requires IsToken(args.name) && Isolation.Usable(args)
    requires AllLines(before) && AllLines(after) && Prints(text, Isolation.Listing(before, args, after))
    requires MapsRead.NoHeaders(before, args.name) && MapsRead.NoHeaders(after, args.name)
    requires Isolation.AllHarmless(after)
    requires MapsRead.IsReading(TrimmedLines(text), args.name, entries)
    ensures entries == MapsRead.NormalisedAll(Ascending(args.entries, Maps.SeqOf))
  {
    MapsDevice.AscendingUsable(args);
    BlocksAreLines(args.name, Ascending(args.entries, Maps.SeqOf));
    LinesAppend(before, MapsRead.Blocks(args));
    LinesAppend(before + MapsRead.Blocks(args), after);
    BlocksNotEmpty(args.name, Ascending(args.entries, Maps.SeqOf));
    PrintedIsRead(text, Isolation.Listing(before, args, after));
    Isolation.ReadsBackAmong(before, args, after, entries);
  }

  lemma BlocksNotEmpty(name: string, es: seq<Maps.Entry>)
    requires es != []
    ensures Maps.AllEntryLines(name, es) != []
  {
  }

  // ---- policy-based routing -----------------------------------------------------------------------

  predicate PrintablePolicy(args: Pbr.Args) {
    && IsToken(args.name)
    && (forall i :: 0 <= i < |args.attachments| ==> IsToken(args.attachments[i].iface))
    && PbrRead.AllReadable(args.sequences)
    && (forall i :: 0 <= i < |args.sequences| ==>
          (Given(args.sequences[i].action.nexthopGroup) ==> IsToken(args.sequences[i].action.nexthopGroup.value)))
  }

  lemma TailedLine(head: string, t: string)
    requires Opens(head) && IsToken(t)
    ensures IsLine(head + t)
  {
    TokenBoth(t);
    OpenClose(head, t);
  }

  lemma ThreeLines(a: string, b: string, c: string)
    requires IsLine(a) && IsLine(b) && IsLine(c)
    ensures AllLines([a, b, c])
  {
  }

  lemma DetachIsLines(args: Pbr.Args)
    requires PrintablePolicy(args)
    ensures AllLines(Collect(args.attachments, Pbr.DetachLines(args.name)))
  {
    TailedLine("no service-policy type pbr input ", args.name);
    TokenBoth("exit");
    forall i | 0 <= i < |args.attachments| ensures AllLines(Pbr.DetachLines(args.name)(args.attachments[i])) {
      TailedLine("interface ", args.attachments[i].iface);
    }
    CollectLines(args.attachments, Pbr.DetachLines(args.name));
  }

  lemma AttachIsLines(args: Pbr.Args)
    requires PrintablePolicy(args)
    ensures AllLines(Collect(args.attachments, Pbr.AttachLines(args.name)))
  {
    TailedLine("service-policy type pbr input ", args.name);
    TokenBoth("exit");
    forall i | 0 <= i < |args.attachments| ensures AllLines(Pbr.AttachLines(args.name)(args.attachments[i])) {
      TailedLine("interface ", args.attachments[i].iface);
    }
    CollectLines(args.attachments, Pbr.AttachLines(args.name));
  }

  lemma LeadIsLines(args: Pbr.Args)
    requires PrintablePolicy(args)
    ensures AllLines(Pbr.Lead(args)) && AllLines(Pbr.Tail(args))
  {
    DetachIsLines(args);
    AttachIsLines(args);
    TokenBoth("exit");
    TailedLine("no policy-map type pbr ", args.name);
    Pbr.NoHeader(args.name);
    LinesAppend(Collect(args.attachments, Pbr.DetachLines(args.name)), ["no " + Pbr.Header(args.name)]);
    LinesAppend(["exit"], Collect(args.attachments, Pbr.AttachLines(args.name)));
  }

  lemma VrfLine(head: string, a: string, mid: string, b: string)
    requires Opens(head) && IsToken(a) && IsToken(b) && '\n' !in mid
    ensures IsLine(head + a) && IsLine(head + a + mid + b)
  {
    TailedLine(head, a);
    TokenBoth(a);
    OpenMore(head, a);
    OpenMore(head + a, mid);
    TailedLine(head + a + mid, b);
  }

  lemma ActionIsLines(a: Pbr.Action)
    requires Given(a.nexthop) ==> IsToken(a.nexthop.value)
    requires Given(a.nexthopVrf) ==> IsToken(a.nexthopVrf.value)
    requires Given(a.nexthopGroup) ==> IsToken(a.nexthopGroup.value)
    ensures AllLines(Pbr.ActionLines(a))
  {
    if Given(a.nexthop) {
      VrfLine("set nexthop ", a.nexthop.value, " vrf ",
              if Given(a.nexthopVrf) then a.nexthopVrf.value else a.nexthop.value);
    } else if Given(a.nexthopGroup) {
      TailedLine("set nexthop-group ", a.nexthopGroup.value);
    } else {
      TokenBoth("drop");
    }
  }

  lemma SequenceIsLines(s: Pbr.Sequence)
    requires PbrRead.Readable(s)
    requires Given(s.action.nexthopGroup) ==> IsToken(s.action.nexthopGroup.value)
    ensures AllLines(Pbr.SequenceLines(s))
  {
    NumberBoth(s.seqNo);
    OpenMore(Itoa(s.seqNo), " class ");
    TailedLine(Itoa(s.seqNo) + " class ", s.class_);
    ActionIsLines(s.action);
    TokenBoth("exit");
    LinesAppend([Pbr.SequenceHeader(s)], Pbr.ActionLines(s.action));
    LinesAppend([Pbr.SequenceHeader(s)] + Pbr.ActionLines(s.action), ["exit"]);
  }

  lemma PolicyIsLines(args: Pbr.Args)
    requires PrintablePolicy(args)
    ensures AllLines(Pbr.Rendered(args))
  {
    LeadIsLines(args);
    TailedLine("policy-map type pbr ", args.name);
    forall i | 0 <= i < |args.sequences| ensures AllLines(Pbr.SequenceLines(args.sequences[i])) {
      assert PbrRead.Readable(args.sequences[i]);
      SequenceIsLines(args.sequences[i]);
    }
    CollectLines(args.sequences, Pbr.SequenceLines);
    LinesAppend([Pbr.Header(args.name)], Collect(args.sequences, Pbr.SequenceLines));
    LinesAppend(Pbr.Lead(args), [Pbr.Header(args.name)] + Collect(args.sequences, Pbr.SequenceLines));
    LinesAppend(Pbr.Lead(args) + ([Pbr.Header(args.name)] + Collect(args.sequences, Pbr.SequenceLines)),
      Pbr.Tail(args));
  }

  lemma SomeLine<T>(s: seq<T>, f: T -> seq<string>, k: nat)
    requires k < |s| && f(s[k]) != []
    ensures Collect(s, f) != []
  {
    Around(s, k);
    CollectAppend(s[..k] + [s[k]], s[k + 1..], f);
    CollectSnoc(s[..k], s[k], f);
  }

  lemma PolicyReadsBack(policies: seq<Pbr.Args>, k: nat, text: string)
    requires k < |policies|
    requires forall i :: 0 <= i < |policies| ==> PrintablePolicy(policies[i])
    requires forall i :: 0 <= i < |policies| && i != k ==> policies[i].name != policies[k].name
    requires Prints(text, Collect(policies, PbrRead.RenderedLines))
    ensures var row := PbrRead.Reading(TrimmedLines(text), policies[k].name);
            row.Some? && row.value.sequences == PbrRead.NormAll(policies[k].sequences)
  {
    forall i | 0 <= i < |policies| ensures AllLines(PbrRead.RenderedLines(policies[i])) {
      PolicyIsLines(policies[i]);
    }
    CollectLines(policies, PbrRead.RenderedLines);
    SomeLine(policies, PbrRead.RenderedLines, k);
    PrintedIsRead(text, Collect(policies, PbrRead.RenderedLines));
    PbrRead.ReadsBack(policies, k, text);
  }

  // ---- static routes ----------------------------------------------------------------------------------

  lemma RouteIsLine(args: Routes.Args)
    requires Routes.ValidArgs(args) && RoutesRead.PlainWords(args)
    ensures IsLine(Routes.RouteCmd(args))
  {
    RoutesRead.RouteTokens(args);
    RoutesRead.OptionTokens(args);
    RoutesRead.AppendTokens(Routes.RouteWords(args), Routes.OptionWords(args));
    JoinIsLine(Routes.RouteWords(args) + Routes.OptionWords(args));
  }

  /** The lines of several routes in any order, between any other lines. */
  lemma StaticRouteReadsBack(routes: seq<Routes.Args>, k: nat, shown: seq<string>, text: string)
    requires k < |routes| && RoutesRead.AllReadable(routes)
    requires forall i :: 0 <= i < |routes| && i != k ==> !RoutesRead.SameKey(routes[i], routes[k])
    requires RoutesRead.Lists(shown, routes) && Routes.RouteCmd(routes[k]) in shown
    requires forall i :: 0 <= i < |shown| ==> HasPrefix(shown[i], "ip route ") || IsLine(shown[i])
    requires Prints(text, shown)
    ensures RoutesRead.Lookup(TrimmedLines(text), routes[k]) == Some(RoutesRead.RowOf(routes[k]))
  {
    forall i | 0 <= i < |shown| ensures IsLine(shown[i]) {
      if HasPrefix(shown[i], "ip route ") {
        var j :| 0 <= j < |routes| && shown[i] == Routes.RouteCmd(routes[j]);
        RouteIsLine(routes[j]);
      }
    }
    PrintedIsRead(text, shown);
    RoutesRead.ReadsBack(routes, k, text);
  }

  // ---- OSPF processes ---------------------------------------------------------------------------------

  predicate Word(s: Option<string>) {
    Given(s) ==> IsToken(s.value)
  }

  predicate AllWords(ts: seq<string>) {
    forall i :: 0 <= i < |ts| ==> IsToken(ts[i])
  }

  predicate PrintableArea(a: OspfArea.Area) {
    OspfArea.AreaValue(TrimSpace(a.id)).Some? && AllWords(a.ranges)
  }

  predicate PrintableNetwork(n: OspfArea.Network) {
    IsToken(n.prefix) && OspfArea.AreaValue(TrimSpace(n.area)).Some?
  }

  predicate PrintableProcess(args: Ospf.Args) {
    && Word(args.vrf) && Word(args.routerId)
    && AllWords(args.passive) && AllWords(args.noPassive) && AllWords(args.summaries)
    && (forall i :: 0 <= i < |args.redistribute| ==>
          IsToken(args.redistribute[i].source) && Word(args.redistribute[i].routeMap))
    && (forall i :: 0 <= i < |args.areas| ==> PrintableArea(args.areas[i]))
    && (forall i :: 0 <= i < |args.networks| ==> PrintableNetwork(args.networks[i]))
    && (args.defaultInfo.Some? ==> Word(args.defaultInfo.value.routeMap))
  }

  lemma WordsAreTexts(ts: seq<string>)
    requires AllWords(ts)
    ensures AllTexts(ts)
  {
    forall i | 0 <= i < |ts| ensures Closes(ts[i]) {
      TokenBoth(ts[i]);
    }
  }

  lemma WordLines(head: string, words: seq<string>)
    requires Opens(head) && AllWords(words)
    ensures AllLines(Each(head, words))
  {
    WordsAreTexts(words);
    EachLines(head, words);
  }

  lemma OptionalTail(line: string, mid: string, t: Option<string>)
    requires Opens(line) && Closes(line) && Opens("x" + mid) && Word(t)
    ensures IsLine(line) && (Given(t) ==> IsLine(line + mid + t.value))
  {
    if Given(t) {
      assert '\n' !in mid by { assert forall c :: c in mid ==> c in "x" + mid; }
      OpenMore(line, mid);
      TailedLine(line + mid, t.value);
    }
  }

  lemma NumberTail(line: string, mid: string, n: Int)
    requires Opens(line) && '\n' !in mid
    ensures Opens(line + mid + Itoa(n)) && Closes(line + mid + Itoa(n)) && IsLine(line + mid + Itoa(n))
  {
    NumberBoth(n);
    OpenMore(line, mid);
    OpenClose(line + mid, Itoa(n));
  }

  lemma ProcessHeader(args: Ospf.Args)
    requires Word(args.vrf)
    ensures IsLine(Ospf.HeaderOf(args)) && Opens(Ospf.HeaderOf(args)) && Closes(Ospf.HeaderOf(args))
    ensures IsLine("no " + Ospf.HeaderOf(args))
  {
    NumberBoth(args.instance);
    OpenClose("router ospf ", Itoa(args.instance));
    if Deref(args.vrf) != "" {
      OpenMore("router ospf " + Itoa(args.instance), " vrf ");
      TokenBoth(args.vrf.value);
      OpenClose("router ospf " + Itoa(args.instance) + " vrf ", args.vrf.value);
    }
    OpenClose("no ", Ospf.HeaderOf(args));
  }

  lemma ScalarsAreLines(args: Ospf.Args)
    requires PrintableProcess(args)
    ensures AllLines(Ospf.ScalarLines(args))
  {
    if Deref(args.routerId) != "" {
      TailedLine("router-id ", args.routerId.value);
    }
    TokenBoth("shutdown");
    OpenClose("no ", "shutdown");
    NoShutdown("no ", "shutdown");
    NumberedLines("auto-cost reference-bandwidth ", args.autoCost);
    LinesAppend(Ospf.RouterIdLines(args), Ospf.ShutdownLines(args));
    LinesAppend(Ospf.RouterIdLines(args) + Ospf.ShutdownLines(args), Ospf.CostLines(args));
  }

  lemma NoShutdown(a: string, b: string)
    requires a == "no " && b == "shutdown"
    ensures a + b == "no shutdown"
  {
  }

  lemma DistancesAreLines(args: Ospf.Args)
    ensures AllLines(Ospf.DistanceLines(args))
  {
    if args.distance.Some? {
      var d := args.distance.value;
      NumberedLines("distance ospf intra-area ", d.intraArea);
      NumberedLines("distance ospf inter-area ", d.interArea);
      NumberedLines("distance ospf external ", d.external);
    }
  }

  lemma InterfacesAreLines(args: Ospf.Args)
    requires PrintableProcess(args)
    ensures AllLines(Ospf.InterfaceLines(args))
  {
    TailedLine("passive-interface ", "default");
    OspfRead.PassiveDefaultText();
    WordLines("no passive-interface ", args.noPassive);
    WordLines("passive-interface ", args.passive);
    LinesAppend(Ospf.PassiveDefaultLines(args), Ospf.NoPassiveLines(args));
    LinesAppend(Ospf.PassiveDefaultLines(args) + Ospf.NoPassiveLines(args), Ospf.PassiveLines(args));
  }

  lemma RedistributeIsLine(r: Ospf.Redistribute)
    requires IsToken(r.source) && Word(r.routeMap)
    ensures AllLines(Ospf.RedistributeLine(r))
  {
    TokenBoth(r.source);
    OpenClose("redistribute ", r.source);
    OptionalTail("redistribute " + r.source, " route-map ", r.routeMap);
  }

  lemma NssaIsLine(head: string, a: OspfArea.Area)
    requires Opens(head)
    ensures IsLine(OspfArea.NssaLine(head, a))
  {
    var l0 := head + "nssa default-information-originate";
    OpenClose(head, "nssa default-information-originate");
    var l1 := if a.nssaMetric.Some? then l0 + " metric " + Itoa(a.nssaMetric.value) else l0;
    if a.nssaMetric.Some? { NumberTail(l0, " metric ", a.nssaMetric.value); }
    var l2 := if a.nssaMetricType.Some? then l1 + " metric-type " + Itoa(a.nssaMetricType.value) else l1;
    if a.nssaMetricType.Some? { NumberTail(l1, " metric-type ", a.nssaMetricType.value); }
    OpenClose(l2, " nssa-only");
  }

  lemma AreaHeadOpens(a: OspfArea.Area)
    requires PrintableArea(a)
    ensures Opens(OspfArea.AreaHead(a))
  {
    OspfArea.ValidatedIdRendered(a.id);
    TokenBoth(OspfArea.Rendered(a.id));
    OpenMore("area ", OspfArea.Rendered(a.id));
    OpenMore("area " + OspfArea.Rendered(a.id), " ");
  }

  lemma AreaIsLines(a: OspfArea.Area)
    requires PrintableArea(a)
    ensures AllLines(OspfArea.AreaLines(a))
  {
    var head := OspfArea.AreaHead(a);
    AreaHeadOpens(a);
    TypeIsLines(head, a);
    CostIsLines(head, a);
    RangesAreLines(head, a.ranges);
    LinesAppend(OspfArea.TypeLines(head, a), OspfArea.CostLines(head, a));
    LinesAppend(OspfArea.TypeLines(head, a) + OspfArea.CostLines(head, a), OspfArea.RangeLines(head, a.ranges));
  }

  lemma TypeIsLines(head: string, a: OspfArea.Area)
    requires Opens(head)
    ensures AllLines(OspfArea.TypeLines(head, a))
  {
    if a.kind == Some("stub") {
      TailedLine(head, "stub");
    } else if a.kind == Some("stub-no-summary") {
      StubText();
      OpenClose(head, "stub no-summary");
    } else if a.kind == Some("nssa") {
      TailedLine(head, "nssa");
    } else {
      NssaIsLine(head, a);
    }
  }

  lemma StubText()
    ensures Closes("stub no-summary")
  {
  }

  lemma CostIsLines(head: string, a: OspfArea.Area)
    requires Opens(head)
    ensures AllLines(OspfArea.CostLines(head, a))
  {
    if a.defaultCost.Some? {
      NumberTail(head, "default-cost ", a.defaultCost.value);
    }
  }

  lemma RangesAreLines(head: string, ranges: seq<string>)
    requires Opens(head) && AllWords(ranges)
    ensures AllLines(OspfArea.RangeLines(head, ranges))
  {
    OpenMore(head, "range ");
    forall i | 0 <= i < |ranges| ensures IsLine(OspfArea.RangeLines(head, ranges)[i]) {
      TailedLine(head + "range ", ranges[i]);
    }
  }

  lemma NetworkIsLine(n: OspfArea.Network)
    requires PrintableNetwork(n)
    ensures AllLines(Ospf.NetworkLine(n))
  {
    OspfArea.ValidatedIdRendered(n.area);
    VrfLine("network ", n.prefix, " area ", OspfArea.Rendered(n.area));
  }

  lemma RoutesAreLines(args: Ospf.Args)
    requires PrintableProcess(args)
    ensures AllLines(Ospf.RouteLines(args))
  {
    forall i | 0 <= i < |args.redistribute| ensures AllLines(Ospf.RedistributeLine(args.redistribute[i])) {
      RedistributeIsLine(args.redistribute[i]);
    }
    CollectLines(args.redistribute, Ospf.RedistributeLine);
    forall i | 0 <= i < |args.areas| ensures AllLines(Ospf.AreaLines(args.areas[i])) {
      AreaIsLines(args.areas[i]);
    }
    CollectLines(args.areas, Ospf.AreaLines);
    forall i | 0 <= i < |args.networks| ensures AllLines(Ospf.NetworkLine(args.networks[i])) {
      NetworkIsLine(args.networks[i]);
    }
    CollectLines(args.networks, Ospf.NetworkLine);
    LinesAppend(Collect(args.redistribute, Ospf.RedistributeLine), Collect(args.areas, Ospf.AreaLines));
    LinesAppend(Collect(args.redistribute, Ospf.RedistributeLine) + Collect(args.areas, Ospf.AreaLines),
                Collect(args.networks, Ospf.NetworkLine));
  }

  lemma TimersAreLines(args: Ospf.Args)
    ensures AllLines(Ospf.TimerLines(args))
  {
    if args.timers.Some? {
      var t := args.timers.value;
      NumberedLines("timers out-delay ", t.outDelay);
      NumberedLines("timers pacing flood ", t.pacingFlood);
      SpfIsLines(t, "timers spf delay initial ");
      LinesAppend(Ospf.SpfLines(t), Numbered("timers out-delay ", t.outDelay));
    }
  }

  lemma SpfIsLines(t: Ospf.Timers, head: string)
    requires head == "timers spf delay initial "
    ensures AllLines(Ospf.SpfLines(t))
  {
    if Ospf.SpfLines(t) != [] {
      NumberBoth(t.spfDelayInitial.value);
      OpenMore(head, Itoa(t.spfDelayInitial.value));
      NumberTail(head + Itoa(t.spfDelayInitial.value), " ", t.spfHold.value);
      NumberTail(head + Itoa(t.spfDelayInitial.value) + " " + Itoa(t.spfHold.value), " ", t.spfMax.value);
    }
  }

  lemma LogIsLine(args: Ospf.Args)
    ensures AllLines(Ospf.LogLines(args))
  {
    assert IsLine("no log-adjacency-changes");
    assert IsLine("log-adjacency-changes detail");
    assert IsLine("log-adjacency-changes");
  }

  lemma LimitsAreLines(args: Ospf.Args)
    ensures AllLines(Ospf.LimitLines(args))
  {
    NumberedLines("max-lsa ", args.maxLsa);
    LogIsLine(args);
    TimersAreLines(args);
    LinesAppend(Numbered("max-lsa ", args.maxLsa), Ospf.LogLines(args));
    LinesAppend(Numbered("max-lsa ", args.maxLsa) + Ospf.LogLines(args), Ospf.TimerLines(args));
  }

  function MaybeNumber(line: string, mid: string, n: Option<Int>): string {
    if n.Some? then line + mid + Itoa(n.value) else line
  }

  lemma MaybeNumberTail(line: string, mid: string, n: Option<Int>)
    requires Opens(line) && Closes(line) && '\n' !in mid
    ensures Opens(MaybeNumber(line, mid, n)) && Closes(MaybeNumber(line, mid, n))
  {
    if n.Some? {
      NumberTail(line, mid, n.value);
    }
  }

  lemma DefaultInfoTails(d: Ospf.DefaultInfo, l0: string, l1: string, l2: string)
    requires Opens(l0) && Closes(l0) && Word(d.routeMap)
    requires l1 == MaybeNumber(l0, " metric ", d.metric) && l2 == MaybeNumber(l1, " metric-type ", d.metricType)
    ensures IsLine(if Deref(d.routeMap) != "" then l2 + " route-map " + d.routeMap.value else l2)
  {
    MaybeNumberTail(l0, " metric ", d.metric);
    MaybeNumberTail(l1, " metric-type ", d.metricType);
    OptionalTail(l2, " route-map ", d.routeMap);
  }

  lemma DefaultInfoIsLine(args: Ospf.Args, l0: string)
    requires PrintableProcess(args) && l0 == "default-information originate"
    ensures AllLines(Ospf.DefaultInfoLines(args))
  {
    if args.defaultInfo.Some? {
      var d := args.defaultInfo.value;
      var l1 := MaybeNumber(l0, " metric ", d.metric);
      DefaultInfoTails(d, l0, l1, MaybeNumber(l1, " metric-type ", d.metricType));
    }
  }

  lemma PathsAreLines(args: Ospf.Args)
    requires PrintableProcess(args)
    ensures AllLines(Ospf.PathLines(args))
  {
    NumberedLines("maximum-paths ", args.maximumPaths);
    DefaultInfoIsLine(args, "default-information originate");
    LinesAppend(Numbered("maximum-paths ", args.maximumPaths), Ospf.DefaultInfoLines(args));
  }

  lemma TailIsLines(args: Ospf.Args)
    requires AllWords(args.summaries)
    ensures AllLines(Ospf.TailLines(args))
  {
    WordLines("summary-address ", args.summaries);
    GracefulIsLine(args);
    LinesAppend(Each("summary-address ", args.summaries), Ospf.GracefulLines(args));
  }

  lemma GracefulIsLine(args: Ospf.Args)
    ensures AllLines(Ospf.GracefulLines(args))
  {
    TokenBoth("graceful-restart-helper");
  }

  lemma ProcessBodyIsLines(args: Ospf.Args)
    requires PrintableProcess(args)
    ensures AllLines(Ospf.Body(args))
  {
    ScalarsAreLines(args);
    DistancesAreLines(args);
    InterfacesAreLines(args);
    RoutesAreLines(args);
    LimitsAreLines(args);
    PathsAreLines(args);
    TailIsLines(args);
    SevenLines(Ospf.ScalarLines(args), Ospf.DistanceLines(args), Ospf.InterfaceLines(args), Ospf.RouteLines(args),
               Ospf.LimitLines(args), Ospf.PathLines(args), Ospf.TailLines(args));
  }

  lemma SevenLines(a: seq<string>, b: seq<string>, c: seq<string>, d: seq<string>, e: seq<string>, f: seq<string>,
                   g: seq<string>)
    requires AllLines(a) && AllLines(b) && AllLines(c) && AllLines(d) && AllLines(e) && AllLines(f) && AllLines(g)
    ensures AllLines(a + b + c + d + e + f + g)
  {
    LinesAppend(a, b);
    LinesAppend(a + b, c);
    LinesAppend(a + b + c, d);
    LinesAppend(a + b + c + d, e);
    LinesAppend(a + b + c + d + e, f);
    LinesAppend(a + b + c + d + e + f, g);
  }

  lemma ProcessFromBody(args: Ospf.Args, body: seq<string>)
    requires Word(args.vrf) && AllLines(body)
    ensures AllLines(["no " + Ospf.HeaderOf(args), Ospf.HeaderOf(args)] + body + ["exit"])
  {
    ProcessHeader(args);
    TokenBoth("exit");
    FramedByTwo("no " + Ospf.HeaderOf(args), Ospf.HeaderOf(args), body, "exit");
  }

  lemma ProcessIsLines(args: Ospf.Args)
    requires PrintableProcess(args)
    ensures AllLines(Ospf.Rendered(args)) && Ospf.Rendered(args) != []
  {
    ProcessBodyIsLines(args);
    ProcessFromBody(args, Ospf.Body(args));
  }

  lemma FramedByTwo(a: string, b: string, body: seq<string>, c: string)
    requires IsLine(a) && IsLine(b) && AllLines(body) && IsLine(c)
    ensures AllLines([a, b] + body + [c]) && [a, b] + body + [c] != []
  {
  }

  lemma ProcessReadsBack(procs: seq<Ospf.Args>, k: nat, text: string)
    requires k < |procs| && OspfRead.Apart(procs)
    requires forall i :: 0 <= i < |procs| ==> PrintableProcess(procs[i])
    requires Prints(text, Collect(procs, OspfRead.RenderedLines))
    ensures OspfRead.Reading(TrimmedLines(text), procs[k].instance, Deref(procs[k].vrf))
         == Some(OspfRead.RowOf(procs[k]))
  {
    forall i | 0 <= i < |procs| ensures AllLines(OspfRead.RenderedLines(procs[i])) {
      ProcessIsLines(procs[i]);
    }
    CollectLines(procs, OspfRead.RenderedLines);
    ProcessIsLines(procs[k]);
    SomeLine(procs, OspfRead.RenderedLines, k);
    PrintedIsRead(text, Collect(procs, OspfRead.RenderedLines));
    OspfRead.ReadsBack(procs, k, text);
  }

  // ---- VRRP groups ------------------------------------------------------------------------------------------

  predicate PrintableGroup(args: Vrrp.Args, isIPv6: string -> bool) {
    && Vrrp.ValidArgs(args, isIPv6) && VrrpRead.ReadableTracks(args.tracks)
    && AllWords(args.addresses)
    && EndsLine(Deref(args.description))
  }

  lemma AddressesAreTexts(addresses: seq<string>, isIPv6: string -> bool)
    requires AllWords(addresses)
    ensures AllTexts(Vrrp.AddressRests(addresses, isIPv6))
  {
    if addresses != [] {
      var n := |addresses| - 1;
      var a := addresses[n];
      assert forall i :: 0 <= i < n ==> addresses[..n][i] == addresses[i];
      AddressesAreTexts(addresses[..n], isIPv6);
      TokenBoth(a);
      OpenClose("ipv6 ", a);
      OpenClose("ipv4 ", a);
      OpenClose("ipv4 " + a, " secondary");
      TextsAppend(Vrrp.AddressRests(addresses[..n], isIPv6), Vrrp.AddressRest(addresses[..n], a, isIPv6));
    }
  }

  lemma TextsAppend(a: seq<string>, b: seq<string>)
    requires AllTexts(a) && AllTexts(b)
    ensures AllTexts(a + b)
  {
  }

  lemma NumberedTexts(head: string, n: Option<Int>)
    requires Opens(head)
    ensures AllTexts(Numbered(head, n))
  {
    if n.Some? {
      NumberBoth(n.value);
      OpenClose(head, Itoa(n.value));
    }
  }

  lemma NumbersAreTexts(args: Vrrp.Args)
    ensures AllTexts(Numbered("priority-level ", args.priority))
    ensures AllTexts(Numbered("preempt delay minimum ", args.preemptDelay))
    ensures AllTexts(Numbered("advertisement interval ", args.advertise))
  {
    NumberedTexts("priority-level ", args.priority);
    NumberedTexts("preempt delay minimum ", args.preemptDelay);
    NumberedTexts("advertisement interval ", args.advertise);
  }

  lemma DescriptionIsText(args: Vrrp.Args)
    requires EndsLine(Deref(args.description))
    ensures AllTexts(Vrrp.PreemptRests(args)) && AllTexts(Vrrp.DescriptionRests(args))
  {
    TokenBoth("preempt");
    if Given(args.description) {
      OpenClose("session description ", args.description.value);
    }
  }

  lemma ScalarsAreTexts(args: Vrrp.Args)
    requires EndsLine(Deref(args.description))
    ensures AllTexts(Vrrp.ScalarRests(args))
  {
    NumbersAreTexts(args);
    DescriptionIsText(args);
    var a, b, c, d, e := Numbered("priority-level ", args.priority), Vrrp.PreemptRests(args),
      Numbered("preempt delay minimum ", args.preemptDelay), Numbered("advertisement interval ", args.advertise),
      Vrrp.DescriptionRests(args);
    FiveTexts(a, b, c, d, e);
  }

  lemma FiveTexts(a: seq<string>, b: seq<string>, c: seq<string>, d: seq<string>, e: seq<string>)
    requires AllTexts(a) && AllTexts(b) && AllTexts(c) && AllTexts(d) && AllTexts(e)
    ensures AllTexts(a + b + c + d + e)
  {
    TextsAppend(a, b);
    TextsAppend(a + b, c);
    TextsAppend(a + b + c, d);
    TextsAppend(a + b + c + d, e);
  }

  lemma TrackIsText(t: Vrrp.Track)
    requires IsToken(t.object_)
    ensures AllTexts(Vrrp.TrackRest(t))
  {
    TokenBoth(t.object_);
    OpenMore("tracked-object ", t.object_);
    NumberTail("tracked-object " + t.object_, " decrement ", if t.decrement.Some? then t.decrement.value else 0);
    OpenClose("tracked-object " + t.object_, " shutdown");
  }

  lemma {:induction false} TracksAreTexts(tracks: seq<Vrrp.Track>)
    requires VrrpRead.ReadableTracks(tracks)
    ensures AllTexts(Collect(tracks, Vrrp.TrackRests))
  {
    if tracks != [] {
      var n := |tracks| - 1;
      assert forall i :: 0 <= i < n ==> tracks[..n][i] == tracks[i];
      TracksAreTexts(tracks[..n]);
      assert VrrpRead.ReadableTrack(tracks[n]);
      TrackIsText(tracks[n]);
      TextsAppend(Collect(tracks[..n], Vrrp.TrackRests), Vrrp.TrackRest(tracks[n]));
    }
  }

  lemma StateIsTexts(args: Vrrp.Args)
    requires Given(args.bfdPeer) ==> Netip.IsIPv4(args.bfdPeer.value)
    ensures AllTexts(Vrrp.BfdRests(args)) && AllTexts(Vrrp.DisabledRests(args))
  {
    if Given(args.bfdPeer) {
      Netip.IPv4Token(args.bfdPeer.value);
      TokenBoth(args.bfdPeer.value);
      OpenClose("bfd ip ", args.bfdPeer.value);
    }
    TokenBoth("disabled");
  }

  lemma SaysAreTexts(args: Vrrp.Args, isIPv6: string -> bool)
    requires PrintableGroup(args, isIPv6)
    ensures AllTexts(Vrrp.Says(args, isIPv6))
  {
    AddressesAreTexts(args.addresses, isIPv6);
    ScalarsAreTexts(args);
    TracksAreTexts(args.tracks);
    StateIsTexts(args);
    FiveTexts(Vrrp.AddressRests(args.addresses, isIPv6), Vrrp.ScalarRests(args), Collect(args.tracks, Vrrp.TrackRests),
              Vrrp.BfdRests(args), Vrrp.DisabledRests(args));
  }

  lemma EnableIsLine(args: Vrrp.Args)
    ensures AllLines(Vrrp.EnableLines(args))
  {
    GroupHead(args.vrid);
    OpenMore("no ", Vrrp.Head(args.vrid));
    TailedLine("no " + Vrrp.Head(args.vrid), "disabled");
  }

  lemma GroupIsLines(args: Vrrp.Args, isIPv6: string -> bool)
    requires PrintableGroup(args, isIPv6)
    ensures AllLines(Vrrp.GroupLines(args, isIPv6))
  {
    SaysAreTexts(args, isIPv6);
    EnableIsLine(args);
    GroupHead(args.vrid);
    EachLines(Vrrp.Head(args.vrid), Vrrp.Says(args, isIPv6));
    LinesAppend(Vrrp.Lines(args.vrid, Vrrp.Says(args, isIPv6)), Vrrp.EnableLines(args));
  }

  lemma GroupHead(vrid: Int)
    ensures Opens(Vrrp.Head(vrid))
  {
    NumberBoth(vrid);
    OpenMore("vrrp ", Itoa(vrid));
    OpenMore("vrrp " + Itoa(vrid), " ");
  }

  lemma {:induction false} GroupsAreLines(groups: seq<Vrrp.Args>, isIPv6: string -> bool)
    requires forall i :: 0 <= i < |groups| ==> PrintableGroup(groups[i], isIPv6)
    ensures AllLines(VrrpRead.Groups(groups, isIPv6))
  {
    if groups != [] {
      var n := |groups| - 1;
      assert forall i :: 0 <= i < n ==> groups[..n][i] == groups[i];
      GroupsAreLines(groups[..n], isIPv6);
      GroupIsLines(groups[n], isIPv6);
      LinesAppend(VrrpRead.Groups(groups[..n], isIPv6), Vrrp.GroupLines(groups[n], isIPv6));
    }
  }

  lemma InterfaceSaysNothing(header: string, lines: seq<string>)
    requires header != "" && header[0] != 'v'
    ensures Collect([header] + lines, VrrpRead.VrrpOnly) == Collect(lines, VrrpRead.VrrpOnly)
  {
    NoPrefix(header, "vrrp ", 0);
    CollectAppend([header], lines, VrrpRead.VrrpOnly);
    CollectOne(header, VrrpRead.VrrpOnly);
    AppendEmpty(Collect(lines, VrrpRead.VrrpOnly));
  }

  lemma InterfaceShown(iface: string, header: string, lines: seq<string>, text: string)
    requires IsToken(iface) && header == "interface " + iface && AllLines(lines)
    requires Prints(text, [header] + lines)
    ensures Contains(text, header)
    ensures Collect(TrimmedLines(text), VrrpRead.VrrpOnly) == Collect(lines, VrrpRead.VrrpOnly)
  {
    TailedLine("interface ", iface);
    LinesAppend([header], lines);
    PrintedIsRead(text, [header] + lines);
    LineIsIn(text, 0);
    InterfaceSaysNothing(header, lines);
  }

  lemma GroupShown(groups: seq<Vrrp.Args>, k: nat, isIPv6: string -> bool, header: string, text: string)
    requires k < |groups| && VrrpRead.VridsApart(groups)
    requires IsToken(groups[k].iface) && header == "interface " + groups[k].iface
    requires forall i :: 0 <= i < |groups| ==> PrintableGroup(groups[i], isIPv6)
    requires Prints(text, [header] + VrrpRead.Groups(groups, isIPv6))
    ensures VrrpRead.Reading(text, groups[k].iface, groups[k].vrid)
         == if Vrrp.Says(groups[k], isIPv6) == [] then None else Some(VrrpRead.RowOf(groups[k]))
  {
    GroupsAreLines(groups, isIPv6);
    InterfaceShown(groups[k].iface, header, VrrpRead.Groups(groups, isIPv6), text);
    VrrpRead.ReadsBack(groups, k, isIPv6, text);
  }

  /** The groups of one interface after its header line: a group reads back if and only if its
      description is one line that does not end in white space and its tracked objects are
      single words. */
  lemma GroupReadsBack(groups: seq<Vrrp.Args>, k: nat, isIPv6: string -> bool, header: string, text: string)
    requires k < |groups| && VrrpRead.VridsApart(groups) && Vrrp.ValidArgs(groups[k], isIPv6)
    requires IsToken(groups[k].iface) && AllWords(groups[k].addresses) && header == "interface " + groups[k].iface
    requires forall i :: 0 <= i < |groups| && i != k ==> PrintableGroup(groups[i], isIPv6)
    requires Prints(text, [header] + VrrpRead.Groups(groups, isIPv6))
    ensures VrrpRead.Reading(text, groups[k].iface, groups[k].vrid)
         == (if Vrrp.Says(groups[k], isIPv6) == [] then None else Some(VrrpRead.RowOf(groups[k])))
       <==> EndsLine(Deref(groups[k].description)) && VrrpRead.ReadableTracks(groups[k].tracks)
  {
    var args := groups[k];
    VrrpRead.ReadIsPlain(text, args.iface, args.vrid);
    VrrpRead.SaysAll(args, isIPv6);
    if EndsLine(Deref(args.description)) && VrrpRead.ReadableTracks(args.tracks) {
      assert PrintableGroup(args, isIPv6);
      GroupShown(groups, k, isIPv6, header, text);
    } else if VrrpRead.Reading(text, args.iface, args.vrid) == Some(VrrpRead.RowOf(args)) {
      VrrpRead.PlainRowTells(args);
    }
  }

  // ---- what does not come back -----------------------------------------------------------------------------

  /** A valid list whose remark ends in a blank: no text reads back as it. */
  lemma BlankRemarkLost(text: string, row: ListsRead.Row, found: bool) returns (args: Lists.Args)
    requires ListsRead.IsReading(TrimmedLines(text), "a", row, found)
    ensures args.name == "a" && args.remark == Some("b ") && Lists.ValidArgs(args)
    ensures row.remark != ListsRead.RemarkText(args)
  {
    var prefix := Netip.SomePrefix();
    args := Lists.Args("a", Some("b "), [Lists.Entry(10, "permit", prefix, None, None, None)]);
    ListsRead.ReadRemarkEnds(text, "a", row, found);
    assert IsSpace("b "[1]);
    assert IsTrimmed("a");
  }

  /** A valid track of an object of two words is not read as it. */
  lemma TwoWordTrackLost(t: Vrrp.Track)
    requires t == Vrrp.Track("a b", "shutdown", None)
    ensures Vrrp.ValidTrack(t) && VrrpRead.ReadTracks([t]) != VrrpRead.NormTracks([t])
  {
    TwoWordsText(t.object_);
    VrrpRead.TracksReadExactly([t]);
    assert !VrrpRead.ReadableTrack([t][0]);
  }
}
