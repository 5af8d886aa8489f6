/** Route-maps: validation and the staged command list. */
module RouteMap {
  import opened Seqs
  import opened Sorting
  import opened Text
  import opened Eos
  import Netip

  datatype Match = Match(
    ipAddressPrefixList: seq<string>,
    community: seq<string>,
    extcommunity: seq<string>,
    asPath: seq<string>,
    iface: Option<string>,
    tag: Option<Int>,
    metric: Option<Int>,
    localPreference: Option<Int>,
    sourceProtocol: Option<string>)

  datatype Set = Set(
    community: seq<string>,
    communityAdditive: Option<bool>,
    communityNone: Option<bool>,
    extcommunityRt: seq<string>,
    extcommunityRtAdditive: Option<bool>,
    localPreference: Option<Int>,
    metric: Option<string>,
    asPathPrepend: seq<Int>,
    ipNextHop: Option<string>,
    origin: Option<string>,
    tag: Option<Int>)

  const EMPTY_MATCH := Match([], [], [], [], None, None, None, None, None)
  const EMPTY_SET := Set([], None, None, [], None, None, None, [], None, None, None)

  datatype Entry = Entry(
    seqNo: Int,
    action: string,
    matches: Option<Match>,
    sets: Option<Set>,
    continueAt: Option<Int>)

  datatype Args = Args(name: string, entries: seq<Entry>)

  function SeqOf(e: Entry): int {
    e.seqNo
  }

  // ---- validation ------------------------------------------------------------------------

  datatype Invalid =
    | NameRequired | EntriesEmpty
    | SeqOutOfRange | SeqDuplicate | ActionInvalid | ContinueOutOfRange
    | TagOutOfRange | MetricMatchRange | LocalPrefRange | SourceProtocolInvalid
    | CommunityCombo | AsnInvalid | NextHopInvalid | MetricFormat | OriginInvalid

  predicate IsTag(n: Int) {
    0 <= n <= 4294967295
  }

  predicate IsSourceProtocol(s: string) {
    s in {"connected", "static", "isis", "ospf", "bgp", "rip"}
  }

  predicate IsOrigin(s: string) {
    s in {"igp", "egp", "incomplete"}
  }

  predicate IsNextHop(s: string) {
    s == "unchanged" || s == "self" || Netip.IsIPv4(s)
  }

  /** A number, or a delta: one sign and then a number. */
  predicate IsSetMetric(s: string) {
    var body := if HasPrefix(s, "+") || HasPrefix(s, "-") then s[1..] else s;
    Atoi(body).Some? && Atoi(body).value >= 0
  }

  predicate Flag(b: Option<bool>) {
    b == Some(true)
  }

  predicate ValidMatch(m: Match) {
    && (m.tag.Some? ==> IsTag(m.tag.value))
    && (m.metric.Some? ==> m.metric.value >= 0)
    && (m.localPreference.Some? ==> m.localPreference.value >= 0)
    && (m.sourceProtocol.Some? && m.sourceProtocol.value != "" ==> IsSourceProtocol(m.sourceProtocol.value))
  }

  predicate ValidSet(s: Set) {
    && !(Flag(s.communityAdditive) && Flag(s.communityNone))
    && (s.localPreference.Some? ==> s.localPreference.value >= 0)
    && (s.tag.Some? ==> IsTag(s.tag.value))
    && (forall i :: 0 <= i < |s.asPathPrepend| ==> 1 <= s.asPathPrepend[i] <= 4294967295)
    && (s.ipNextHop.Some? && s.ipNextHop.value != "" ==> IsNextHop(s.ipNextHop.value))
    && (s.metric.Some? && s.metric.value != "" ==> IsSetMetric(s.metric.value))
    && (s.origin.Some? && s.origin.value != "" ==> IsOrigin(s.origin.value))
  }

  predicate ValidEntry(e: Entry) {
    && 0 <= e.seqNo <= 65535
    && (e.action == "permit" || e.action == "deny")
    && (e.continueAt.Some? ==> 0 <= e.continueAt.value <= 65535)
    && (e.matches.Some? ==> ValidMatch(e.matches.value))
    && (e.sets.Some? ==> ValidSet(e.sets.value))
  }

  predicate ValidEntries(es: seq<Entry>) {
    forall i :: 0 <= i < |es| ==> ValidEntry(es[i])
  }

  predicate ValidArgs(args: Args) {
    && TrimSpace(args.name) != ""
    && args.entries != []
    && ValidEntries(args.entries)
    && DistinctKeys(args.entries, SeqOf)
  }

  function ValidateMatch(m: Match): (err: Option<Invalid>)
    ensures err == None <==> ValidMatch(m)
  {
    if m.tag.Some? && !IsTag(m.tag.value) then Some(TagOutOfRange)
    else if m.metric.Some? && m.metric.value < 0 then Some(MetricMatchRange)
    else if m.localPreference.Some? && m.localPreference.value < 0 then Some(LocalPrefRange)
    else if m.sourceProtocol.Some? && m.sourceProtocol.value != "" && !IsSourceProtocol(m.sourceProtocol.value)
      then Some(SourceProtocolInvalid)
    else None
  }

  function ValidateSet(s: Set): (err: Option<Invalid>)
    ensures err == None <==> ValidSet(s)
  {
    if Flag(s.communityAdditive) && Flag(s.communityNone) then Some(CommunityCombo)
    else if s.localPreference.Some? && s.localPreference.value < 0 then Some(LocalPrefRange)
    else if s.tag.Some? && !IsTag(s.tag.value) then Some(TagOutOfRange)
    else if exists i :: 0 <= i < |s.asPathPrepend| && !(1 <= s.asPathPrepend[i] <= 4294967295) then Some(AsnInvalid)
    else if s.ipNextHop.Some? && s.ipNextHop.value != "" && !IsNextHop(s.ipNextHop.value) then Some(NextHopInvalid)
    else if s.metric.Some? && s.metric.value != "" && !IsSetMetric(s.metric.value) then Some(MetricFormat)
    else if s.origin.Some? && s.origin.value != "" && !IsOrigin(s.origin.value) then Some(OriginInvalid)
    else None
  }

  function ValidateEntry(e: Entry): (err: Option<Invalid>)
    ensures err == None <==> ValidEntry(e)
  {
    if e.seqNo < 0 || e.seqNo > 65535 then Some(SeqOutOfRange)
    else if e.action != "permit" && e.action != "deny" then Some(ActionInvalid)
    else if e.continueAt.Some? && (e.continueAt.value < 0 || e.continueAt.value > 65535) then Some(ContinueOutOfRange)
    else
      var matchErr := if e.matches.Some? then ValidateMatch(e.matches.value) else None;
      if matchErr.Some? then matchErr
      else if e.sets.Some? then ValidateSet(e.sets.value)
      else None
  }

  method Validate(args: Args) returns (err: Option<Invalid>)
    ensures err == None <==> ValidArgs(args)
    ensures err == Some(SeqDuplicate) ==> !DistinctKeys(args.entries, SeqOf)
  {
    if TrimSpace(args.name) == "" {
      return Some(NameRequired);
    }
    if |args.entries| == 0 {
      return Some(EntriesEmpty);
    }
    err := ValidateEntries(args.entries);
  }

  method ValidateEntries(es: seq<Entry>) returns (err: Option<Invalid>)
    ensures err == None <==> ValidEntries(es) && DistinctKeys(es, SeqOf)
    ensures err == Some(SeqDuplicate) ==> !DistinctKeys(es, SeqOf)
  {
    // the sequence numbers met so far, each with its place
    var seen: map<int, nat> := map[];
    for i := 0 to |es|
      invariant ValidEntries(es[..i])
      invariant forall k :: 0 <= k < i ==> SeqOf(es[k]) in seen && seen[SeqOf(es[k])] == k
      invariant forall n :: n in seen ==> seen[n] < i && SeqOf(es[seen[n]]) == n
    {
      var e := es[i];
      TakeSnoc(es, i);
      var entryErr := ValidateEntry(e);
      if entryErr.Some? {
        return entryErr;
      }
      if e.seqNo in seen {
        assert SeqOf(es[seen[e.seqNo]]) == SeqOf(es[i]);
        return Some(SeqDuplicate);
      }
      seen := seen[e.seqNo := i];
    }
    TakeAll(es);
    return None;
  }

  // ---- what an entry says, clause by clause -----------------------------------------------

  function TextArg(s: Option<string>): seq<string> {
    if s.Some? && s.value != "" then [s.value] else []
  }

  function NumberArg(n: Option<Int>): seq<string> {
    if n.Some? then [Itoa(n.value)] else []
  }

  function MatchArgs(m: Match, c: Clause): seq<string> {
    match c
    case MatchIpPrefixList => m.ipAddressPrefixList
    case MatchAsPath => m.asPath
    case MatchCommunity => m.community
    case MatchExtcommunity => m.extcommunity
    case MatchInterface => TextArg(m.iface)
    case MatchLocalPreference => NumberArg(m.localPreference)
    case MatchMetric => NumberArg(m.metric)
    case MatchSourceProtocol => TextArg(m.sourceProtocol)
    case MatchTag => NumberArg(m.tag)
    case _ => []
  }

  function RtWords(s: Set): seq<string> {
    if Flag(s.extcommunityRtAdditive) then ["additive"] else []
  }

  function RtArgs(rts: seq<string>, suffix: seq<string>): seq<string> {
    if rts == [] then [] else RtArgs(rts[..|rts| - 1], suffix) + ([rts[|rts| - 1]] + suffix)
  }

  function CommunityArgs(s: Set): seq<string> {
    if Flag(s.communityNone) then ["none"]
    else if s.community == [] then []
    else s.community + (if Flag(s.communityAdditive) then ["additive"] else [])
  }

  function SetArgs(s: Set, c: Clause): seq<string> {
    match c
    case SetAsPathPrepend => ItoaAll(s.asPathPrepend)
    case SetCommunity => CommunityArgs(s)
    case SetExtcommunityRt => RtArgs(s.extcommunityRt, RtWords(s))
    case SetIpNextHop => TextArg(s.ipNextHop)
    case SetLocalPreference => NumberArg(s.localPreference)
    case SetMetric => TextArg(s.metric)
    case SetOrigin => TextArg(s.origin)
    case SetTag => NumberArg(s.tag)
    case _ => []
  }

  /** The arguments an entry gives to a clause; none when the clause is not set. */
  function ClauseArgs(e: Entry, c: Clause): seq<string> {
    if c == ContinueAt then NumberArg(e.continueAt)
    else
      (if e.matches.Some? then MatchArgs(e.matches.value, c) else [])
      + (if e.sets.Some? then SetArgs(e.sets.value, c) else [])
  }

  const MATCH_ORDER: seq<Clause> := [
    MatchIpPrefixList, MatchAsPath, MatchCommunity, MatchExtcommunity, MatchInterface,
    MatchLocalPreference, MatchMetric, MatchSourceProtocol, MatchTag]

  const SET_ORDER: seq<Clause> := [
    SetAsPathPrepend, SetCommunity, SetExtcommunityRt, SetIpNextHop,
    SetLocalPreference, SetMetric, SetOrigin, SetTag]

  /** The words a clause line begins with. */
  function Keyword(c: Clause): seq<string> {
    match c
    case MatchIpPrefixList => ["match", "ip", "address", "prefix-list"]
    case MatchAsPath => ["match", "as-path"]
    case MatchCommunity => ["match", "community"]
    case MatchExtcommunity => ["match", "extcommunity"]
    case MatchInterface => ["match", "interface"]
    case MatchLocalPreference => ["match", "local-preference"]
    case MatchMetric => ["match", "metric"]
    case MatchSourceProtocol => ["match", "source-protocol"]
    case MatchTag => ["match", "tag"]
    case SetAsPathPrepend => ["set", "as-path", "prepend"]
    case SetCommunity => ["set", "community"]
    case SetExtcommunityRt => ["set", "extcommunity", "rt"]
    case SetIpNextHop => ["set", "ip", "next-hop"]
    case SetLocalPreference => ["set", "local-preference"]
    case SetMetric => ["set", "metric"]
    case SetOrigin => ["set", "origin"]
    case SetTag => ["set", "tag"]
    case ContinueAt => ["continue"]
  }

  // ---- the staged commands --------------------------------------------------------------------

  function OneLine(head: string, args: seq<string>): seq<string> {
    if args == [] then [] else [head + Join(args, " ")]
  }

  function MatchListLines(m: Match): seq<string> {
    OneLine("match ip address prefix-list ", m.ipAddressPrefixList)
    + OneLine("match as-path ", m.asPath)
    + OneLine("match community ", m.community)
    + OneLine("match extcommunity ", m.extcommunity)
  }

  function MatchLines(m: Match): seq<string> {
    MatchListLines(m)
    + OneLine("match interface ", TextArg(m.iface))
    + OneLine("match local-preference ", NumberArg(m.localPreference))
    + OneLine("match metric ", NumberArg(m.metric))
    + OneLine("match source-protocol ", TextArg(m.sourceProtocol))
    + OneLine("match tag ", NumberArg(m.tag))
  }

  function RtLine(rt: string, additive: bool): string {
    if additive then "set extcommunity rt " + rt + " additive" else "set extcommunity rt " + rt
  }

  function RtLines(rts: seq<string>, additive: bool): (lines: seq<string>)
    ensures |lines| == |rts|
    ensures forall i :: 0 <= i < |rts| ==> lines[i] == RtLine(rts[i], additive)
  {
    seq(|rts|, i requires 0 <= i < |rts| => RtLine(rts[i], additive))
  }

  function SetListLines(s: Set): seq<string> {
    OneLine("set as-path prepend ", ItoaAll(s.asPathPrepend))
    + OneLine("set community ", CommunityArgs(s))
    + RtLines(s.extcommunityRt, Flag(s.extcommunityRtAdditive))
  }

  function SetLines(s: Set): seq<string> {
    SetListLines(s)
    + OneLine("set ip next-hop ", TextArg(s.ipNextHop))
    + OneLine("set local-preference ", NumberArg(s.localPreference))
    + OneLine("set metric ", TextArg(s.metric))
    + OneLine("set origin ", TextArg(s.origin))
    + OneLine("set tag ", NumberArg(s.tag))
  }

  function HeaderLine(name: string, e: Entry): string {
    "route-map " + name + " " + e.action + " " + Itoa(e.seqNo)
  }

  function BodyLines(e: Entry): seq<string> {
    MatchPart(e) + SetPart(e) + OneLine("continue ", NumberArg(e.continueAt))
  }

  function EntryLines(name: string, e: Entry): seq<string> {
    [HeaderLine(name, e)] + BodyLines(e) + ["exit"]
  }

  function AllEntryLines(name: string, es: seq<Entry>): seq<string> {
    if es == [] then [] else AllEntryLines(name, es[..|es| - 1]) + EntryLines(name, es[|es| - 1])
  }

  function NegateCmd(name: string): string {
    "no route-map " + name
  }

  function Rendered(args: Args, remove: bool): seq<string> {
    if remove then [NegateCmd(args.name)]
    else [NegateCmd(args.name)] + AllEntryLines(args.name, Ascending(args.entries, SeqOf))
  }

  method RouteMapMatchCmds(om: Option<Match>) returns (cmds: seq<string>)
    ensures cmds == if om.Some? then MatchLines(om.value) else []
  {
    if om == None {
      return [];
    }
    cmds := MatchListCmds(om.value);
    cmds := AppendMatchScalars(cmds, om.value);
  }

  method MatchListCmds(m: Match) returns (cmds: seq<string>)
    ensures cmds == MatchListLines(m)
  {
    cmds := [];
    ghost var done: seq<string> := [];
    if |m.ipAddressPrefixList| > 0 {
      cmds := cmds + ["match ip address prefix-list " + Join(m.ipAddressPrefixList, " ")];
    }
    done := OneLine("match ip address prefix-list ", m.ipAddressPrefixList);
    assert cmds == done;
    if |m.asPath| > 0 {
      cmds := cmds + ["match as-path " + Join(m.asPath, " ")];
    }
    done := done + OneLine("match as-path ", m.asPath);
    assert cmds == done;
    if |m.community| > 0 {
      cmds := cmds + ["match community " + Join(m.community, " ")];
    }
    done := done + OneLine("match community ", m.community);
    assert cmds == done;
    if |m.extcommunity| > 0 {
      cmds := cmds + ["match extcommunity " + Join(m.extcommunity, " ")];
    }
    done := done + OneLine("match extcommunity ", m.extcommunity);
    assert cmds == done;
  }

  method AppendMatchScalars(head: seq<string>, m: Match) returns (cmds: seq<string>)
    ensures head == MatchListLines(m) ==> cmds == MatchLines(m)
  {
    cmds := head;
    ghost var done := head;
    if m.iface.Some? && m.iface.value != "" {
      cmds := cmds + ["match interface " + m.iface.value];
    }
    done := done + OneLine("match interface ", TextArg(m.iface));
    assert cmds == done;
    if m.localPreference.Some? {
      cmds := cmds + ["match local-preference " + Itoa(m.localPreference.value)];
    }
    done := done + OneLine("match local-preference ", NumberArg(m.localPreference));
    assert cmds == done;
    if m.metric.Some? {
      cmds := cmds + ["match metric " + Itoa(m.metric.value)];
    }
    done := done + OneLine("match metric ", NumberArg(m.metric));
    assert cmds == done;
    if m.sourceProtocol.Some? && m.sourceProtocol.value != "" {
      cmds := cmds + ["match source-protocol " + m.sourceProtocol.value];
    }
    done := done + OneLine("match source-protocol ", TextArg(m.sourceProtocol));
    assert cmds == done;
    if m.tag.Some? {
      cmds := cmds + ["match tag " + Itoa(m.tag.value)];
    }
    done := done + OneLine("match tag ", NumberArg(m.tag));
    assert cmds == done;
  }

  method RouteMapSetCmds(os: Option<Set>) returns (cmds: seq<string>)
    ensures cmds == if os.Some? then SetLines(os.value) else []
  {
    if os == None {
      return [];
    }
    cmds := SetListCmds(os.value);
    cmds := AppendSetScalars(cmds, os.value);
  }

  method SetListCmds(s: Set) returns (cmds: seq<string>)
    ensures cmds == SetListLines(s)
  {
    cmds := [];
    if |s.asPathPrepend| > 0 {
      var parts := ItoaEach(s.asPathPrepend);
      cmds := cmds + ["set as-path prepend " + Join(parts, " ")];
    }
    ghost var done := OneLine("set as-path prepend ", ItoaAll(s.asPathPrepend));
    assert cmds == done;
    var community := CommunityCmd(s);
    cmds := cmds + community;
    done := done + OneLine("set community ", CommunityArgs(s));
    assert cmds == done;
    var rts := RtCmds(s);
    cmds := cmds + rts;
  }

  method ItoaEach(ns: seq<Int>) returns (parts: seq<string>)
    ensures parts == ItoaAll(ns)
  {
    parts := [];
    ghost var all := ItoaAll(ns);
    for i := 0 to |ns|
      invariant parts == all[..i]
    {
      TakeSnoc(all, i);
      parts := parts + [Itoa(ns[i])];
    }
    TakeAll(all);
  }

  method CommunityCmd(s: Set) returns (cmds: seq<string>)
    ensures cmds == OneLine("set community ", CommunityArgs(s))
  {
    if s.communityNone == Some(true) {
      assert "set community none" == "set community " + "none";
      return ["set community none"];
    }
    if |s.community| == 0 {
      return [];
    }
    var line := "set community " + Join(s.community, " ");
    AppendEmpty(s.community);
    if s.communityAdditive == Some(true) {
      line := line + " additive";
      AdditiveLine("set community ", s.community);
    }
    return [line];
  }

  lemma AdditiveLine(head: string, values: seq<string>)
    requires values != []
    ensures head + Join(values, " ") + " additive" == head + Join(values + ["additive"], " ")
  {
    JoinSnoc(values, "additive");
    var all := Join(values, " ");
    assert " additive" == " " + "additive";
    Associate(all, " ", "additive");
    Associate(head, all, " additive");
  }

  method RtCmds(s: Set) returns (cmds: seq<string>)
    ensures cmds == RtLines(s.extcommunityRt, Flag(s.extcommunityRtAdditive))
  {
    var rtAdditive := s.extcommunityRtAdditive == Some(true);
    ghost var all := RtLines(s.extcommunityRt, rtAdditive);
    cmds := [];
    for i := 0 to |s.extcommunityRt|
      invariant cmds == all[..i]
    {
      var line := "set extcommunity rt " + s.extcommunityRt[i];
      if rtAdditive {
        line := line + " additive";
      }
      assert line == all[i];
      TakeSnoc(all, i);
      cmds := cmds + [line];
    }
    TakeAll(all);
  }

  method AppendSetScalars(head: seq<string>, s: Set) returns (cmds: seq<string>)
    ensures head == SetListLines(s) ==> cmds == SetLines(s)
  {
    cmds := head;
    ghost var done := head;
    if s.ipNextHop.Some? && s.ipNextHop.value != "" {
      cmds := cmds + ["set ip next-hop " + s.ipNextHop.value];
    }
    done := done + OneLine("set ip next-hop ", TextArg(s.ipNextHop));
    assert cmds == done;
    if s.localPreference.Some? {
      cmds := cmds + ["set local-preference " + Itoa(s.localPreference.value)];
    }
    done := done + OneLine("set local-preference ", NumberArg(s.localPreference));
    assert cmds == done;
    if s.metric.Some? && s.metric.value != "" {
      cmds := cmds + ["set metric " + s.metric.value];
    }
    done := done + OneLine("set metric ", TextArg(s.metric));
    assert cmds == done;
    if s.origin.Some? && s.origin.value != "" {
      cmds := cmds + ["set origin " + s.origin.value];
    }
    done := done + OneLine("set origin ", TextArg(s.origin));
    assert cmds == done;
    if s.tag.Some? {
      cmds := cmds + ["set tag " + Itoa(s.tag.value)];
    }
    done := done + OneLine("set tag ", NumberArg(s.tag));
    assert cmds == done;
  }

  method EntryCmds(name: string, e: Entry) returns (cmds: seq<string>)
    ensures cmds == EntryLines(name, e)
  {
    cmds := ["route-map " + name + " " + e.action + " " + Itoa(e.seqNo)];
    var matches := RouteMapMatchCmds(e.matches);
    var sets := RouteMapSetCmds(e.sets);
    var body := matches + sets;
    if e.continueAt.Some? {
      body := body + ["continue " + Itoa(e.continueAt.value)];
    }
    assert body == BodyLines(e);
    cmds := cmds + body + ["exit"];
  }

  /** Called on validated arguments, whose sequence numbers differ: the library
      sort then has no freedom left. */
  method BuildRouteMapCmds(args: Args, remove: bool) returns (cmds: seq<string>)
    requires !remove ==> DistinctKeys(args.entries, SeqOf)
    ensures cmds == Rendered(args, remove)
  {
    if remove {
      return ["no route-map " + args.name];
    }
    var entries := SortSlice(args.entries, SeqOf);
    SortSliceDetermined(args.entries, entries, SeqOf);
    var rest := AllEntryCmds(args.name, entries);
    cmds := ["no route-map " + args.name] + rest;
  }

  method AllEntryCmds(name: string, entries: seq<Entry>) returns (cmds: seq<string>)
    ensures cmds == AllEntryLines(name, entries)
  {
    cmds := [];
    for i := 0 to |entries|
      invariant cmds == AllEntryLines(name, entries[..i])
    {
      var block := EntryCmds(name, entries[i]);
      AllEntryLinesSnoc(name, entries[..i], entries[i]);
      TakeSnoc(entries, i);
      cmds := cmds + block;
    }
    TakeAll(entries);
  }

  lemma AllEntryLinesSnoc(name: string, es: seq<Entry>, e: Entry)
    ensures AllEntryLines(name, es + [e]) == AllEntryLines(name, es) + EntryLines(name, e)
  {
    SnocParts(es, e);
  }

  /** The command list is a canonical form: it does not depend on the order in
      which the entries were declared, and numbers them strictly upwards. */
  lemma RenderedCanonically(a: Args, b: Args, remove: bool)
    requires a.name == b.name
    requires multiset(a.entries) == multiset(b.entries)
    requires DistinctKeys(a.entries, SeqOf)
    ensures Rendered(a, remove) == Rendered(b, remove)
    ensures var es := Ascending(a.entries, SeqOf);
            forall i, j :: 0 <= i < j < |es| ==> es[i].seqNo < es[j].seqNo
  {
    AscendingOfPermutation(a.entries, b.entries, SeqOf);
    var es := Ascending(a.entries, SeqOf);
    forall i, j | 0 <= i < j < |es| ensures es[i].seqNo < es[j].seqNo {
      assert SeqOf(es[i]) <= SeqOf(es[j]) && SeqOf(es[i]) != SeqOf(es[j]);
    }
  }

  // ---- the body, clause by clause -----------------------------------------------------------

  /** What the line of a clause begins with. */
  function Head(c: Clause): string {
    match c
    case MatchIpPrefixList => "match ip address prefix-list "
    case MatchAsPath => "match as-path "
    case MatchCommunity => "match community "
    case MatchExtcommunity => "match extcommunity "
    case MatchInterface => "match interface "
    case MatchLocalPreference => "match local-preference "
    case MatchMetric => "match metric "
    case MatchSourceProtocol => "match source-protocol "
    case MatchTag => "match tag "
    case SetAsPathPrepend => "set as-path prepend "
    case SetCommunity => "set community "
    case SetExtcommunityRt => "set extcommunity rt "
    case SetIpNextHop => "set ip next-hop "
    case SetLocalPreference => "set local-preference "
    case SetMetric => "set metric "
    case SetOrigin => "set origin "
    case SetTag => "set tag "
    case ContinueAt => "continue "
  }

  function EntryRtLines(e: Entry): seq<string> {
    if e.sets.Some? then RtLines(e.sets.value.extcommunityRt, Flag(e.sets.value.extcommunityRtAdditive)) else []
  }

  function ClauseLines(e: Entry, c: Clause): seq<string> {
    if c == SetExtcommunityRt then EntryRtLines(e) else OneLine(Head(c), ClauseArgs(e, c))
  }

  function LinesOf(e: Entry): Clause -> seq<string> {
    (c: Clause) => ClauseLines(e, c)
  }

  const ORDER: seq<Clause> := MATCH_ORDER + SET_ORDER + [ContinueAt]

  lemma MatchUnrolled<T>(f: Clause -> seq<T>)
    ensures Collect(MATCH_ORDER, f) ==
            f(MatchIpPrefixList) + f(MatchAsPath) + f(MatchCommunity) + f(MatchExtcommunity) + f(MatchInterface)
            + f(MatchLocalPreference) + f(MatchMetric) + f(MatchSourceProtocol) + f(MatchTag)
  {
    var s1 := [MatchIpPrefixList];
    var s2 := s1 + [MatchAsPath];
    var s3 := s2 + [MatchCommunity];
    var s4 := s3 + [MatchExtcommunity];
    var s5 := s4 + [MatchInterface];
    var s6 := s5 + [MatchLocalPreference];
    var s7 := s6 + [MatchMetric];
    var s8 := s7 + [MatchSourceProtocol];
    assert MATCH_ORDER == s8 + [MatchTag];
    CollectOne(MatchIpPrefixList, f);
    CollectSnoc(s1, MatchAsPath, f);
    CollectSnoc(s2, MatchCommunity, f);
    CollectSnoc(s3, MatchExtcommunity, f);
    CollectSnoc(s4, MatchInterface, f);
    CollectSnoc(s5, MatchLocalPreference, f);
    CollectSnoc(s6, MatchMetric, f);
    CollectSnoc(s7, MatchSourceProtocol, f);
    CollectSnoc(s8, MatchTag, f);
  }

  lemma SetUnrolled<T>(f: Clause -> seq<T>)
    ensures Collect(SET_ORDER, f) ==
            f(SetAsPathPrepend) + f(SetCommunity) + f(SetExtcommunityRt) + f(SetIpNextHop)
            + f(SetLocalPreference) + f(SetMetric) + f(SetOrigin) + f(SetTag)
  {
    var s1 := [SetAsPathPrepend];
    var s2 := s1 + [SetCommunity];
    var s3 := s2 + [SetExtcommunityRt];
    var s4 := s3 + [SetIpNextHop];
    var s5 := s4 + [SetLocalPreference];
    var s6 := s5 + [SetMetric];
    var s7 := s6 + [SetOrigin];
    assert SET_ORDER == s7 + [SetTag];
    CollectOne(SetAsPathPrepend, f);
    CollectSnoc(s1, SetCommunity, f);
    CollectSnoc(s2, SetExtcommunityRt, f);
    CollectSnoc(s3, SetIpNextHop, f);
    CollectSnoc(s4, SetLocalPreference, f);
    CollectSnoc(s5, SetMetric, f);
    CollectSnoc(s6, SetOrigin, f);
    CollectSnoc(s7, SetTag, f);
  }

  function MatchPart(e: Entry): seq<string> {
    if e.matches.Some? then MatchLines(e.matches.value) else []
  }

  lemma MatchBody(e: Entry)
    ensures Collect(MATCH_ORDER, LinesOf(e)) == MatchPart(e)
  {
    if e.matches.Some? {
      SomeMatchBody(e);
    } else {
      forall i | 0 <= i < |MATCH_ORDER| ensures LinesOf(e)(MATCH_ORDER[i]) == [] {
        NoMatchLine(e, MATCH_ORDER[i]);
      }
      CollectNothing(MATCH_ORDER, LinesOf(e));
    }
  }

  lemma NoMatchLine(e: Entry, c: Clause)
    requires e.matches == None && IsMatchClause(c)
    ensures LinesOf(e)(c) == []
  {
  }

  lemma MatchLineOf(e: Entry, c: Clause)
    requires e.matches.Some? && IsMatchClause(c)
    ensures LinesOf(e)(c) == OneLine(Head(c), MatchArgs(e.matches.value, c))
  {
    MatchOnly(e, c);
  }

  lemma SomeMatchBody(e: Entry)
    requires e.matches.Some?
    ensures Collect(MATCH_ORDER, LinesOf(e)) == MatchLines(e.matches.value)
  {
    MatchLineOf(e, MatchIpPrefixList);
    MatchLineOf(e, MatchAsPath);
    MatchLineOf(e, MatchCommunity);
    MatchLineOf(e, MatchExtcommunity);
    MatchLineOf(e, MatchInterface);
    MatchLineOf(e, MatchLocalPreference);
    MatchLineOf(e, MatchMetric);
    MatchLineOf(e, MatchSourceProtocol);
    MatchLineOf(e, MatchTag);
    MatchLinesFrom(e.matches.value, LinesOf(e));
  }

  /** The lines of the match part, from whatever gives each clause its lines. */
  lemma MatchLinesFrom(m: Match, f: Clause -> seq<string>)
    requires f(MatchIpPrefixList) == OneLine("match ip address prefix-list ", m.ipAddressPrefixList)
    requires f(MatchAsPath) == OneLine("match as-path ", m.asPath)
    requires f(MatchCommunity) == OneLine("match community ", m.community)
    requires f(MatchExtcommunity) == OneLine("match extcommunity ", m.extcommunity)
    requires f(MatchInterface) == OneLine("match interface ", TextArg(m.iface))
    requires f(MatchLocalPreference) == OneLine("match local-preference ", NumberArg(m.localPreference))
    requires f(MatchMetric) == OneLine("match metric ", NumberArg(m.metric))
    requires f(MatchSourceProtocol) == OneLine("match source-protocol ", TextArg(m.sourceProtocol))
    requires f(MatchTag) == OneLine("match tag ", NumberArg(m.tag))
    ensures Collect(MATCH_ORDER, f) == MatchLines(m)
  {
    MatchUnrolled(f);
  }

  predicate IsMatchClause(c: Clause) {
    c.MatchIpPrefixList? || c.MatchAsPath? || c.MatchCommunity? || c.MatchExtcommunity? || c.MatchInterface?
    || c.MatchLocalPreference? || c.MatchMetric? || c.MatchSourceProtocol? || c.MatchTag?
  }

  lemma MatchOnly(e: Entry, c: Clause)
    requires IsMatchClause(c)
    ensures ClauseArgs(e, c) == if e.matches.Some? then MatchArgs(e.matches.value, c) else []
  {
  }

  lemma SetOnly(e: Entry, c: Clause)
    requires !IsMatchClause(c) && c != ContinueAt
    ensures ClauseArgs(e, c) == if e.sets.Some? then SetArgs(e.sets.value, c) else []
  {
  }

  lemma NoSetBody(e: Entry)
    requires e.sets == None
    ensures Collect(SET_ORDER, LinesOf(e)) == []
  {
    forall i | 0 <= i < |SET_ORDER| ensures LinesOf(e)(SET_ORDER[i]) == [] {
      NoSetLine(e, SET_ORDER[i]);
    }
    CollectNothing(SET_ORDER, LinesOf(e));
  }

  lemma NoSetLine(e: Entry, c: Clause)
    requires e.sets == None && !IsMatchClause(c) && c != ContinueAt
    ensures LinesOf(e)(c) == []
  {
  }

  /** The lines of the set part, from whatever gives each clause its lines. */
  lemma SetLinesFrom(s: Set, f: Clause -> seq<string>)
    requires f(SetAsPathPrepend) == OneLine("set as-path prepend ", ItoaAll(s.asPathPrepend))
    requires f(SetCommunity) == OneLine("set community ", CommunityArgs(s))
    requires f(SetExtcommunityRt) == RtLines(s.extcommunityRt, Flag(s.extcommunityRtAdditive))
    requires f(SetIpNextHop) == OneLine("set ip next-hop ", TextArg(s.ipNextHop))
    requires f(SetLocalPreference) == OneLine("set local-preference ", NumberArg(s.localPreference))
    requires f(SetMetric) == OneLine("set metric ", TextArg(s.metric))
    requires f(SetOrigin) == OneLine("set origin ", TextArg(s.origin))
    requires f(SetTag) == OneLine("set tag ", NumberArg(s.tag))
    ensures Collect(SET_ORDER, f) == SetLines(s)
  {
    SetUnrolled(f);
  }

  lemma SetLineOf(e: Entry, c: Clause)
    requires e.sets.Some? && !IsMatchClause(c) && c != ContinueAt && c != SetExtcommunityRt
    ensures LinesOf(e)(c) == OneLine(Head(c), SetArgs(e.sets.value, c))
  {
    SetOnly(e, c);
  }

  lemma SomeSetBody(e: Entry)
    requires e.sets.Some?
    ensures Collect(SET_ORDER, LinesOf(e)) == SetLines(e.sets.value)
  {
    var s := e.sets.value;
    SetLineOf(e, SetAsPathPrepend);
    SetLineOf(e, SetCommunity);
    SetLineOf(e, SetIpNextHop);
    SetLineOf(e, SetLocalPreference);
    SetLineOf(e, SetMetric);
    SetLineOf(e, SetOrigin);
    SetLineOf(e, SetTag);
    SetLinesFrom(s, LinesOf(e));
  }

  function SetPart(e: Entry): seq<string> {
    if e.sets.Some? then SetLines(e.sets.value) else []
  }

  lemma SetBody(e: Entry)
    ensures Collect(SET_ORDER, LinesOf(e)) == SetPart(e)
  {
    if e.sets.Some? {
      SomeSetBody(e);
    } else {
      NoSetBody(e);
    }
  }

  lemma CollectThree<A, B>(a: seq<A>, b: seq<A>, c: A, f: A -> seq<B>)
    ensures Collect(a + b + [c], f) == Collect(a, f) + Collect(b, f) + f(c)
  {
    CollectSnoc(a + b, c, f);
    CollectAppend(a, b, f);
  }

  /** The body of a block is its clauses' lines in canonical order. */
  lemma BodyByClause(e: Entry)
    ensures BodyLines(e) == Collect(ORDER, LinesOf(e))
  {
    MatchBody(e);
    SetBody(e);
    CollectThree(MATCH_ORDER, SET_ORDER, ContinueAt, LinesOf(e));
    ContinueBody(e);
  }

  lemma ContinueBody(e: Entry)
    ensures LinesOf(e)(ContinueAt) == OneLine("continue ", NumberArg(e.continueAt))
  {
  }
}
