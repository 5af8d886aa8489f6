/** Reading a route-map back from its `show running-config` section. */
module RouteMapRead {
  import opened Seqs
  import opened Sorting
  import opened Text
  import Scanner
  import opened Eos
  import opened RouteMap
  import opened RouteMapDevice

  // ---- one line ------------------------------------------------------------------------

  function NumberOr(payload: string, before: Option<Int>): Option<Int> {
    match Atoi(payload)
    case Some(v) => Some(v)
    case None => before
  }

  function ApplyMatchLine(m: Match, payload: string): Match {
    if HasPrefix(payload, "ip address prefix-list ") then
      m.(ipAddressPrefixList := Fields(TrimPrefix(payload, "ip address prefix-list ")))
    else if HasPrefix(payload, "as-path ") then m.(asPath := Fields(TrimPrefix(payload, "as-path ")))
    else if HasPrefix(payload, "community ") then m.(community := Fields(TrimPrefix(payload, "community ")))
    else if HasPrefix(payload, "extcommunity ") then m.(extcommunity := Fields(TrimPrefix(payload, "extcommunity ")))
    else if HasPrefix(payload, "interface ") then m.(iface := Some(TrimPrefix(payload, "interface ")))
    else if HasPrefix(payload, "tag ") then m.(tag := NumberOr(TrimPrefix(payload, "tag "), m.tag))
    else if HasPrefix(payload, "metric ") then m.(metric := NumberOr(TrimPrefix(payload, "metric "), m.metric))
    else if HasPrefix(payload, "local-preference ") then
      m.(localPreference := NumberOr(TrimPrefix(payload, "local-preference "), m.localPreference))
    else if HasPrefix(payload, "source-protocol ") then
      m.(sourceProtocol := Some(TrimPrefix(payload, "source-protocol ")))
    else m
  }

  function PickInt(t: string): seq<Int> {
    match Atoi(t)
    case Some(v) => [v]
    case None => []
  }

  function ApplyCommunityLine(s: Set, body: string): Set {
    match CutSuffix(body, " additive")
    case Some(rest) => s.(community := Fields(rest), communityAdditive := Some(true))
    case None => s.(community := Fields(body))
  }

  function ApplyRtLine(s: Set, body: string): Set {
    match CutSuffix(body, " additive")
    case Some(rt) => s.(extcommunityRt := s.extcommunityRt + [rt], extcommunityRtAdditive := Some(true))
    case None => s.(extcommunityRt := s.extcommunityRt + [body])
  }

  function ApplySetLine(s: Set, payload: string): Set {
    if HasPrefix(payload, "as-path prepend ") then
      s.(asPathPrepend := Collect(Fields(TrimPrefix(payload, "as-path prepend ")), PickInt))
    else if payload == "community none" then s.(communityNone := Some(true))
    else if HasPrefix(payload, "community ") then ApplyCommunityLine(s, TrimPrefix(payload, "community "))
    else if HasPrefix(payload, "extcommunity rt ") then ApplyRtLine(s, TrimPrefix(payload, "extcommunity rt "))
    else if HasPrefix(payload, "ip next-hop ") then s.(ipNextHop := Some(TrimPrefix(payload, "ip next-hop ")))
    else if HasPrefix(payload, "local-preference ") then
      s.(localPreference := NumberOr(TrimPrefix(payload, "local-preference "), s.localPreference))
    else if HasPrefix(payload, "metric ") then s.(metric := Some(TrimPrefix(payload, "metric ")))
    else if HasPrefix(payload, "origin ") then s.(origin := Some(TrimPrefix(payload, "origin ")))
    else if HasPrefix(payload, "tag ") then s.(tag := NumberOr(TrimPrefix(payload, "tag "), s.tag))
    else s
  }

  function MatchOf(e: Entry): Match {
    if e.matches.Some? then e.matches.value else EMPTY_MATCH
  }

  function SetOf(e: Entry): Set {
    if e.sets.Some? then e.sets.value else EMPTY_SET
  }

  function ApplyClauseLine(cur: Entry, line: string): Entry {
    if HasPrefix(line, "match ") then
      cur.(matches := Some(ApplyMatchLine(MatchOf(cur), TrimPrefix(line, "match "))))
    else if HasPrefix(line, "set ") then
      cur.(sets := Some(ApplySetLine(SetOf(cur), TrimPrefix(line, "set "))))
    else
      match CutPrefix(line, "continue ")
      case Some(rest) => cur.(continueAt := NumberOr(rest, cur.continueAt))
      case None => cur
  }

  function HeaderOf(rest: string): Option<Entry> {
    var tokens := Fields(rest);
    if |tokens| < 2 then None
    else
      match Atoi(tokens[1])
      case None => None
      case Some(n) =>
        if tokens[0] != "permit" && tokens[0] != "deny" then None
        else Some(Entry(n, tokens[0], None, None, None))
  }

  // ---- the scanner -----------------------------------------------------------------------

  /** The blocks finished so far, and the one under the cursor. */
  datatype Scan = Scan(done: seq<Entry>, cur: Option<Entry>)

  function Finish(s: Scan): seq<Entry> {
    s.done + (if s.cur.Some? then [s.cur.value] else [])
  }

  function ScanLine(s: Scan, line: string, name: string): Scan {
    match CutPrefix(line, "route-map " + name + " ")
    case Some(rest) => Scan(Finish(s), HeaderOf(rest))
    case None => if s.cur.Some? then s.(cur := Some(ApplyClauseLine(s.cur.value, line))) else s
  }

  function LineStep(name: string): (Scan, string) -> Scan {
    (s: Scan, line: string) => ScanLine(s, line, name)
  }

  function ScanLines(s: Scan, lines: seq<string>, name: string): Scan {
    Scanner.Scan(s, lines, LineStep(name))
  }

  const NOTHING := Scan([], None)

  /** The parser's answer, up to the order an unstable sort may give to equal
      sequence numbers. */
  ghost predicate IsReading(lines: seq<string>, name: string, entries: seq<Entry>) {
    && multiset(entries) == multiset(Finish(ScanLines(NOTHING, lines, name)))
    && SortedBy(entries, SeqOf)
  }

  method ParseRouteMapSection(out: string, name: string) returns (entries: seq<Entry>)
    ensures IsReading(TrimmedLines(out), name, entries)
  {
    var header := "route-map " + name + " ";
    var raws := Split(out, '\n');
    ghost var lines := TrimmedLines(out);
    entries := [];
    var cur: Option<Entry> := None;
    for i := 0 to |raws|
      invariant Scan(entries, cur) == ScanLines(NOTHING, lines[..i], name)
    {
      var line := TrimSpace(raws[i]);
      assert line == lines[i];
      TakeSnoc(lines, i);
      Scanner.ScanSnoc(NOTHING, lines[..i], line, LineStep(name));
      var rest := CutPrefix(line, header);
      if rest.Some? {
        if cur.Some? {
          entries := entries + [cur.value];
        }
        cur := HeaderOf(rest.value);
        continue;
      }
      if cur == None {
        continue;
      }
      cur := Some(ApplyClauseLine(cur.value, line));
    }
    TakeAll(lines);
    if cur.Some? {
      entries := entries + [cur.value];
    }
    entries := SortSlice(entries, SeqOf);
  }

  // ---- the normal form -----------------------------------------------------------------------

  function NormText(t: Option<string>): Option<string> {
    if t == Some("") then None else t
  }

  function NormFlag(b: Option<bool>): Option<bool> {
    if b == Some(true) then b else None
  }

  function NormMatch(m: Match): Match {
    m.(iface := NormText(m.iface), sourceProtocol := NormText(m.sourceProtocol))
  }

  /** A community `none` wins over values; additive flags need values to add. */
  function NormSet(s: Set): Set {
    var values := if Flag(s.communityNone) then [] else s.community;
    Set(
      values,
      if values == [] then None else NormFlag(s.communityAdditive),
      NormFlag(s.communityNone),
      s.extcommunityRt,
      if s.extcommunityRt == [] then None else NormFlag(s.extcommunityRtAdditive),
      s.localPreference,
      NormText(s.metric),
      s.asPathPrepend,
      NormText(s.ipNextHop),
      NormText(s.origin),
      s.tag)
  }

  function WrapMatch(m: Match): Option<Match> {
    if m == EMPTY_MATCH then None else Some(m)
  }

  function WrapSet(s: Set): Option<Set> {
    if s == EMPTY_SET then None else Some(s)
  }

  /** What reading back is expected to give. */
  function Normalised(e: Entry): Entry {
    Entry(e.seqNo, e.action, WrapMatch(NormMatch(MatchOf(e))), WrapSet(NormSet(SetOf(e))), e.continueAt)
  }

  // ---- part of an entry ------------------------------------------------------------------------

  function KeptMatch(m: Match, cs: seq<Clause>): Match {
    Match(
      if MatchIpPrefixList in cs then m.ipAddressPrefixList else [],
      if MatchCommunity in cs then m.community else [],
      if MatchExtcommunity in cs then m.extcommunity else [],
      if MatchAsPath in cs then m.asPath else [],
      if MatchInterface in cs then m.iface else None,
      if MatchTag in cs then m.tag else None,
      if MatchMetric in cs then m.metric else None,
      if MatchLocalPreference in cs then m.localPreference else None,
      if MatchSourceProtocol in cs then m.sourceProtocol else None)
  }

  function KeptSet(s: Set, cs: seq<Clause>): Set {
    Set(
      if SetCommunity in cs then s.community else [],
      if SetCommunity in cs then s.communityAdditive else None,
      if SetCommunity in cs then s.communityNone else None,
      if SetExtcommunityRt in cs then s.extcommunityRt else [],
      if SetExtcommunityRt in cs then s.extcommunityRtAdditive else None,
      if SetLocalPreference in cs then s.localPreference else None,
      if SetMetric in cs then s.metric else None,
      if SetAsPathPrepend in cs then s.asPathPrepend else [],
      if SetIpNextHop in cs then s.ipNextHop else None,
      if SetOrigin in cs then s.origin else None,
      if SetTag in cs then s.tag else None)
  }

  /** The entry as far as the given clauses go. */
  function Part(e: Entry, cs: seq<Clause>): Entry {
    Entry(e.seqNo, e.action,
          WrapMatch(KeptMatch(NormMatch(MatchOf(e)), cs)),
          WrapSet(KeptSet(NormSet(SetOf(e)), cs)),
          if ContinueAt in cs then e.continueAt else None)
  }

  lemma PartNone(e: Entry)
    ensures Part(e, []) == Entry(e.seqNo, e.action, None, None, None)
  {
  }

  lemma PartAll(e: Entry)
    ensures Part(e, ORDER) == Normalised(e)
  {
    forall c: Clause ensures c in ORDER {
      OrderIsComplete(c);
    }
  }

  // ---- dispatch on the head of a payload ----------------------------------------------------------

  function Payload(c: Clause): string {
    match c
    case MatchIpPrefixList => "ip address prefix-list "
    case MatchAsPath => "as-path "
    case MatchCommunity => "community "
    case MatchExtcommunity => "extcommunity "
    case MatchInterface => "interface "
    case MatchLocalPreference => "local-preference "
    case MatchMetric => "metric "
    case MatchSourceProtocol => "source-protocol "
    case MatchTag => "tag "
    case SetAsPathPrepend => "as-path prepend "
    case SetCommunity => "community "
    case SetExtcommunityRt => "extcommunity rt "
    case SetIpNextHop => "ip next-hop "
    case SetLocalPreference => "local-preference "
    case SetMetric => "metric "
    case SetOrigin => "origin "
    case SetTag => "tag "
    case ContinueAt => ""
  }

  /** What a payload means for the clause its head names. */
  function ReadMatch(m: Match, c: Clause, x: string): Match {
    match c
    case MatchIpPrefixList => m.(ipAddressPrefixList := Fields(x))
    case MatchAsPath => m.(asPath := Fields(x))
    case MatchCommunity => m.(community := Fields(x))
    case MatchExtcommunity => m.(extcommunity := Fields(x))
    case MatchInterface => m.(iface := Some(x))
    case MatchLocalPreference => m.(localPreference := NumberOr(x, m.localPreference))
    case MatchMetric => m.(metric := NumberOr(x, m.metric))
    case MatchSourceProtocol => m.(sourceProtocol := Some(x))
    case MatchTag => m.(tag := NumberOr(x, m.tag))
    case _ => m
  }

  function ReadSet(s: Set, c: Clause, x: string): Set {
    match c
    case SetAsPathPrepend => s.(asPathPrepend := Collect(Fields(x), PickInt))
    case SetCommunity => if x == "none" then s.(communityNone := Some(true)) else ApplyCommunityLine(s, x)
    case SetExtcommunityRt => ApplyRtLine(s, x)
    case SetIpNextHop => s.(ipNextHop := Some(x))
    case SetLocalPreference => s.(localPreference := NumberOr(x, s.localPreference))
    case SetMetric => s.(metric := Some(x))
    case SetOrigin => s.(origin := Some(x))
    case SetTag => s.(tag := NumberOr(x, s.tag))
    case _ => s
  }

  /** The heads of match payloads start with different letters, but for the two that
      start with `i`. */
  lemma MatchHeadsApart(p: string)
    requires p != ""
    ensures p[0] != 'i' ==> !HasPrefix(p, "ip address prefix-list ") && !HasPrefix(p, "interface ")
    ensures p[0] != 'a' ==> !HasPrefix(p, "as-path ")
    ensures p[0] != 'c' ==> !HasPrefix(p, "community ")
    ensures p[0] != 'e' ==> !HasPrefix(p, "extcommunity ")
    ensures p[0] != 't' ==> !HasPrefix(p, "tag ")
    ensures p[0] != 'm' ==> !HasPrefix(p, "metric ")
    ensures p[0] != 'l' ==> !HasPrefix(p, "local-preference ")
  {
    if p[0] != 'i' { NoPrefix(p, "ip address prefix-list ", 0); NoPrefix(p, "interface ", 0); }
    if p[0] != 'a' { NoPrefix(p, "as-path ", 0); }
    if p[0] != 'c' { NoPrefix(p, "community ", 0); }
    if p[0] != 'e' { NoPrefix(p, "extcommunity ", 0); }
    if p[0] != 't' { NoPrefix(p, "tag ", 0); }
    if p[0] != 'm' { NoPrefix(p, "metric ", 0); }
    if p[0] != 'l' { NoPrefix(p, "local-preference ", 0); }
  }

  lemma InterfaceIsNoPrefixList(x: string)
    ensures !HasPrefix("interface " + x, "ip address prefix-list ")
  {
    NoPrefix("interface " + x, "ip address prefix-list ", 1);
  }

  lemma MatchPayload(m: Match, c: Clause, x: string)
    requires IsMatchClause(c)
    ensures ApplyMatchLine(m, Payload(c) + x) == ReadMatch(m, c, x)
  {
    CutOwnPrefix(Payload(c), x);
    MatchHeadsApart(Payload(c) + x);
    InterfaceIsNoPrefixList(x);
  }

  /** So do those of set payloads. */
  lemma SetHeadsApart(p: string)
    requires p != ""
    ensures p[0] != 'a' ==> !HasPrefix(p, "as-path prepend ")
    ensures p[0] != 'c' ==> !HasPrefix(p, "community ") && p != "community none"
    ensures p[0] != 'e' ==> !HasPrefix(p, "extcommunity rt ")
    ensures p[0] != 'i' ==> !HasPrefix(p, "ip next-hop ")
    ensures p[0] != 'l' ==> !HasPrefix(p, "local-preference ")
    ensures p[0] != 'm' ==> !HasPrefix(p, "metric ")
    ensures p[0] != 'o' ==> !HasPrefix(p, "origin ")
  {
    if p[0] != 'a' { NoPrefix(p, "as-path prepend ", 0); }
    if p[0] != 'c' { NoPrefix(p, "community ", 0); assert p[0] != "community none"[0]; }
    if p[0] != 'e' { NoPrefix(p, "extcommunity rt ", 0); }
    if p[0] != 'i' { NoPrefix(p, "ip next-hop ", 0); }
    if p[0] != 'l' { NoPrefix(p, "local-preference ", 0); }
    if p[0] != 'm' { NoPrefix(p, "metric ", 0); }
    if p[0] != 'o' { NoPrefix(p, "origin ", 0); }
  }

  lemma CommunityNone(x: string)
    ensures "community " + x == "community none" <==> x == "none"
  {
    assert "community none" == "community " + "none";
    AppendSplit("community ", x);
    AppendSplit("community ", "none");
  }

  predicate IsSetClause(c: Clause) {
    !IsMatchClause(c) && c != ContinueAt
  }

  lemma SetPayload(s: Set, c: Clause, x: string)
    requires IsSetClause(c)
    ensures ApplySetLine(s, Payload(c) + x) == ReadSet(s, c, x)
  {
    CutOwnPrefix(Payload(c), x);
    SetHeadsApart(Payload(c) + x);
    CommunityNone(x);
  }

  lemma HeadOfPrefixList()
    ensures Head(MatchIpPrefixList) == "match " + Payload(MatchIpPrefixList)
  {
  }

  lemma HeadOfMatchList(c: Clause)
    requires c.MatchAsPath? || c.MatchCommunity? || c.MatchExtcommunity?
    ensures Head(c) == "match " + Payload(c)
  {
  }

  lemma HeadOfMatchNumber(c: Clause)
    requires c.MatchLocalPreference? || c.MatchMetric? || c.MatchTag?
    ensures Head(c) == "match " + Payload(c)
  {
  }

  lemma HeadOfMatchText(c: Clause)
    requires c.MatchInterface? || c.MatchSourceProtocol?
    ensures Head(c) == "match " + Payload(c)
  {
  }

  lemma HeadOfMatch(c: Clause)
    requires IsMatchClause(c)
    ensures Head(c) == "match " + Payload(c)
  {
    if c.MatchIpPrefixList? {
      HeadOfPrefixList();
    } else if c.MatchAsPath? || c.MatchCommunity? || c.MatchExtcommunity? {
      HeadOfMatchList(c);
    } else if c.MatchInterface? || c.MatchSourceProtocol? {
      HeadOfMatchText(c);
    } else {
      HeadOfMatchNumber(c);
    }
  }

  lemma HeadOfSetLong(c: Clause)
    requires c.SetAsPathPrepend? || c.SetCommunity? || c.SetExtcommunityRt? || c.SetIpNextHop?
    ensures Head(c) == "set " + Payload(c)
  {
  }

  lemma HeadOfSetScalar(c: Clause)
    requires c.SetLocalPreference? || c.SetMetric? || c.SetOrigin? || c.SetTag?
    ensures Head(c) == "set " + Payload(c)
  {
  }

  lemma HeadOfSet(c: Clause)
    requires IsSetClause(c)
    ensures Head(c) == "set " + Payload(c)
  {
    if c.SetAsPathPrepend? || c.SetCommunity? || c.SetExtcommunityRt? || c.SetIpNextHop? {
      HeadOfSetLong(c);
    } else {
      HeadOfSetScalar(c);
    }
  }

  /** A clause line changes what its clause says and nothing else. */
  lemma MatchLineRead(cur: Entry, c: Clause, x: string)
    requires IsMatchClause(c)
    ensures ApplyClauseLine(cur, Head(c) + x) == cur.(matches := Some(ReadMatch(MatchOf(cur), c, x)))
  {
    HeadOfMatch(c);
    Associate("match ", Payload(c), x);
    CutOwnPrefix("match ", Payload(c) + x);
    MatchPayload(MatchOf(cur), c, x);
  }

  lemma SetLineRead(cur: Entry, c: Clause, x: string)
    requires IsSetClause(c)
    ensures ApplyClauseLine(cur, Head(c) + x) == cur.(sets := Some(ReadSet(SetOf(cur), c, x)))
  {
    HeadOfSet(c);
    Associate("set ", Payload(c), x);
    CutOwnPrefix("set ", Payload(c) + x);
    NoPrefix("set " + (Payload(c) + x), "match ", 0);
    SetPayload(SetOf(cur), c, x);
  }

  lemma ContinueLineRead(cur: Entry, x: string)
    ensures ApplyClauseLine(cur, "continue " + x) == cur.(continueAt := NumberOr(x, cur.continueAt))
  {
    NoPrefix("continue " + x, "match ", 0);
    NoPrefix("continue " + x, "set ", 0);
    CutOwnPrefix("continue ", x);
  }

  lemma ExitLineRead(cur: Entry)
    ensures ApplyClauseLine(cur, "exit") == cur
  {
    NoPrefix("exit", "match ", 0);
    NoPrefix("exit", "set ", 0);
    NoPrefix("exit", "continue ", 0);
  }

  // ---- communities: exactly which values survive ------------------------------------------------

  /** The community values can be told from the keywords of the line. */
  predicate CommunityReadable(s: Set) {
    Flag(s.communityNone) || Flag(s.communityAdditive)
    || (s.community != ["none"] && !(|s.community| >= 2 && s.community[|s.community| - 1] == "additive"))
  }

  lemma NoneOnly(ts: seq<string>)
    requires ts != [] && AllTokens(ts)
    ensures Join(ts, " ") == "none" <==> ts == ["none"]
  {
    FieldsJoin(ts);
    FieldsToken("none");
  }

  /** A list of tokens ends in ` additive` exactly when it has at least two and the
      last is that word. */
  lemma AdditiveSuffix(ts: seq<string>)
    requires ts != [] && AllTokens(ts)
    ensures HasSuffix(Join(ts, " "), " additive") <==> |ts| >= 2 && ts[|ts| - 1] == "additive"
  {
    if |ts| == 1 {
      NoSuffixInToken(ts[0], " additive", 0);
    } else {
      var k := |ts| - 1;
      AdditiveToken();
      SuffixShape();
      Snoc(ts);
      JoinSnoc(ts[..k], ts[k]);
      TokenSuffix(ts[k], "additive", Join(ts[..k], " "));
    }
  }

  lemma SuffixShape()
    ensures " additive" == " " + "additive"
  {
  }

  /** The community fields after reading a line back. */
  predicate SameCommunity(a: Set, b: Set) {
    a.community == b.community && a.communityAdditive == b.communityAdditive && a.communityNone == b.communityNone
  }

  lemma CommunityWithAdditive(s: Set, values: seq<string>)
    requires values != [] && AllTokens(values)
    ensures ReadSet(s, SetCommunity, Join(values + ["additive"], " "))
         == s.(community := values, communityAdditive := Some(true))
  {
    AdditiveToken();
    SuffixShape();
    JoinSnoc(values, "additive");
    var front := Join(values, " ");
    Associate(front, " ", "additive");
    CutOwnSuffix(front, " additive");
    FieldsJoin(values);
    NoneOnly(values + ["additive"]);
    assert |values + ["additive"]| != |["none"]|;
  }

  lemma CommunityPlain(s: Set, values: seq<string>)
    requires values != [] && AllTokens(values)
    requires values != ["none"] && !(|values| >= 2 && values[|values| - 1] == "additive")
    ensures ReadSet(s, SetCommunity, Join(values, " ")) == s.(community := values)
  {
    AdditiveSuffix(values);
    FieldsJoin(values);
    NoneOnly(values);
  }

  lemma NoneMisread(s: Set)
    ensures Flag(ReadSet(s, SetCommunity, Join(["none"], " ")).communityNone)
  {
  }

  lemma AdditiveMisread(s: Set, values: seq<string>)
    requires AllTokens(values) && |values| >= 2 && values[|values| - 1] == "additive"
    ensures Flag(ReadSet(s, SetCommunity, Join(values, " ")).communityAdditive)
  {
    var body := Join(values, " ");
    AdditiveSuffix(values);
    NoneOnly(values);
    assert body != "none" by {
      assert |values| != |["none"]|;
    }
    SuffixIsAdditive(s, body);
  }

  lemma SuffixIsAdditive(s: Set, body: string)
    requires body != "none" && HasSuffix(body, " additive")
    ensures Flag(ReadSet(s, SetCommunity, body).communityAdditive)
  {
    assert ReadSet(s, SetCommunity, body) == ApplyCommunityLine(s, body);
  }

  /** Reading a community line back gives the normal form of what was declared
      exactly when the values can be told from the keywords. */
  lemma CommunityRoundTripExactly(s: Set)
    requires AllTokens(s.community) && !Flag(s.communityNone) && s.community != []
    ensures SameCommunity(ReadSet(EMPTY_SET, SetCommunity, Join(CommunityArgs(s), " ")), NormSet(s))
         <==> CommunityReadable(s)
  {
    AppendEmpty(s.community);
    if Flag(s.communityAdditive) {
      CommunityWithAdditive(EMPTY_SET, s.community);
    } else if CommunityReadable(s) {
      CommunityPlain(EMPTY_SET, s.community);
    } else if s.community == ["none"] {
      NoneMisread(EMPTY_SET);
    } else {
      AdditiveMisread(EMPTY_SET, s.community);
    }
  }

  /** A valid clause that sets the community `none`, as a value, is read as the keyword. */
  lemma NoneValueMisread(s: Set)
    requires s == EMPTY_SET.(community := ["none"])
    ensures ValidSet(s)
    ensures !SameCommunity(ReadSet(EMPTY_SET, SetCommunity, Join(CommunityArgs(s), " ")), NormSet(s))
  {
    assert IsToken("none");
    CommunityRoundTripExactly(s);
  }

  // ---- each clause, read back ------------------------------------------------------------------------

  const ClauseStep := (cur: Entry, line: string) => ApplyClauseLine(cur, line)

  function ApplyAll(cur: Entry, lines: seq<string>): Entry {
    Scanner.Scan(cur, lines, ClauseStep)
  }

  lemma ApplyOne(cur: Entry, line: string)
    ensures ApplyAll(cur, [line]) == ApplyClauseLine(cur, line)
  {
    Scanner.ScanOne(cur, line, ClauseStep);
  }

  lemma ApplyAppend(cur: Entry, a: seq<string>, b: seq<string>)
    ensures ApplyAll(cur, a + b) == ApplyAll(ApplyAll(cur, a), b)
  {
    Scanner.ScanAppend(cur, a, b, ClauseStep);
  }

  lemma {:induction false} IntsReadBack(ns: seq<Int>)
    ensures Collect(ItoaAll(ns), PickInt) == ns
  {
    forall i | 0 <= i < |ns| ensures PickInt(ItoaAll(ns)[i]) == [ns[i]] {
      AtoiItoa(ns[i]);
    }
    CollectOneEach(ItoaAll(ns), ns, PickInt);
  }

  lemma InSnoc(cs: seq<Clause>, c: Clause)
    ensures forall x :: x in cs + [c] <==> x in cs || x == c
  {
  }

  lemma ListGrows(m: Match, cs: seq<Clause>, c: Clause, x: string)
    requires c == MatchIpPrefixList || c == MatchAsPath || c == MatchCommunity || c == MatchExtcommunity
    requires c !in cs && Fields(x) == MatchArgs(m, c)
    ensures ReadMatch(KeptMatch(m, cs), c, x) == KeptMatch(m, cs + [c])
  {
    InSnoc(cs, c);
  }

  lemma MatchTextGrows(m: Match, cs: seq<Clause>, c: Clause)
    requires c == MatchInterface || c == MatchSourceProtocol
    requires c !in cs && MatchArgs(m, c) != []
    ensures ReadMatch(KeptMatch(m, cs), c, MatchArgs(m, c)[0]) == KeptMatch(m, cs + [c])
  {
    InSnoc(cs, c);
  }

  lemma MatchNumberGrows(m: Match, cs: seq<Clause>, c: Clause)
    requires c == MatchTag || c == MatchMetric || c == MatchLocalPreference
    requires c !in cs && MatchArgs(m, c) != []
    ensures ReadMatch(KeptMatch(m, cs), c, MatchArgs(m, c)[0]) == KeptMatch(m, cs + [c])
  {
    InSnoc(cs, c);
    AtoiItoa(if c == MatchTag then m.tag.value
             else if c == MatchMetric then m.metric.value
             else m.localPreference.value);
  }

  /** The part grows by one clause: nothing else changes. */
  lemma MatchGrows(m: Match, cs: seq<Clause>, c: Clause)
    requires IsMatchClause(c) && c !in cs
    requires AllTokens(MatchArgs(m, c)) && MatchArgs(m, c) != []
    ensures ReadMatch(KeptMatch(m, cs), c, Join(MatchArgs(m, c), " ")) == KeptMatch(m, cs + [c])
  {
    if c == MatchInterface || c == MatchSourceProtocol {
      MatchTextGrows(m, cs, c);
    } else if c == MatchTag || c == MatchMetric || c == MatchLocalPreference {
      MatchNumberGrows(m, cs, c);
    } else {
      FieldsJoin(MatchArgs(m, c));
      ListGrows(m, cs, c, Join(MatchArgs(m, c), " "));
    }
  }

  lemma MatchNotEmpty(m: Match, cs: seq<Clause>, c: Clause)
    requires IsMatchClause(c) && MatchArgs(m, c) != []
    ensures KeptMatch(m, cs + [c]) != EMPTY_MATCH
  {
    InSnoc(cs, c);
  }

  lemma MatchStays(m: Match, cs: seq<Clause>, c: Clause)
    requires NormMatch(m) == m
    requires MatchArgs(m, c) == []
    ensures KeptMatch(m, cs + [c]) == KeptMatch(m, cs)
  {
  }

  lemma TextGrows(s: Set, cs: seq<Clause>, c: Clause)
    requires (c == SetIpNextHop || c == SetMetric || c == SetOrigin) && c !in cs && SetArgs(s, c) != []
    ensures ReadSet(KeptSet(NormSet(s), cs), c, SetArgs(s, c)[0]) == KeptSet(NormSet(s), cs + [c])
    ensures KeptSet(NormSet(s), cs + [c]) != EMPTY_SET
  {
    InSnoc(cs, c);
  }

  lemma NumberGrows(s: Set, cs: seq<Clause>, c: Clause)
    requires (c == SetLocalPreference || c == SetTag) && c !in cs && SetArgs(s, c) != []
    ensures ReadSet(KeptSet(NormSet(s), cs), c, SetArgs(s, c)[0]) == KeptSet(NormSet(s), cs + [c])
    ensures KeptSet(NormSet(s), cs + [c]) != EMPTY_SET
  {
    InSnoc(cs, c);
    AtoiItoa(if c == SetTag then s.tag.value else s.localPreference.value);
  }

  lemma AsPathGrows(s: Set, cs: seq<Clause>, args: seq<string>)
    requires SetAsPathPrepend !in cs && args == ItoaAll(s.asPathPrepend) && args != [] && AllTokens(args)
    ensures ReadSet(KeptSet(NormSet(s), cs), SetAsPathPrepend, Join(args, " "))
         == KeptSet(NormSet(s), cs + [SetAsPathPrepend])
    ensures KeptSet(NormSet(s), cs + [SetAsPathPrepend]) != EMPTY_SET
  {
    InSnoc(cs, SetAsPathPrepend);
    FieldsJoin(args);
    IntsReadBack(s.asPathPrepend);
  }

  lemma ScalarGrows(s: Set, cs: seq<Clause>, c: Clause)
    requires IsSetClause(c) && c != SetCommunity && c != SetExtcommunityRt && c !in cs
    requires AllTokens(SetArgs(s, c)) && SetArgs(s, c) != []
    ensures ReadSet(KeptSet(NormSet(s), cs), c, Join(SetArgs(s, c), " ")) == KeptSet(NormSet(s), cs + [c])
    ensures KeptSet(NormSet(s), cs + [c]) != EMPTY_SET
  {
    if c == SetAsPathPrepend {
      AsPathGrows(s, cs, SetArgs(s, c));
    } else if c == SetLocalPreference || c == SetTag {
      NumberGrows(s, cs, c);
    } else {
      TextGrows(s, cs, c);
    }
  }

  /** A community line fills in the three community fields. */
  lemma CommunityRead(s: Set, before: Set)
    requires AllTokens(CommunityArgs(s)) && CommunityArgs(s) != [] && CommunityReadable(s)
    requires before.community == [] && before.communityAdditive == None && before.communityNone == None
    ensures ReadSet(before, SetCommunity, Join(CommunityArgs(s), " "))
         == before.(community := NormSet(s).community,
                    communityAdditive := NormSet(s).communityAdditive,
                    communityNone := NormSet(s).communityNone)
  {
    if !Flag(s.communityNone) {
      TokensBefore(s.community, CommunityArgs(s));
      AppendEmpty(s.community);
      if Flag(s.communityAdditive) {
        CommunityWithAdditive(before, s.community);
      } else {
        CommunityPlain(before, s.community);
      }
    }
  }

  lemma TokensBefore(part: seq<string>, all: seq<string>)
    requires AllTokens(all) && part <= all
    ensures AllTokens(part)
  {
    assert forall i :: 0 <= i < |part| ==> part[i] == all[i];
  }

  lemma KeptCommunity(s: Set, cs: seq<Clause>)
    requires SetCommunity !in cs
    ensures KeptSet(s, cs + [SetCommunity])
         == KeptSet(s, cs).(community := s.community, communityAdditive := s.communityAdditive,
           communityNone := s.communityNone)
  {
    InSnoc(cs, SetCommunity);
  }

  lemma CommunityGrows(s: Set, cs: seq<Clause>)
    requires SetCommunity !in cs
    requires AllTokens(CommunityArgs(s)) && CommunityArgs(s) != [] && CommunityReadable(s)
    ensures ReadSet(KeptSet(NormSet(s), cs), SetCommunity, Join(CommunityArgs(s), " "))
         == KeptSet(NormSet(s), cs + [SetCommunity])
    ensures KeptSet(NormSet(s), cs + [SetCommunity]) != EMPTY_SET
  {
    CommunityRead(s, KeptSet(NormSet(s), cs));
    KeptCommunity(NormSet(s), cs);
  }

  lemma SetStays(s: Set, cs: seq<Clause>, c: Clause)
    requires SetArgs(s, c) == []
    ensures KeptSet(NormSet(s), cs + [c]) == KeptSet(NormSet(s), cs)
  {
    if c == SetExtcommunityRt {
      RtStays(s, cs);
    } else if c == SetAsPathPrepend {
      AsPathStays(s, cs);
    } else {
      OtherStays(s, cs, c);
    }
  }

  lemma OtherStays(s: Set, cs: seq<Clause>, c: Clause)
    requires SetArgs(s, c) == [] && c != SetExtcommunityRt && c != SetAsPathPrepend
    ensures KeptSet(NormSet(s), cs + [c]) == KeptSet(NormSet(s), cs)
  {
    InSnoc(cs, c);
  }

  lemma RtStays(s: Set, cs: seq<Clause>)
    requires SetArgs(s, SetExtcommunityRt) == []
    ensures KeptSet(NormSet(s), cs + [SetExtcommunityRt]) == KeptSet(NormSet(s), cs)
  {
    RtArgsEmpty(s.extcommunityRt, RtWords(s));
    InSnoc(cs, SetExtcommunityRt);
  }

  lemma AsPathStays(s: Set, cs: seq<Clause>)
    requires SetArgs(s, SetAsPathPrepend) == []
    ensures KeptSet(NormSet(s), cs + [SetAsPathPrepend]) == KeptSet(NormSet(s), cs)
  {
    assert |ItoaAll(s.asPathPrepend)| == |s.asPathPrepend|;
    InSnoc(cs, SetAsPathPrepend);
  }

  lemma RtArgsEmpty(rts: seq<string>, suffix: seq<string>)
    ensures RtArgs(rts, suffix) == [] <==> rts == []
  {
  }

  // ---- extended communities ----------------------------------------------------------------------------

  function WithRt(s: Set, rts: seq<string>, additive: bool): Set {
    s.(extcommunityRt := s.extcommunityRt + rts,
       extcommunityRtAdditive := if additive then Some(true) else s.extcommunityRtAdditive)
  }

  lemma RtLineRead(cur: Entry, rt: string, additive: bool)
    requires IsToken(rt)
    ensures ApplyClauseLine(cur, RtLine(rt, additive)) == cur.(sets := Some(WithRt(SetOf(cur), [rt], additive)))
  {
    if additive {
      RtAdditiveShape(rt);
      SuffixShape();
      Associate(rt, " ", "additive");
      CutOwnSuffix(rt, " additive");
      SetLineRead(cur, SetExtcommunityRt, rt + " " + "additive");
    } else {
      NoSuffixInToken(rt, " additive", 0);
      SetLineRead(cur, SetExtcommunityRt, rt);
    }
  }

  lemma {:induction false} RtsRead(cur: Entry, rts: seq<string>, additive: bool)
    requires AllTokens(rts) && rts != []
    ensures ApplyAll(cur, RtLines(rts, additive)) == cur.(sets := Some(WithRt(SetOf(cur), rts, additive)))
  {
    var k := |rts| - 1;
    var lines := RtLines(rts, additive);
    assert lines[..k] == RtLines(rts[..k], additive);
    if k == 0 {
      assert ApplyAll(cur, lines[..0]) == cur;
      RtLineRead(cur, rts[0], additive);
      assert rts == [rts[0]];
    } else {
      RtsRead(cur, rts[..k], additive);
      RtLineRead(ApplyAll(cur, lines[..k]), rts[k], additive);
      Snoc(rts);
      Associate(SetOf(cur).extcommunityRt, rts[..k], [rts[k]]);
    }
  }

  lemma RtGrows(s: Set, cs: seq<Clause>)
    requires SetExtcommunityRt !in cs && s.extcommunityRt != []
    ensures WithRt(KeptSet(NormSet(s), cs), s.extcommunityRt, Flag(s.extcommunityRtAdditive))
         == KeptSet(NormSet(s), cs + [SetExtcommunityRt])
    ensures KeptSet(NormSet(s), cs + [SetExtcommunityRt]) != EMPTY_SET
  {
    InSnoc(cs, SetExtcommunityRt);
    AppendEmpty(s.extcommunityRt);
  }

  // ---- an entry, clause by clause ----------------------------------------------------------------------

  /** Community values, if given, can be told from the keywords. */
  predicate Readable(e: Entry) {
    e.sets.Some? ==> CommunityReadable(e.sets.value)
  }

  lemma NormMatchArgs(m: Match, c: Clause)
    ensures MatchArgs(NormMatch(m), c) == MatchArgs(m, c)
    ensures NormMatch(NormMatch(m)) == NormMatch(m)
  {
  }

  lemma EmptyArgs(c: Clause)
    ensures MatchArgs(EMPTY_MATCH, c) == [] && SetArgs(EMPTY_SET, c) == []
  {
  }

  lemma ArgsOfMatch(e: Entry, c: Clause)
    requires IsMatchClause(c)
    ensures ClauseArgs(e, c) == MatchArgs(NormMatch(MatchOf(e)), c)
  {
    MatchOnly(e, c);
    EmptyArgs(c);
    NormMatchArgs(MatchOf(e), c);
  }

  lemma ArgsOfSet(e: Entry, c: Clause)
    requires IsSetClause(c)
    ensures ClauseArgs(e, c) == SetArgs(SetOf(e), c)
  {
    SetOnly(e, c);
    EmptyArgs(c);
  }

  lemma OtherSetKept(s: Set, cs: seq<Clause>, c: Clause)
    requires !IsSetClause(c)
    ensures KeptSet(s, cs + [c]) == KeptSet(s, cs)
  {
    InSnoc(cs, c);
  }

  lemma OtherMatchKept(m: Match, cs: seq<Clause>, c: Clause)
    requires !IsMatchClause(c)
    ensures KeptMatch(m, cs + [c]) == KeptMatch(m, cs)
  {
    InSnoc(cs, c);
  }

  lemma PartGrowsMatch(e: Entry, cs: seq<Clause>, c: Clause)
    requires IsMatchClause(c)
    requires KeptMatch(NormMatch(MatchOf(e)), cs + [c]) != EMPTY_MATCH
    ensures Part(e, cs).(matches := Some(KeptMatch(NormMatch(MatchOf(e)), cs + [c]))) == Part(e, cs + [c])
  {
    InSnoc(cs, c);
    OtherSetKept(NormSet(SetOf(e)), cs, c);
  }

  lemma PartGrowsSet(e: Entry, cs: seq<Clause>, c: Clause)
    requires IsSetClause(c)
    requires KeptSet(NormSet(SetOf(e)), cs + [c]) != EMPTY_SET
    ensures Part(e, cs).(sets := Some(KeptSet(NormSet(SetOf(e)), cs + [c]))) == Part(e, cs + [c])
  {
    InSnoc(cs, c);
    OtherMatchKept(NormMatch(MatchOf(e)), cs, c);
  }

  lemma PartGrowsContinue(e: Entry, cs: seq<Clause>)
    ensures Part(e, cs).(continueAt := e.continueAt) == Part(e, cs + [ContinueAt])
  {
    InSnoc(cs, ContinueAt);
    OtherMatchKept(NormMatch(MatchOf(e)), cs, ContinueAt);
    OtherSetKept(NormSet(SetOf(e)), cs, ContinueAt);
  }

  lemma PartMatchOf(e: Entry, cs: seq<Clause>)
    ensures MatchOf(Part(e, cs)) == KeptMatch(NormMatch(MatchOf(e)), cs)
    ensures SetOf(Part(e, cs)) == KeptSet(NormSet(SetOf(e)), cs)
  {
  }

  lemma PartSame(e: Entry, cs: seq<Clause>, c: Clause)
    requires c != ContinueAt
    requires IsMatchClause(c) ==> KeptMatch(NormMatch(MatchOf(e)), cs + [c]) == KeptMatch(NormMatch(MatchOf(e)), cs)
    requires IsSetClause(c) ==> KeptSet(NormSet(SetOf(e)), cs + [c]) == KeptSet(NormSet(SetOf(e)), cs)
    ensures Part(e, cs + [c]) == Part(e, cs)
  {
    InSnoc(cs, c);
    if IsMatchClause(c) {
      OtherSetKept(NormSet(SetOf(e)), cs, c);
    } else {
      OtherMatchKept(NormMatch(MatchOf(e)), cs, c);
    }
  }

  lemma MatchClauseRead(e: Entry, cs: seq<Clause>, c: Clause)
    requires IsMatchClause(c) && c !in cs && AllTokens(ClauseArgs(e, c))
    ensures ApplyAll(Part(e, cs), ClauseLines(e, c)) == Part(e, cs + [c])
  {
    var m, args := NormMatch(MatchOf(e)), ClauseArgs(e, c);
    ArgsOfMatch(e, c);
    NormMatchArgs(MatchOf(e), c);
    if args == [] {
      MatchStays(m, cs, c);
      PartSame(e, cs, c);
    } else {
      MatchGrows(m, cs, c);
      MatchNotEmpty(m, cs, c);
      PartMatchOf(e, cs);
      PartGrowsMatch(e, cs, c);
      MatchLineRead(Part(e, cs), c, Join(args, " "));
      ApplyOne(Part(e, cs), Head(c) + Join(args, " "));
    }
  }

  lemma SetClauseRead(e: Entry, cs: seq<Clause>, c: Clause)
    requires IsSetClause(c) && c != SetExtcommunityRt && c !in cs && AllTokens(ClauseArgs(e, c))
    requires c == SetCommunity ==> CommunityReadable(SetOf(e))
    ensures ApplyAll(Part(e, cs), ClauseLines(e, c)) == Part(e, cs + [c])
  {
    var args := ClauseArgs(e, c);
    ArgsOfSet(e, c);
    if args == [] {
      SetStays(SetOf(e), cs, c);
      PartSame(e, cs, c);
    } else {
      if c == SetCommunity {
        CommunityGrows(SetOf(e), cs);
      } else {
        ScalarGrows(SetOf(e), cs, c);
      }
      PartMatchOf(e, cs);
      PartGrowsSet(e, cs, c);
      SetLineRead(Part(e, cs), c, Join(args, " "));
      ApplyOne(Part(e, cs), Head(c) + Join(args, " "));
    }
  }

  lemma RtClauseRead(e: Entry, cs: seq<Clause>)
    requires SetExtcommunityRt !in cs && AllTokens(ClauseArgs(e, SetExtcommunityRt))
    ensures ApplyAll(Part(e, cs), ClauseLines(e, SetExtcommunityRt)) == Part(e, cs + [SetExtcommunityRt])
  {
    var s := SetOf(e);
    ArgsOfSet(e, SetExtcommunityRt);
    RtArgsHaveRts(s.extcommunityRt, RtWords(s));
    RtArgsEmpty(s.extcommunityRt, RtWords(s));
    if s.extcommunityRt == [] {
      SetStays(s, cs, SetExtcommunityRt);
      PartSame(e, cs, SetExtcommunityRt);
    } else {
      RtsRead(Part(e, cs), s.extcommunityRt, Flag(s.extcommunityRtAdditive));
      RtGrows(s, cs);
      PartMatchOf(e, cs);
      PartGrowsSet(e, cs, SetExtcommunityRt);
    }
  }

  lemma ContinueRead(e: Entry, cs: seq<Clause>)
    requires ContinueAt !in cs
    ensures ApplyAll(Part(e, cs), ClauseLines(e, ContinueAt)) == Part(e, cs + [ContinueAt])
  {
    PartGrowsContinue(e, cs);
    ContinueLines(e);
    ContinueNumber(Part(e, cs), e.continueAt);
  }

  lemma ContinueLines(e: Entry)
    ensures ClauseLines(e, ContinueAt) == OneLine("continue ", NumberArg(e.continueAt))
  {
  }

  lemma ContinueNumber(cur: Entry, n: Option<Int>)
    requires cur.continueAt == None
    ensures ApplyAll(cur, OneLine("continue ", NumberArg(n))) == cur.(continueAt := n)
  {
    if n.Some? {
      AtoiItoa(n.value);
      ContinueLineRead(cur, Itoa(n.value));
      ApplyOne(cur, "continue " + Itoa(n.value));
    }
  }

  lemma ClauseRead(e: Entry, cs: seq<Clause>, c: Clause)
    requires WordsOnly(e) && Readable(e) && c !in cs
    ensures ApplyAll(Part(e, cs), ClauseLines(e, c)) == Part(e, cs + [c])
  {
    if c == ContinueAt {
      ContinueRead(e, cs);
    } else if IsMatchClause(c) {
      MatchClauseRead(e, cs, c);
    } else if c == SetExtcommunityRt {
      RtClauseRead(e, cs);
    } else {
      SetClauseRead(e, cs, c);
    }
  }

  lemma {:induction false} BodyRead(e: Entry, cs: seq<Clause>)
    requires WordsOnly(e) && Readable(e) && DistinctClauses(cs)
    ensures ApplyAll(Part(e, []), Collect(cs, LinesOf(e))) == Part(e, cs)
  {
    if cs != [] {
      var k := |cs| - 1;
      ClausesFront(cs);
      BodyRead(e, cs[..k]);
      ClauseRead(e, cs[..k], cs[k]);
      ApplyAppend(Part(e, []), Collect(cs[..k], LinesOf(e)), ClauseLines(e, cs[k]));
      Snoc(cs);
    }
  }

  // ---- the whole section -----------------------------------------------------------------------------------

  predicate NoHeaders(lines: seq<string>, name: string) {
    forall i :: 0 <= i < |lines| ==> CutPrefix(lines[i], "route-map " + name + " ") == None
  }

  /** Lines that are not headers of this map go to the entry under the cursor. */
  lemma {:induction false} ScanBody(done: seq<Entry>, cur: Entry, lines: seq<string>, name: string)
    requires NoHeaders(lines, name)
    ensures ScanLines(Scan(done, Some(cur)), lines, name) == Scan(done, Some(ApplyAll(cur, lines)))
  {
    if lines != [] {
      ScanBody(done, cur, lines[..|lines| - 1], name);
    }
  }

  lemma ScanAppend(s: Scan, a: seq<string>, b: seq<string>, name: string)
    ensures ScanLines(s, a + b, name) == ScanLines(ScanLines(s, a, name), b, name)
  {
    Scanner.ScanAppend(s, a, b, LineStep(name));
  }

  lemma ScanOne(s: Scan, line: string, name: string)
    ensures ScanLines(s, [line], name) == ScanLine(s, line, name)
  {
    Scanner.ScanOne(s, line, LineStep(name));
  }

  lemma HeadStart(c: Clause)
    ensures Head(c) != "" && Head(c)[0] != 'r'
  {
  }

  lemma ClauseNoHeader(e: Entry, c: Clause, name: string)
    ensures NoHeaders(ClauseLines(e, c), name)
  {
    var lines := ClauseLines(e, c);
    HeadStart(c);
    forall i | 0 <= i < |lines| ensures CutPrefix(lines[i], "route-map " + name + " ") == None {
      NoPrefix(lines[i], "route-map " + name + " ", 0);
    }
  }

  lemma {:induction false} BodyNoHeader(e: Entry, cs: seq<Clause>, name: string)
    ensures NoHeaders(Collect(cs, LinesOf(e)), name)
  {
    if cs != [] {
      BodyNoHeader(e, cs[..|cs| - 1], name);
      ClauseNoHeader(e, cs[|cs| - 1], name);
    }
  }

  lemma HeaderRead(name: string, e: Entry)
    requires ValidEntry(e)
    ensures var rest := e.action + " " + Itoa(e.seqNo);
            && CutPrefix(HeaderLine(name, e), "route-map " + name + " ") == Some(rest)
            && HeaderOf(rest) == Some(Part(e, []))
  {
    var rest := e.action + " " + Itoa(e.seqNo);
    assert HeaderLine(name, e) == "route-map " + name + " " + rest;
    CutOwnPrefix("route-map " + name + " ", rest);
    ItoaToken(e.seqNo);
    AtoiItoa(e.seqNo);
    Words2(e.action, Itoa(e.seqNo));
    PartNone(e);
  }

  lemma EntryScanned(s: Scan, name: string, e: Entry)
    requires ValidEntry(e) && WordsOnly(e) && Readable(e)
    ensures ScanLines(s, EntryLines(name, e), name) == Scan(Finish(s), Some(Normalised(e)))
  {
    var header, body := [HeaderLine(name, e)], BodyLines(e);
    var begun := Scan(Finish(s), Some(Part(e, [])));
    HeaderRead(name, e);
    ScanOne(s, HeaderLine(name, e), name);
    BodyByClause(e);
    OrderDistinct();
    BodyNoHeader(e, ORDER, name);
    ScanBody(Finish(s), Part(e, []), body, name);
    BodyRead(e, ORDER);
    PartAll(e);
    ExitScanned(Finish(s), Normalised(e), name);
    ScanAppend(s, header, body, name);
    ScanAppend(s, header + body, ["exit"], name);
  }

  lemma ExitScanned(done: seq<Entry>, cur: Entry, name: string)
    ensures ScanLines(Scan(done, Some(cur)), ["exit"], name) == Scan(done, Some(cur))
  {
    NoPrefix("exit", "route-map " + name + " ", 0);
    ExitLineRead(cur);
    ScanOne(Scan(done, Some(cur)), "exit", name);
  }

  function NormalisedAll(es: seq<Entry>): (r: seq<Entry>)
    ensures |r| == |es|
    ensures forall i :: 0 <= i < |es| ==> r[i] == Normalised(es[i])
  {
    seq(|es|, i requires 0 <= i < |es| => Normalised(es[i]))
  }

  predicate AllReadable(es: seq<Entry>) {
    forall i :: 0 <= i < |es| ==> Readable(es[i])
  }

  lemma NormalisedSnoc(es: seq<Entry>)
    requires es != []
    ensures NormalisedAll(es) == NormalisedAll(es[..|es| - 1]) + [Normalised(es[|es| - 1])]
  {
  }

  lemma {:induction false} EntriesScanned(name: string, es: seq<Entry>)
    requires ValidEntries(es) && AllWordsOnly(es) && AllReadable(es)
    ensures Finish(ScanLines(NOTHING, AllEntryLines(name, es), name)) == NormalisedAll(es)
    ensures es != [] ==> ScanLines(NOTHING, AllEntryLines(name, es), name).cur == Some(Normalised(es[|es| - 1]))
  {
    if es != [] {
      var k := |es| - 1;
      NormalisedSnoc(es);
      EntriesScanned(name, es[..k]);
      var before := ScanLines(NOTHING, AllEntryLines(name, es[..k]), name);
      EntryScanned(before, name, es[k]);
      ScanAppend(NOTHING, AllEntryLines(name, es[..k]), EntryLines(name, es[k]), name);
    }
  }

  /** Text without a header of this map leaves the scanner at rest. */
  lemma BeforeScanned(lines: seq<string>, name: string)
    requires NoHeaders(lines, name)
    ensures ScanLines(NOTHING, lines, name) == NOTHING
  {
    Scanner.ScanIdle(NOTHING, lines, LineStep(name));
  }

  /** The lines of a map's blocks. */
  function Blocks(args: Args): seq<string> {
    AllEntryLines(args.name, Ascending(args.entries, SeqOf))
  }

  lemma BlocksScanned(before: seq<string>, args: Args)
    requires ValidArgs(args) && AllWordsOnly(args.entries) && AllReadable(args.entries)
    requires NoHeaders(before, args.name)
    ensures var es := Ascending(args.entries, SeqOf);
            && es != []
            && Finish(ScanLines(NOTHING, before + Blocks(args), args.name)) == NormalisedAll(es)
            && ScanLines(NOTHING, before + Blocks(args), args.name).cur == Some(Normalised(es[|es| - 1]))
  {
    var es := Ascending(args.entries, SeqOf);
    AscendingUsable(args);
    forall i | 0 <= i < |es| ensures Readable(es[i]) {
      SameElements(es, args.entries, i);
    }
    EntriesScanned(args.name, es);
    BeforeScanned(before, args.name);
    ScanAppend(NOTHING, before, Blocks(args), args.name);
  }

  lemma NegateNoHeader(name: string)
    ensures NoHeaders([NegateCmd(name)], name)
  {
    NoPrefix(NegateCmd(name), "route-map " + name + " ", 0);
  }

  lemma NormalisedKeys(es: seq<Entry>)
    requires SortedBy(es, SeqOf) && DistinctKeys(es, SeqOf)
    ensures SortedBy(NormalisedAll(es), SeqOf) && DistinctKeys(NormalisedAll(es), SeqOf)
  {
    var r := NormalisedAll(es);
    forall i, j | 0 <= i < j < |r|
      ensures SeqOf(r[i]) <= SeqOf(r[j]) && SeqOf(r[i]) != SeqOf(r[j])
    {
      assert SeqOf(es[i]) <= SeqOf(es[j]) && SeqOf(es[i]) != SeqOf(es[j]);
    }
  }

  /** The round trip: from any text whose trimmed lines are the rendered ones, the
      parser returns the entries in ascending order, normalised. */
  lemma ReadsBack(args: Args, text: string, entries: seq<Entry>)
    requires ValidArgs(args) && AllWordsOnly(args.entries) && AllReadable(args.entries)
    requires TrimmedLines(text) == Rendered(args, false)
    requires IsReading(TrimmedLines(text), args.name, entries)
    ensures entries == NormalisedAll(Ascending(args.entries, SeqOf))
  {
    NegateNoHeader(args.name);
    BlocksScanned([NegateCmd(args.name)], args);
    ScannedInOrder(args, Finish(ScanLines(NOTHING, Rendered(args, false), args.name)), entries);
  }

  /** Sorting what was scanned in order changes nothing. */
  lemma ScannedInOrder(args: Args, scanned: seq<Entry>, entries: seq<Entry>)
    requires ValidArgs(args) && AllWordsOnly(args.entries)
    requires scanned == NormalisedAll(Ascending(args.entries, SeqOf))
    requires multiset(entries) == multiset(scanned) && SortedBy(entries, SeqOf)
    ensures entries == scanned
  {
    AscendingUsable(args);
    NormalisedKeys(Ascending(args.entries, SeqOf));
    SortSliceDetermined(scanned, entries, SeqOf);
    SortSliceDetermined(scanned, scanned, SeqOf);
  }

  /** What follows our blocks in the same text, other maps' blocks included, is
      read as part of our last entry. */
  lemma ForeignLinesReadAsOurs(before: seq<string>, args: Args, foreign: seq<string>)
    requires ValidArgs(args) && AllWordsOnly(args.entries) && AllReadable(args.entries)
    requires NoHeaders(before, args.name) && NoHeaders(foreign, args.name)
    ensures var es := NormalisedAll(Ascending(args.entries, SeqOf));
            var read := Finish(ScanLines(NOTHING, before + Blocks(args) + foreign, args.name));
            es != [] && read == es[..|es| - 1] + [ApplyAll(es[|es| - 1], foreign)]
  {
    var es := NormalisedAll(Ascending(args.entries, SeqOf));
    var k := |es| - 1;
    BlocksScanned(before, args);
    var scan := ScanLines(NOTHING, before + Blocks(args), args.name);
    ScanAppend(NOTHING, before + Blocks(args), foreign, args.name);
    ScanBody(scan.done, es[k], foreign, args.name);
    assert Finish(scan) == scan.done + [es[k]];
    SnocParts(scan.done, es[k]);
    Snoc(es);
    SnocParts(es[..k], ApplyAll(es[k], foreign));
  }
}
