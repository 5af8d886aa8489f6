/** IPv4 static routes: the one staged line, its identity, and finding the route
    again in `show running-config | grep ip`. */
module StaticRoute {
  import opened Seqs
  import opened Text
  import opened Rendering
  import Netip

  datatype Args = Args(
    prefix: string,
    nextHop: string,
    vrf: Option<string>,
    distance: Option<Int>,
    tag: Option<Int>,
    name: Option<string>,
    metric: Option<Int>,
    track: Option<string>)

  // ---- validation --------------------------------------------------------------------

  datatype Invalid = BadPrefix | BadNextHop | BadDistance | BadTag | BadMetric | EmptyText | SpacesInText

  predicate IsDigits(s: string) {
    s != "" && AllDigits(s)
  }

  predicate AllDigitGroups(parts: seq<string>) {
    forall i :: 0 <= i < |parts| ==> IsDigits(parts[i])
  }

  /** `\d+(\.\d+)?` */
  predicate IsSubNumber(s: string) {
    var parts := Split(s, '.');
    |parts| <= 2 && AllDigitGroups(parts)
  }

  /** `\d+(\/\d+)*(\.\d+)?`: the slash groups, of which the last may have a
      sub-interface number. */
  predicate IsSlashedNumber(s: string) {
    var parts := Split(s, '/');
    AllDigitGroups(parts[..|parts| - 1]) && IsSubNumber(parts[|parts| - 1])
  }

  predicate Follows(s: string, kind: string, rest: string -> bool) {
    HasPrefix(s, kind) && rest(s[|kind|..])
  }

  predicate IsInterface(s: string) {
    || s == "Null0"
    || Follows(s, "Ethernet", r => IsSlashedNumber(r))
    || Follows(s, "Loopback", r => IsDigits(r))
    || Follows(s, "Management", r => IsDigits(r))
    || Follows(s, "Port-Channel", r => IsSubNumber(r))
    || Follows(s, "Vlan", r => IsDigits(r))
    || Follows(s, "Vxlan", r => IsDigits(r))
  }

  predicate IsNextHop(s: string) {
    Netip.IsIPv4(s) || IsInterface(s)
  }

  predicate ValidText(t: Option<string>) {
    t.Some? ==> t.value != "" && ' ' !in t.value && '\t' !in t.value
  }

  predicate ValidArgs(args: Args) {
    && Netip.PrefixBits(args.prefix).Some?
    && IsNextHop(args.nextHop)
    && (args.distance.Some? ==> 1 <= args.distance.value <= 255)
    && (args.tag.Some? ==> 0 <= args.tag.value <= 4294967295)
    && (args.metric.Some? ==> args.metric.value > 0)
    && ValidText(args.name) && ValidText(args.track)
  }

  function ValidateText(t: Option<string>): (err: Option<Invalid>)
    ensures err == None <==> ValidText(t)
  {
    if t.None? then None
    else if t.value == "" then Some(EmptyText)
    else if ' ' in t.value || '\t' in t.value then Some(SpacesInText)
    else None
  }

  function ValidateStaticRoute(args: Args): (err: Option<Invalid>)
    ensures err == None <==> ValidArgs(args)
  {
    if Netip.PrefixBits(args.prefix) == None then Some(BadPrefix)
    else if !IsNextHop(args.nextHop) then Some(BadNextHop)
    else if args.distance.Some? && (args.distance.value < 1 || args.distance.value > 255) then Some(BadDistance)
    else if args.tag.Some? && (args.tag.value < 0 || args.tag.value > 4294967295) then Some(BadTag)
    else if args.metric.Some? && args.metric.value <= 0 then Some(BadMetric)
    else
      match ValidateText(args.name)
      case Some(e) => Some(e)
      case None => ValidateText(args.track)
  }

  // ---- the staged line -----------------------------------------------------------------

  function VrfWords(args: Args): seq<string> {
    if Deref(args.vrf) != "" then ["vrf", args.vrf.value] else []
  }

  function DistanceWords(args: Args): seq<string> {
    if args.distance.Some? && args.distance.value != 1 then [Itoa(args.distance.value)] else []
  }

  function TagWords(args: Args): seq<string> {
    if args.tag.Some? && args.tag.value != 0 then ["tag", Itoa(args.tag.value)] else []
  }

  function NameWords(args: Args): seq<string> {
    if Deref(args.name) != "" then ["name", args.name.value] else []
  }

  function MetricWords(args: Args): seq<string> {
    if args.metric.Some? && args.metric.value > 0 then ["metric", Itoa(args.metric.value)] else []
  }

  function TrackWords(args: Args): seq<string> {
    if Deref(args.track) != "" then ["track", args.track.value] else []
  }

  function RouteWords(args: Args): seq<string> {
    ["ip", "route"] + VrfWords(args) + [args.prefix, args.nextHop] + DistanceWords(args)
  }

  function OptionWords(args: Args): seq<string> {
    TagWords(args) + NameWords(args) + MetricWords(args) + TrackWords(args)
  }

  function RouteCmd(args: Args): string {
    Join(RouteWords(args) + OptionWords(args), " ")
  }

  function Staged(args: Args, remove: bool): seq<string> {
    if remove then ["no " + Join(RouteWords(args), " ")] else [RouteCmd(args)]
  }

  method BuildStaticRouteCmds(args: Args, remove: bool) returns (cmds: seq<string>)
    ensures cmds == Staged(args, remove)
  {
    var parts := ["ip", "route"];
    if args.vrf.Some? && args.vrf.value != "" {
      parts := parts + ["vrf", args.vrf.value];
    }
    parts := parts + [args.prefix, args.nextHop];
    if args.distance.Some? && args.distance.value != 1 {
      parts := parts + [Itoa(args.distance.value)];
    }
    assert parts == RouteWords(args);
    if remove {
      return ["no " + Join(parts, " ")];
    }
    parts := AppendOptions(parts, args);
    return [Join(parts, " ")];
  }

  method AppendOptions(words: seq<string>, args: Args) returns (parts: seq<string>)
    ensures parts == words + OptionWords(args)
  {
    parts := words;
    if args.tag.Some? && args.tag.value != 0 {
      parts := parts + ["tag", Itoa(args.tag.value)];
    }
    assert parts == words + TagWords(args);
    if args.name.Some? && args.name.value != "" {
      parts := parts + ["name", args.name.value];
    }
    assert parts == words + TagWords(args) + NameWords(args);
    if args.metric.Some? && args.metric.value > 0 {
      parts := parts + ["metric", Itoa(args.metric.value)];
    }
    assert parts == words + TagWords(args) + NameWords(args) + MetricWords(args);
    if args.track.Some? && args.track.value != "" {
      parts := parts + ["track", args.track.value];
    }
    assert parts == words + TagWords(args) + NameWords(args) + MetricWords(args) + TrackWords(args);
    FourParts(words, TagWords(args), NameWords(args), MetricWords(args), TrackWords(args));
  }

  // ---- identity --------------------------------------------------------------------------

  function VrfOf(args: Args): string {
    if Deref(args.vrf) != "" then args.vrf.value else "default"
  }

  function DistanceOf(args: Args): Int {
    if args.distance.Some? then args.distance.value else 1
  }

  function StaticRouteID(args: Args): string {
    "route/" + VrfOf(args) + "/" + args.prefix + "/" + args.nextHop + "/" + Itoa(DistanceOf(args))
  }

  function Address(args: Args): string {
    args.prefix[..IndexOf(args.prefix, '/')]
  }

  function Bits(args: Args): string {
    var i := IndexOf(args.prefix, '/');
    if i < |args.prefix| then args.prefix[i + 1..] else ""
  }

  lemma SplitCons(part: string, rest: string)
    requires '/' !in part
    ensures Split(part + "/" + rest, '/') == [part] + Split(rest, '/')
  {
    SplitAt(part, '/', rest);
  }

  /** The identifier, cut at its slashes. */
  lemma IDParts(args: Args)
    requires Netip.PrefixBits(args.prefix).Some?
    ensures Split(StaticRouteID(args), '/')
         == ["route"] + Split(VrfOf(args), '/') + [Address(args), Bits(args)]
            + Split(args.nextHop, '/') + [Itoa(DistanceOf(args))]
  {
    var d := Itoa(DistanceOf(args));
    ItoaToken(DistanceOf(args));
    PrefixCut(args);
    FiveSlashed("route", VrfOf(args), Address(args), Bits(args), args.nextHop, d);
    assert "route/" == "route" + "/";
    Shape("route", VrfOf(args), Address(args), Bits(args), args.nextHop, d);
  }

  lemma PrefixCut(args: Args)
    requires Netip.PrefixBits(args.prefix).Some?
    ensures args.prefix == Address(args) + "/" + Bits(args)
    ensures '/' !in Address(args) && '/' !in Bits(args)
  {
    Netip.PrefixToken(args.prefix);
    Around(args.prefix, IndexOf(args.prefix, '/'));
  }

  lemma Shape(r: string, v: string, a: string, b: string, n: string, d: string)
    ensures r + "/" + (v + "/" + (a + "/" + (b + "/" + (n + "/" + d))))
         == r + "/" + v + "/" + (a + "/" + b) + "/" + n + "/" + d
  {
  }

  lemma FiveSlashed(r: string, v: string, a: string, b: string, n: string, d: string)
    requires '/' !in r && '/' !in a && '/' !in b && '/' !in d
    ensures Split(r + "/" + (v + "/" + (a + "/" + (b + "/" + (n + "/" + d)))), '/')
         == [r] + Split(v, '/') + [a, b] + Split(n, '/') + [d]
  {
    SplitNone(d, '/');
    SplitAppend(n, '/', d);
    SplitCons(b, n + "/" + d);
    SplitCons(a, b + "/" + (n + "/" + d));
    SplitAppend(v, '/', a + "/" + (b + "/" + (n + "/" + d)));
    SplitCons(r, v + "/" + (a + "/" + (b + "/" + (n + "/" + d))));
    PartsShape(r, Split(v, '/'), a, b, Split(n, '/'), d);
  }

  lemma PartsShape<T>(r: T, v: seq<T>, a: T, b: T, n: seq<T>, d: T)
    ensures [r] + (v + ([a] + ([b] + (n + [d])))) == [r] + v + [a, b] + n + [d]
  {
  }

  // ---- next hops --------------------------------------------------------------------------

  predicate IsNumberChar(c: char) {
    IsDigit(c) || c == '.' || c == '/'
  }

  predicate NumberChars(s: string) {
    forall i :: 0 <= i < |s| ==> IsNumberChar(s[i])
  }

  lemma {:induction false} JoinedNumberChars(parts: seq<string>, sep: string)
    requires NumberChars(sep)
    requires forall i :: 0 <= i < |parts| ==> NumberChars(parts[i])
    ensures NumberChars(Join(parts, sep))
  {
    if |parts| > 1 {
      JoinedNumberChars(parts[1..], sep);
      assert NumberChars(parts[0]);
    }
  }

  lemma SubNumberChars(s: string)
    requires IsSubNumber(s)
    ensures NumberChars(s) && '/' !in s && s != "" && IsDigit(s[0]) && !Netip.IsIPv4(s)
  {
    var parts := Split(s, '.');
    assert IsDigits(parts[0]);
    JoinSplit(s, '.');
    if |parts| == 2 {
      assert IsDigits(parts[1]);
      assert s == parts[0] + "." + parts[1];
    }
  }

  lemma SlashedNumberChars(s: string)
    requires IsSlashedNumber(s)
    ensures NumberChars(s)
  {
    var parts := Split(s, '/');
    forall i | 0 <= i < |parts| ensures NumberChars(parts[i]) {
      SlashedPart(s, i);
    }
    JoinedNumberChars(parts, "/");
    JoinSplit(s, '/');
  }

  /** Every slash group of an interface number starts with a digit and is no address. */
  lemma SlashedPart(s: string, i: nat)
    requires IsSlashedNumber(s) && i < |Split(s, '/')|
    ensures var p := Split(s, '/')[i]; NumberChars(p) && p != "" && IsDigit(p[0]) && !Netip.IsIPv4(p)
  {
    var parts := Split(s, '/');
    if i == |parts| - 1 {
      SubNumberChars(parts[i]);
    } else {
      assert parts[..|parts| - 1][i] == parts[i];
      assert IsDigits(parts[i]);
      DigitsAreSub(parts[i]);
      SubNumberChars(parts[i]);
    }
  }

  lemma DigitsAreSub(s: string)
    requires IsDigits(s)
    ensures IsSubNumber(s)
  {
    assert '.' !in s;
    SplitNone(s, '.');
  }

  lemma SubIsSlashed(s: string)
    requires IsSubNumber(s)
    ensures IsSlashedNumber(s)
  {
    SubNumberChars(s);
    SplitNone(s, '/');
  }

  predicate IsKind(kind: string) {
    IsToken(kind) && '/' !in kind && 'A' <= kind[0] <= 'Z'
  }

  lemma EthernetKind()
    ensures IsKind("Ethernet")
  {
  }

  lemma LoopbackKind()
    ensures IsKind("Loopback")
  {
  }

  lemma ManagementKind()
    ensures IsKind("Management")
  {
  }

  lemma PortChannelKind()
    ensures IsKind("Port-Channel")
  {
  }

  lemma ShortKinds()
    ensures IsKind("Vlan") && IsKind("Vxlan") && IsKind("Null")
  {
  }

  predicate IsShape(s: string, kind: string, number: string) {
    s == kind + number && IsSlashedNumber(number) && IsKind(kind)
  }

  lemma DigitsShape(s: string, kind: string)
    requires Follows(s, kind, r => IsDigits(r)) && IsKind(kind)
    ensures IsShape(s, kind, s[|kind|..])
  {
    DigitsAreSub(s[|kind|..]);
    SubIsSlashed(s[|kind|..]);
  }

  lemma SubShape(s: string, kind: string)
    requires Follows(s, kind, r => IsSubNumber(r)) && IsKind(kind)
    ensures IsShape(s, kind, s[|kind|..])
  {
    SubIsSlashed(s[|kind|..]);
  }

  lemma SlashedShape(s: string, kind: string)
    requires Follows(s, kind, r => IsSlashedNumber(r)) && IsKind(kind)
    ensures IsShape(s, kind, s[|kind|..])
  {
  }

  lemma NullShape(s: string, kind: string, number: string)
    requires s == kind + number && number == "0" && IsKind(kind)
    ensures IsShape(s, kind, number)
  {
    DigitsAreSub(number);
    SubIsSlashed(number);
  }

  /** An interface is a capitalised kind and a number. */
  lemma InterfaceShape(s: string) returns (kind: string, number: string)
    requires IsInterface(s)
    ensures IsShape(s, kind, number)
  {
    EthernetKind();
    LoopbackKind();
    ManagementKind();
    PortChannelKind();
    ShortKinds();
    if s == "Null0" {
      kind, number := "Null", "0";
      NullShape(s, "Null", "0");
      return;
    } else if Follows(s, "Ethernet", r => IsSlashedNumber(r)) {
      kind := "Ethernet";
      SlashedShape(s, kind);
    } else if Follows(s, "Port-Channel", r => IsSubNumber(r)) {
      kind := "Port-Channel";
      SubShape(s, kind);
    } else {
      kind := if Follows(s, "Loopback", r => IsDigits(r)) then "Loopback"
              else if Follows(s, "Management", r => IsDigits(r)) then "Management"
              else if Follows(s, "Vlan", r => IsDigits(r)) then "Vlan" else "Vxlan";
      DigitsShape(s, kind);
    }
    number := s[|kind|..];
  }

  lemma NextHopToken(s: string)
    requires IsNextHop(s)
    ensures IsToken(s)
  {
    if Netip.IsIPv4(s) {
      Netip.IPv4Token(s);
    } else {
      var kind, number := InterfaceShape(s);
      SlashedNumberChars(number);
    }
  }

  /** The slash groups that can open a next hop. */
  predicate Opens(part: string) {
    Netip.IsIPv4(part) || (part != "" && 'A' <= part[0] <= 'Z')
  }

  lemma SplitHead(head: string, s: string)
    requires '/' !in head
    ensures Split(head + s, '/') == [head + Split(s, '/')[0]] + Split(s, '/')[1..]
  {
    var i := IndexOf(s, '/');
    if i == |s| {
      SplitNone(head + s, '/');
    } else {
      Around(s, i);
      assert head + s == (head + s[..i]) + "/" + s[i + 1..];
      SplitCons(head + s[..i], s[i + 1..]);
    }
  }

  predicate OnlyFirstOpens(parts: seq<string>) {
    parts != [] && Opens(parts[0]) && forall i :: 1 <= i < |parts| ==> !Opens(parts[i])
  }

  lemma InterfaceParts(kind: string, number: string)
    requires IsKind(kind) && IsSlashedNumber(number)
    ensures OnlyFirstOpens(Split(kind + number, '/'))
  {
    var parts, tail := Split(kind + number, '/'), Split(number, '/');
    SplitHead(kind, number);
    forall i | 1 <= i < |parts| ensures !Opens(parts[i]) {
      SlashedPart(number, i);
      assert parts[i] == tail[i];
    }
    assert parts[0][0] == kind[0];
  }

  lemma AddressParts(s: string)
    requires Netip.IsIPv4(s)
    ensures OnlyFirstOpens(Split(s, '/'))
  {
    Netip.IPv4Token(s);
    SplitNone(s, '/');
  }

  /** The first slash group opens the next hop, the others do not. */
  lemma NextHopParts(s: string)
    requires IsNextHop(s)
    ensures OnlyFirstOpens(Split(s, '/'))
  {
    if Netip.IsIPv4(s) {
      AddressParts(s);
    } else {
      var kind, number := InterfaceShape(s);
      InterfaceParts(kind, number);
    }
  }

  // ---- the identifier determines the route ------------------------------------------------------

  /** The identifier read from the right: where its next hop stands. */
  predicate HopAt(args: Args, parts: seq<string>, k: nat) {
    && 3 <= k && k + 1 < |parts|
    && parts[k..|parts| - 1] == Split(args.nextHop, '/')
    && parts[1..k - 2] == Split(VrfOf(args), '/')
    && parts[k - 2] == Address(args) && parts[k - 1] == Bits(args)
    && parts[|parts| - 1] == Itoa(DistanceOf(args))
    && LastOpens(parts, k)
  }

  predicate LastOpens(parts: seq<string>, k: nat) {
    k < |parts| && Opens(parts[k]) && forall i :: k < i < |parts| ==> !Opens(parts[i])
  }

  lemma HopPlace(args: Args) returns (k: nat)
    requires ValidArgs(args)
    ensures HopAt(args, Split(StaticRouteID(args), '/'), k)
  {
    k := |Split(VrfOf(args), '/')| + 3;
    IDParts(args);
    NextHopParts(args.nextHop);
    NumberDoesNotOpen(DistanceOf(args));
    HopFrom(args, Split(StaticRouteID(args), '/'), "route");
  }

  lemma NumberDoesNotOpen(n: Int)
    requires n >= 0
    ensures !Opens(Itoa(n))
  {
    ItoaToken(n);
    DigitsAreSub(Itoa(n));
    SubNumberChars(Itoa(n));
  }

  lemma HopFrom(args: Args, parts: seq<string>, r: string)
    requires OnlyFirstOpens(Split(args.nextHop, '/')) && !Opens(Itoa(DistanceOf(args)))
    requires parts == [r] + Split(VrfOf(args), '/') + [Address(args), Bits(args)]
                      + Split(args.nextHop, '/') + [Itoa(DistanceOf(args))]
    ensures HopAt(args, parts, |Split(VrfOf(args), '/')| + 3)
  {
    var v, n, d := Split(VrfOf(args), '/'), Split(args.nextHop, '/'), Itoa(DistanceOf(args));
    Slices(r, v, Address(args), Bits(args), n, d);
    OpensAt(parts, n, |v| + 3);
  }

  lemma OpensAt(all: seq<string>, n: seq<string>, k: nat)
    requires OnlyFirstOpens(n) && k + |n| + 1 == |all|
    requires forall i :: k <= i < |all| - 1 ==> all[i] == n[i - k]
    requires !Opens(all[|all| - 1])
    ensures LastOpens(all, k)
  {
  }

  lemma Slices<T>(r: T, v: seq<T>, a: T, b: T, n: seq<T>, d: T)
    ensures var all := [r] + v + [a, b] + n + [d];
            var k := |v| + 3;
            && |all| == k + |n| + 1
            && all[1..k - 2] == v && all[k - 2] == a && all[k - 1] == b && all[k..|all| - 1] == n && all[|all| - 1] == d
            && (forall i :: k <= i < |all| - 1 ==> all[i] == n[i - k])
  {
  }

  predicate SameIdentity(a: Args, b: Args) {
    VrfOf(a) == VrfOf(b) && a.prefix == b.prefix && a.nextHop == b.nextHop && DistanceOf(a) == DistanceOf(b)
  }

  /** The last part that opens a next hop is where the next hop starts. */
  lemma PartsAgree(a: Args, b: Args, parts: seq<string>, k: nat, l: nat)
    requires HopAt(a, parts, k) && HopAt(b, parts, l)
    ensures Split(a.nextHop, '/') == Split(b.nextHop, '/') && Split(VrfOf(a), '/') == Split(VrfOf(b), '/')
    ensures Address(a) == Address(b) && Bits(a) == Bits(b) && Itoa(DistanceOf(a)) == Itoa(DistanceOf(b))
  {
    assert k == l;
  }

  lemma SameIDSameParts(a: Args, b: Args)
    requires ValidArgs(a) && ValidArgs(b) && StaticRouteID(a) == StaticRouteID(b)
    ensures Split(a.nextHop, '/') == Split(b.nextHop, '/') && Split(VrfOf(a), '/') == Split(VrfOf(b), '/')
    ensures Address(a) == Address(b) && Bits(a) == Bits(b) && Itoa(DistanceOf(a)) == Itoa(DistanceOf(b))
  {
    var k := HopPlace(a);
    var l := HopPlace(b);
    PartsAgree(a, b, Split(StaticRouteID(a), '/'), k, l);
  }

  /** No two routes share an identifier, even with slashes in the VRF name: the next
      hop can be told from the right. */
  lemma IDInjective(a: Args, b: Args)
    requires ValidArgs(a) && ValidArgs(b)
    ensures StaticRouteID(a) == StaticRouteID(b) <==> SameIdentity(a, b)
  {
    if StaticRouteID(a) == StaticRouteID(b) {
      SameIDSameParts(a, b);
      JoinSplit(a.nextHop, '/');
      JoinSplit(b.nextHop, '/');
      JoinSplit(VrfOf(a), '/');
      JoinSplit(VrfOf(b), '/');
      ItoaInjective(DistanceOf(a), DistanceOf(b));
      PrefixParts(a);
      PrefixParts(b);
    }
  }

  lemma PrefixParts(args: Args)
    requires ValidArgs(args)
    ensures args.prefix == Address(args) + ['/'] + Bits(args)
  {
    Netip.PrefixToken(args.prefix);
    Around(args.prefix, IndexOf(args.prefix, '/'));
  }
}
