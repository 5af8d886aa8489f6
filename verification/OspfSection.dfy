/** An OSPF process: the staged block, and reading five of its fields back from
    `show running-config section ospf`. */
module OspfSection {
  import opened Seqs
  import opened Text
  import opened Rendering
  import opened Sorting
  import Netip
  import OspfArea

  datatype Redistribute = Redistribute(source: string, routeMap: Option<string>)

  datatype DefaultInfo = DefaultInfo(metric: Option<Int>, metricType: Option<Int>, routeMap: Option<string>)

  datatype Distance = Distance(intraArea: Option<Int>, interArea: Option<Int>, external: Option<Int>)

  datatype Timers = Timers(
    spfDelayInitial: Option<Int>,
    spfHold: Option<Int>,
    spfMax: Option<Int>,
    outDelay: Option<Int>,
    pacingFlood: Option<Int>)

  datatype Args = Args(
    instance: Int,
    vrf: Option<string>,
    routerId: Option<string>,
    shutdown: Option<bool>,
    maxLsa: Option<Int>,
    maximumPaths: Option<Int>,
    autoCost: Option<Int>,
    passiveDefault: Option<bool>,
    passive: seq<string>,
    noPassive: seq<string>,
    networks: seq<OspfArea.Network>,
    areas: seq<OspfArea.Area>,
    redistribute: seq<Redistribute>,
    defaultInfo: Option<DefaultInfo>,
    summaries: seq<string>,
    distance: Option<Distance>,
    logChanges: Option<string>,
    gracefulHelper: Option<bool>,
    timers: Option<Timers>)

  // ---- validation of the fields that are read back ------------------------------------

  datatype Invalid =
    | InstanceRange | RouterIdInvalid | MaxLsaNonPositive | MaximumPathsRange | RefBwNonPositive
    | RedistSrcInvalid | MetricTypeInvalid | SummaryPrefixInvalid | DistanceRange | LogChangesInvalid
    | TimerNonPositive

  predicate ValidScalars(args: Args) {
    && 1 <= args.instance <= 65535
    && (Deref(args.routerId) != "" ==> Netip.IsIPv4(args.routerId.value))
    && (args.maxLsa.Some? ==> args.maxLsa.value > 0)
    && (args.maximumPaths.Some? ==> 1 <= args.maximumPaths.value <= 128)
    && (args.autoCost.Some? ==> args.autoCost.value > 0)
  }

  function ValidateScalars(args: Args): (err: Option<Invalid>)
    ensures err == None <==> ValidScalars(args)
  {
    if args.instance < 1 || args.instance > 65535 then Some(InstanceRange)
    else if args.routerId.Some? && args.routerId.value != "" && !Netip.IsIPv4(args.routerId.value)
      then Some(RouterIdInvalid)
    else if args.maxLsa.Some? && args.maxLsa.value <= 0 then Some(MaxLsaNonPositive)
    else if args.maximumPaths.Some? && (args.maximumPaths.value < 1 || args.maximumPaths.value > 128)
      then Some(MaximumPathsRange)
    else if args.autoCost.Some? && args.autoCost.value <= 0 then Some(RefBwNonPositive)
    else None
  }

  // ---- validation of the rest --------------------------------------------------------------

  predicate IsSource(source: string) {
    source in {"connected", "static", "bgp", "isis"}
  }

  predicate ValidRows(rows: seq<Redistribute>) {
    forall i :: 0 <= i < |rows| ==> IsSource(rows[i].source)
  }

  predicate InRange(n: Option<Int>, low: int, high: int) {
    n.Some? ==> low <= n.value <= high
  }

  predicate ValidTimers(t: Timers) {
    && InRange(t.spfDelayInitial, 1, MAX_INT) && InRange(t.spfHold, 1, MAX_INT) && InRange(t.spfMax, 1, MAX_INT)
    && InRange(t.outDelay, 1, MAX_INT) && InRange(t.pacingFlood, 1, MAX_INT)
  }

  predicate ValidDistance(d: Distance) {
    InRange(d.intraArea, 1, 255) && InRange(d.interArea, 1, 255) && InRange(d.external, 1, 255)
  }

  predicate ValidTail(args: Args, isPrefix: string -> bool) {
    && (args.defaultInfo.Some? ==> InRange(args.defaultInfo.value.metricType, 1, 2))
    && (forall i :: 0 <= i < |args.summaries| ==> isPrefix(args.summaries[i]))
    && (args.distance.Some? ==> ValidDistance(args.distance.value))
    && (args.logChanges.Some? ==> args.logChanges.value in {"", "off", "on", "detail"})
    && (args.timers.Some? ==> ValidTimers(args.timers.value))
  }

  predicate ValidArgs(args: Args, isPrefix: string -> bool) {
    && ValidScalars(args)
    && (forall i :: 0 <= i < |args.networks| ==> OspfArea.ValidNetwork(args.networks[i], isPrefix))
    && (forall i :: 0 <= i < |args.areas| ==> OspfArea.ValidArea(args.areas[i], isPrefix))
    && ValidRows(args.redistribute)
    && ValidTail(args, isPrefix)
  }

  method ValidateRedistribute(rows: seq<Redistribute>) returns (err: Option<Invalid>)
    ensures err == None <==> ValidRows(rows)
  {
    for i := 0 to |rows|
      invariant forall k :: 0 <= k < i ==> IsSource(rows[k].source)
    {
      if !IsSource(rows[i].source) {
        return Some(RedistSrcInvalid);
      }
    }
    return None;
  }

  /** The loops over optional numbers. */
  method ValidateNumbers(ns: seq<Option<Int>>, low: int, high: int, invalid: Invalid) returns (err: Option<Invalid>)
    ensures err == None <==> forall i :: 0 <= i < |ns| ==> InRange(ns[i], low, high)
  {
    for i := 0 to |ns|
      invariant forall k :: 0 <= k < i ==> InRange(ns[k], low, high)
    {
      if ns[i].Some? && (ns[i].value < low || ns[i].value > high) {
        return Some(invalid);
      }
    }
    return None;
  }

  method ValidateSummaries(summaries: seq<string>, isPrefix: string -> bool) returns (err: Option<Invalid>)
    ensures err == None <==> forall i :: 0 <= i < |summaries| ==> isPrefix(summaries[i])
  {
    for i := 0 to |summaries|
      invariant forall k :: 0 <= k < i ==> isPrefix(summaries[k])
    {
      if !isPrefix(summaries[i]) {
        return Some(SummaryPrefixInvalid);
      }
    }
    return None;
  }

  method ValidateDistance(d: Distance) returns (err: Option<Invalid>)
    ensures err == None <==> ValidDistance(d)
  {
    var ns := [d.intraArea, d.interArea, d.external];
    err := ValidateNumbers(ns, 1, 255, DistanceRange);
    assert ns[0] == d.intraArea && ns[1] == d.interArea && ns[2] == d.external;
  }

  method ValidateTimers(t: Timers) returns (err: Option<Invalid>)
    ensures err == None <==> ValidTimers(t)
  {
    var ns := [t.spfDelayInitial, t.spfHold, t.spfMax, t.outDelay, t.pacingFlood];
    err := ValidateNumbers(ns, 1, MAX_INT, TimerNonPositive);
    assert ns[0] == t.spfDelayInitial && ns[1] == t.spfHold && ns[2] == t.spfMax;
    assert ns[3] == t.outDelay && ns[4] == t.pacingFlood;
  }

  method ValidateTail(args: Args, isPrefix: string -> bool) returns (err: Option<Invalid>)
    ensures err == None <==> ValidTail(args, isPrefix)
  {
    if args.defaultInfo.Some? {
      var t := args.defaultInfo.value.metricType;
      if t.Some? && t.value != 1 && t.value != 2 {
        return Some(MetricTypeInvalid);
      }
    }
    err := ValidateSummaries(args.summaries, isPrefix);
    if err != None {
      return;
    }
    if args.distance.Some? {
      err := ValidateDistance(args.distance.value);
      if err != None {
        return;
      }
    }
    if args.logChanges.Some? && args.logChanges.value !in {"", "off", "on", "detail"} {
      return Some(LogChangesInvalid);
    }
    if args.timers.Some? {
      err := ValidateTimers(args.timers.value);
    }
  }

  // ---- the staged block -----------------------------------------------------------------

  function Header(instance: Int, vrf: string): string {
    if vrf == "" then "router ospf " + Itoa(instance)
    else "router ospf " + Itoa(instance) + " vrf " + vrf
  }

  function HeaderOf(args: Args): string {
    Header(args.instance, Deref(args.vrf))
  }

  function RouterIdLines(args: Args): seq<string> {
    if Deref(args.routerId) != "" then ["router-id " + args.routerId.value] else []
  }

  function ShutdownLines(args: Args): seq<string> {
    if args.shutdown.None? then [] else if args.shutdown.value then ["shutdown"] else ["no shutdown"]
  }

  function CostLines(args: Args): seq<string> {
    Numbered("auto-cost reference-bandwidth ", args.autoCost)
  }

  function DistanceLines(args: Args): seq<string> {
    match args.distance
    case None => []
    case Some(d) =>
      Numbered("distance ospf intra-area ", d.intraArea)
      + Numbered("distance ospf inter-area ", d.interArea)
      + Numbered("distance ospf external ", d.external)
  }

  function PassiveDefaultLines(args: Args): seq<string> {
    if args.passiveDefault == Some(true) then ["passive-interface default"] else []
  }

  function NoPassiveLines(args: Args): seq<string> {
    Each("no passive-interface ", args.noPassive)
  }

  function PassiveLines(args: Args): seq<string> {
    Each("passive-interface ", args.passive)
  }

  function RedistributeText(r: Redistribute): string {
    var line := "redistribute " + r.source;
    if Deref(r.routeMap) != "" then line + " route-map " + r.routeMap.value else line
  }

  const RedistributeLine := (r: Redistribute) => [RedistributeText(r)]

  const AreaLines := (a: OspfArea.Area) => OspfArea.AreaLines(a)

  const NetworkLine := (n: OspfArea.Network) => [OspfArea.NetworkLine(n)]

  function LogLines(args: Args): seq<string> {
    var v := Deref(args.logChanges);
    if v == "" then []
    else if v == "off" then ["no log-adjacency-changes"]
    else if v == "detail" then ["log-adjacency-changes detail"]
    else ["log-adjacency-changes"]
  }

  function SpfLines(t: Timers): seq<string> {
    if t.spfDelayInitial.Some? && t.spfHold.Some? && t.spfMax.Some? then
      ["timers spf delay initial " + Itoa(t.spfDelayInitial.value) + " " + Itoa(t.spfHold.value) + " "
        + Itoa(t.spfMax.value)]
    else []
  }

  function TimerLines(args: Args): seq<string> {
    match args.timers
    case None => []
    case Some(t) =>
      SpfLines(t) + Numbered("timers out-delay ", t.outDelay) + Numbered("timers pacing flood ", t.pacingFlood)
  }

  function DefaultInfoLines(args: Args): seq<string> {
    match args.defaultInfo
    case None => []
    case Some(d) =>
      var line := "default-information originate";
      var line := if d.metric.Some? then line + " metric " + Itoa(d.metric.value) else line;
      var line := if d.metricType.Some? then line + " metric-type " + Itoa(d.metricType.value) else line;
      [if Deref(d.routeMap) != "" then line + " route-map " + d.routeMap.value else line]
  }

  function GracefulLines(args: Args): seq<string> {
    if args.gracefulHelper == Some(true) then ["graceful-restart-helper"] else []
  }

  function ScalarLines(args: Args): seq<string> {
    RouterIdLines(args) + ShutdownLines(args) + CostLines(args)
  }

  function InterfaceLines(args: Args): seq<string> {
    PassiveDefaultLines(args) + NoPassiveLines(args) + PassiveLines(args)
  }

  function RouteLines(args: Args): seq<string> {
    Collect(args.redistribute, RedistributeLine) + Collect(args.areas, AreaLines) + Collect(args.networks, NetworkLine)
  }

  function LimitLines(args: Args): seq<string> {
    Numbered("max-lsa ", args.maxLsa) + LogLines(args) + TimerLines(args)
  }

  function PathLines(args: Args): seq<string> {
    Numbered("maximum-paths ", args.maximumPaths) + DefaultInfoLines(args)
  }

  function TailLines(args: Args): seq<string> {
    Each("summary-address ", args.summaries) + GracefulLines(args)
  }

  /** The body, in the order it is staged. */
  function Body(args: Args): seq<string> {
    ScalarLines(args) + DistanceLines(args) + InterfaceLines(args) + RouteLines(args)
    + LimitLines(args) + PathLines(args) + TailLines(args)
  }

  function Rendered(args: Args): seq<string> {
    ["no " + HeaderOf(args), HeaderOf(args)] + Body(args) + ["exit"]
  }

  function Staged(args: Args, remove: bool): seq<string> {
    if remove then ["no " + HeaderOf(args)] else Rendered(args)
  }

  method AppendOspfScalars(cmds: seq<string>, args: Args) returns (r: seq<string>)
    ensures r == cmds + ScalarLines(args)
  {
    r := cmds;
    if args.routerId.Some? && args.routerId.value != "" {
      r := r + ["router-id " + args.routerId.value];
    }
    assert r == cmds + RouterIdLines(args);
    if args.shutdown.Some? {
      if args.shutdown.value {
        r := r + ["shutdown"];
      } else {
        r := r + ["no shutdown"];
      }
    }
    assert r == cmds + RouterIdLines(args) + ShutdownLines(args);
    r := AppendNumbered(r, "auto-cost reference-bandwidth ", args.autoCost);
    ThreeParts(cmds, RouterIdLines(args), ShutdownLines(args), CostLines(args));
  }

  method AppendOspfDistance(cmds: seq<string>, args: Args) returns (r: seq<string>)
    ensures r == cmds + DistanceLines(args)
  {
    r := cmds;
    match args.distance {
      case None =>
      case Some(d) =>
        r := AppendNumbered(r, "distance ospf intra-area ", d.intraArea);
        r := AppendNumbered(r, "distance ospf inter-area ", d.interArea);
        r := AppendNumbered(r, "distance ospf external ", d.external);
    }
  }

  method AppendOspfPassive(cmds: seq<string>, args: Args) returns (r: seq<string>)
    ensures r == cmds + InterfaceLines(args)
  {
    r := cmds;
    if args.passiveDefault == Some(true) {
      r := r + ["passive-interface default"];
    }
    r := AppendEach(r, "no passive-interface ", args.noPassive);
    r := AppendEach(r, "passive-interface ", args.passive);
    ThreeParts(cmds, PassiveDefaultLines(args), NoPassiveLines(args), PassiveLines(args));
  }

  method AppendOspfRedistribute(cmds: seq<string>, rows: seq<Redistribute>) returns (r: seq<string>)
    ensures r == cmds + Collect(rows, RedistributeLine)
  {
    r := cmds;
    for i := 0 to |rows|
      invariant r == cmds + Collect(rows[..i], RedistributeLine)
    {
      var line := "redistribute " + rows[i].source;
      if rows[i].routeMap.Some? && rows[i].routeMap.value != "" {
        line := line + " route-map " + rows[i].routeMap.value;
      }
      TakeSnoc(rows, i);
      CollectSnoc(rows[..i], rows[i], RedistributeLine);
      assert [line] == RedistributeLine(rows[i]);
      Associate(cmds, Collect(rows[..i], RedistributeLine), [line]);
      r := r + [line];
    }
    TakeAll(rows);
  }

  method AppendAreas(cmds: seq<string>, areas: seq<OspfArea.Area>) returns (r: seq<string>)
    ensures r == cmds + Collect(areas, AreaLines)
  {
    r := cmds;
    for i := 0 to |areas|
      invariant r == cmds + Collect(areas[..i], AreaLines)
    {
      var lines := OspfArea.RenderArea(areas[i]);
      TakeSnoc(areas, i);
      CollectSnoc(areas[..i], areas[i], AreaLines);
      Associate(cmds, Collect(areas[..i], AreaLines), lines);
      r := r + lines;
    }
    TakeAll(areas);
  }

  method AppendNetworks(cmds: seq<string>, networks: seq<OspfArea.Network>) returns (r: seq<string>)
    ensures r == cmds + Collect(networks, NetworkLine)
  {
    r := cmds;
    for i := 0 to |networks|
      invariant r == cmds + Collect(networks[..i], NetworkLine)
    {
      var area := OspfArea.CanonicaliseOspfArea(networks[i].area);
      var line := "network " + networks[i].prefix + " area " + Deref(area);
      TakeSnoc(networks, i);
      CollectSnoc(networks[..i], networks[i], NetworkLine);
      Associate(cmds, Collect(networks[..i], NetworkLine), [line]);
      r := r + [line];
    }
    TakeAll(networks);
  }

  method AppendOspfLogChanges(cmds: seq<string>, args: Args) returns (r: seq<string>)
    ensures r == cmds + LogLines(args)
  {
    if args.logChanges.None? || args.logChanges.value == "" {
      return cmds;
    }
    match args.logChanges.value {
      case "off" => r := cmds + ["no log-adjacency-changes"];
      case "detail" => r := cmds + ["log-adjacency-changes detail"];
      case _ => r := cmds + ["log-adjacency-changes"];
    }
  }

  method AppendSpf(cmds: seq<string>, t: Timers) returns (r: seq<string>)
    ensures r == cmds + SpfLines(t)
  {
    r := cmds;
    if t.spfDelayInitial.Some? && t.spfHold.Some? && t.spfMax.Some? {
      r := r + ["timers spf delay initial " + Itoa(t.spfDelayInitial.value) + " " + Itoa(t.spfHold.value) + " "
        + Itoa(t.spfMax.value)];
    }
  }

  method AppendOspfTimers(cmds: seq<string>, args: Args) returns (r: seq<string>)
    ensures r == cmds + TimerLines(args)
  {
    r := cmds;
    match args.timers {
      case None =>
      case Some(t) =>
        r := AppendSpf(r, t);
        r := AppendNumbered(r, "timers out-delay ", t.outDelay);
        r := AppendNumbered(r, "timers pacing flood ", t.pacingFlood);
        ThreeParts(cmds, SpfLines(t), Numbered("timers out-delay ", t.outDelay),
                   Numbered("timers pacing flood ", t.pacingFlood));
    }
  }

  method AppendOspfDefaultInfo(cmds: seq<string>, args: Args) returns (r: seq<string>)
    ensures r == cmds + DefaultInfoLines(args)
  {
    match args.defaultInfo {
      case None => return cmds;
      case Some(d) =>
        var line := "default-information originate";
        if d.metric.Some? {
          line := line + " metric " + Itoa(d.metric.value);
        }
        if d.metricType.Some? {
          line := line + " metric-type " + Itoa(d.metricType.value);
        }
        if d.routeMap.Some? && d.routeMap.value != "" {
          line := line + " route-map " + d.routeMap.value;
        }
        return cmds + [line];
    }
  }

  method AppendRoutes(cmds: seq<string>, args: Args) returns (r: seq<string>)
    ensures r == cmds + RouteLines(args)
  {
    r := AppendOspfRedistribute(cmds, args.redistribute);
    r := AppendAreas(r, args.areas);
    r := AppendNetworks(r, args.networks);
    ThreeParts(cmds, Collect(args.redistribute, RedistributeLine), Collect(args.areas, AreaLines),
               Collect(args.networks, NetworkLine));
  }

  method AppendLimits(cmds: seq<string>, args: Args) returns (r: seq<string>)
    ensures r == cmds + LimitLines(args)
  {
    r := AppendNumbered(cmds, "max-lsa ", args.maxLsa);
    r := AppendOspfLogChanges(r, args);
    r := AppendOspfTimers(r, args);
    ThreeParts(cmds, Numbered("max-lsa ", args.maxLsa), LogLines(args), TimerLines(args));
  }

  method AppendPaths(cmds: seq<string>, args: Args) returns (r: seq<string>)
    ensures r == cmds + PathLines(args)
  {
    r := AppendNumbered(cmds, "maximum-paths ", args.maximumPaths);
    r := AppendOspfDefaultInfo(r, args);
    Associate(cmds, Numbered("maximum-paths ", args.maximumPaths), DefaultInfoLines(args));
  }

  method AppendTail(cmds: seq<string>, args: Args) returns (r: seq<string>)
    ensures r == cmds + TailLines(args)
  {
    r := AppendEach(cmds, "summary-address ", args.summaries);
    if args.gracefulHelper == Some(true) {
      r := r + ["graceful-restart-helper"];
    }
  }

  method AppendRouterOspfBody(cmds: seq<string>, args: Args) returns (r: seq<string>)
    ensures r == cmds + Body(args)
  {
    r := AppendOspfScalars(cmds, args);
    r := AppendOspfDistance(r, args);
    r := AppendOspfPassive(r, args);
    r := AppendRoutes(r, args);
    r := AppendLimits(r, args);
    r := AppendPaths(r, args);
    r := AppendTail(r, args);
    SevenParts(cmds, ScalarLines(args), DistanceLines(args), InterfaceLines(args), RouteLines(args),
               LimitLines(args), PathLines(args), TailLines(args));
  }

  lemma SevenParts<T>(s: seq<T>, a: seq<T>, b: seq<T>, c: seq<T>, d: seq<T>, e: seq<T>, f: seq<T>, g: seq<T>)
    ensures s + a + b + c + d + e + f + g == s + (a + b + c + d + e + f + g)
  {
    SixParts(s, a, b, c, d, e, f);
    Associate(s, a + b + c + d + e + f, g);
  }

  method BuildRouterOspfCmds(args: Args, remove: bool) returns (cmds: seq<string>)
    ensures cmds == Staged(args, remove)
  {
    var header := "router ospf " + Itoa(args.instance);
    if args.vrf.Some? && args.vrf.value != "" {
      header := header + " vrf " + args.vrf.value;
    }
    if remove {
      return ["no " + header];
    }
    cmds := ["no " + header, header];
    cmds := AppendRouterOspfBody(cmds, args);
    cmds := cmds + ["exit"];
  }
}
