/** What the staged OSPF commands do to a device, from any prior state: the processes, each
    under its instance and VRF. */
module OspfDevice {
  import opened Seqs
  import opened Text
  import opened Rendering
  import opened Scanner
  import opened Eapi
  import opened Shell
  import opened OspfProcess
  import OspfArea
  import Ospf = OspfSection

  /** Without a VRF a process is in the default one. */
  datatype Key = Key(instance: int, vrf: string)

  type Config = map<Key, Process>

  datatype Mode = Global | InProcess(key: Key)

  datatype Command =
    | NoProcess(key: Key)
    | EnterProcess(key: Key)
    | Say(saying: Saying)
    | Exit
    | Unknown

  // ---- reading a line -----------------------------------------------------------------------

  function KeyFrom(words: seq<string>): Option<Key> {
    if |words| < 3 || words[0] != "router" || words[1] != "ospf" || Atoi(words[2]) == None then None
    else if |words| == 3 then Some(Key(Atoi(words[2]).value, "default"))
    else if |words| == 5 && words[3] == "vrf" then Some(Key(Atoi(words[2]).value, words[4]))
    else None
  }

  function CommandOfWords(words: seq<string>): Command {
    if SayingOfWords(words).Some? then Say(SayingOfWords(words).value)
    else if words == ["exit"] then Exit
    else if KeyFrom(words).Some? then EnterProcess(KeyFrom(words).value)
    else if words != [] && words[0] == "no" && KeyFrom(words[1..]).Some? then NoProcess(KeyFrom(words[1..]).value)
    else Unknown
  }

  function CommandOf(line: string): Command {
    CommandOfWords(Fields(line))
  }

  // ---- executing it ----------------------------------------------------------------------------

  function ProcessOf(cfg: Config, key: Key): Process {
    if key in cfg then cfg[key] else EMPTY
  }

  function WithProcess(cfg: Config, key: Key, p: Process): Config {
    cfg[key := p]
  }

  function Execute(cfg: Config, mode: Mode, cmd: Command): Config {
    match cmd
    case NoProcess(key) => cfg - {key}
    case EnterProcess(key) => WithProcess(cfg, key, ProcessOf(cfg, key))
    case Say(saying) =>
      if mode.InProcess? then WithProcess(cfg, mode.key, Heard(ProcessOf(cfg, mode.key), saying)) else cfg
    case _ => cfg
  }

  function NextMode(mode: Mode, cmd: Command): Mode {
    match cmd
    case NoProcess(_) => Global
    case EnterProcess(key) => InProcess(key)
    case Exit => Global
    case _ => mode
  }

  const PROCESSES: Shell<Config, Mode> := Shell(
    Global,
    (cfg: Config, mode: Mode, line: string) => Execute(cfg, mode, CommandOf(line)),
    (mode: Mode, line: string) => NextMode(mode, CommandOf(line)),
    (mode: Mode) => mode != Global)

  // ---- what is declared -------------------------------------------------------------------------

  function KeyOf(args: Ospf.Args): Key {
    Key(args.instance, if Given(args.vrf) then args.vrf.value else "default")
  }

  function NumberOf(args: Ospf.Args, setting: Setting): Option<Int> {
    match setting
    case AutoCost => args.autoCost
    case IntraArea => Intra(args)
    case InterArea => Inter(args)
    case External => Ext(args)
    case MaxLsa => args.maxLsa
    case OutDelay => TimersOf(args).outDelay
    case PacingFlood => TimersOf(args).pacingFlood
    case MaximumPaths => args.maximumPaths
  }

  function Numbers(args: Ospf.Args): map<Setting, int> {
    map s: Setting | NumberOf(args, s).Some? :: NumberOf(args, s).value as int
  }

  /** The process that the arguments ask for. */
  function Declared(args: Ospf.Args): Process {
    Process(
      if Given(args.routerId) then args.routerId else None,
      args.shutdown == Some(true),
      Numbers(args),
      args.passiveDefault == Some(true),
      Passives(Passives(map[], args.noPassive, false), args.passive, true),
      Redistributed(map[], args.redistribute),
      AreasPut(map[], args.areas),
      Networked(map[], args.networks),
      LevelOf(Deref(args.logChanges)),
      SpfOf(TimersOf(args)),
      OriginOf(args),
      RangeSet(args.summaries),
      args.gracefulHelper == Some(true))
  }

  function NumberPut(m: map<Setting, int>, s: Setting, n: Option<Int>): map<Setting, int> {
    if n.Some? then m[s := n.value] else m
  }

  function FrontNumbers(m: map<Setting, int>, args: Ospf.Args): map<Setting, int> {
    NumberPut(NumberPut(NumberPut(NumberPut(m, AutoCost, args.autoCost), IntraArea, Intra(args)), InterArea,
                        Inter(args)), External, Ext(args))
  }

  function BackNumbers(m: map<Setting, int>, args: Ospf.Args): map<Setting, int> {
    NumberPut(NumberPut(NumberPut(NumberPut(m, MaxLsa, args.maxLsa), OutDelay, TimersOf(args).outDelay), PacingFlood,
                        TimersOf(args).pacingFlood), MaximumPaths, args.maximumPaths)
  }

  predicate InFront(s: Setting) {
    s == AutoCost || s == IntraArea || s == InterArea || s == External
  }

  lemma FrontAt(args: Ospf.Args, s: Setting)
    ensures var m := FrontNumbers(map[], args);
            && (s in m <==> InFront(s) && NumberOf(args, s).Some?)
            && (s in m ==> m[s] == NumberOf(args, s).value)
  {
  }

  lemma BackAt(m: map<Setting, int>, args: Ospf.Args, s: Setting)
    ensures var n := BackNumbers(m, args);
            if InFront(s) then (s in n <==> s in m) && (s in n ==> n[s] == m[s])
            else if NumberOf(args, s).Some? then s in n && n[s] == NumberOf(args, s).value
            else (s in n <==> s in m)
  {
  }

  lemma NumbersTogether(args: Ospf.Args)
    ensures BackNumbers(FrontNumbers(map[], args), args) == Numbers(args)
  {
    var front := FrontNumbers(map[], args);
    var all := BackNumbers(front, args);
    forall s: Setting
      ensures s in all <==> s in Numbers(args)
      ensures s in all ==> all[s] == Numbers(args)[s]
    {
      FrontAt(args, s);
      BackAt(front, args, s);
    }
  }

  lemma FrontBuilt(p: Process, args: Ospf.Args)
    ensures WithInterfaces(WithDistances(WithScalars(p, args), args), args)
         == p.(routerId := if Given(args.routerId) then args.routerId else p.routerId,
               shutdown := if args.shutdown.Some? then args.shutdown.value else p.shutdown,
               numbers := FrontNumbers(p.numbers, args),
               passiveDefault := args.passiveDefault == Some(true) || p.passiveDefault,
               passive := Passives(Passives(p.passive, args.noPassive, false), args.passive, true))
  {
  }

  lemma BackBuilt(p: Process, args: Ospf.Args)
    ensures WithPaths(WithLimits(WithRoutes(p, args), args), args)
         == p.(redistribute := Redistributed(p.redistribute, args.redistribute),
               areas := AreasPut(p.areas, args.areas),
               networks := Networked(p.networks, args.networks),
               numbers := BackNumbers(p.numbers, args),
               log := if LevelOf(Deref(args.logChanges)).Some? then LevelOf(Deref(args.logChanges)) else p.log,
               spf := if SpfOf(TimersOf(args)).Some? then SpfOf(TimersOf(args)) else p.spf,
               originate := if OriginOf(args).Some? then OriginOf(args) else p.originate)
  {
  }

  lemma BodyIsDeclared(args: Ospf.Args)
    ensures WithBody(EMPTY, args) == Declared(args)
  {
    var p := WithInterfaces(WithDistances(WithScalars(EMPTY, args), args), args);
    FrontBuilt(EMPTY, args);
    BackBuilt(p, args);
    NumbersTogether(args);
    assert {} + RangeSet(args.summaries) == RangeSet(args.summaries);
  }
  // ---- the lines run -------------------------------------------------------------------------------

  predicate PlainVrf(args: Ospf.Args) {
    Given(args.vrf) ==> IsToken(args.vrf.value)
  }

  function HeaderWords(args: Ospf.Args): seq<string> {
    if Given(args.vrf) then ["router", "ospf", Itoa(args.instance), "vrf", args.vrf.value]
    else ["router", "ospf", Itoa(args.instance)]
  }

  lemma HeaderShape(n: string, vrf: string)
    ensures "router ospf " + n == "router" + " " + "ospf" + " " + n
    ensures "router ospf " + n + " vrf " + vrf == "router" + " " + "ospf" + " " + n + " " + "vrf" + " " + vrf
  {
  }

  lemma HeaderFields(args: Ospf.Args)
    requires PlainVrf(args)
    ensures Fields(Ospf.HeaderOf(args)) == HeaderWords(args)
  {
    var n := Itoa(args.instance);
    ItoaToken(args.instance);
    HeaderShape(n, Deref(args.vrf));
    if Given(args.vrf) {
      Words5("router", "ospf", n, "vrf", args.vrf.value);
    } else {
      Words3("router", "ospf", n);
    }
  }

  lemma HeaderKey(args: Ospf.Args)
    ensures KeyFrom(HeaderWords(args)) == Some(KeyOf(args))
  {
    AtoiItoa(args.instance);
  }

  lemma RouterSaysNothing(words: seq<string>)
    requires words != [] && words[0] == "router"
    ensures SayingOfWords(words) == None && words != ["exit"]
    ensures SayingOfWords(["no"] + words) == None && ["no"] + words != ["exit"] && KeyFrom(["no"] + words) == None
    ensures (["no"] + words)[1..] == words
  {
    assert (["no"] + words)[1..] == words;
  }

  lemma HeaderRead(args: Ospf.Args)
    requires PlainVrf(args)
    ensures CommandOf(Ospf.HeaderOf(args)) == EnterProcess(KeyOf(args))
  {
    HeaderFields(args);
    HeaderKey(args);
    RouterSaysNothing(HeaderWords(args));
  }

  lemma NoHeaderRead(args: Ospf.Args, line: string)
    requires PlainVrf(args) && line == "no " + Ospf.HeaderOf(args)
    ensures CommandOf(line) == NoProcess(KeyOf(args))
  {
    NoFields(Ospf.HeaderOf(args), line);
    HeaderFields(args);
    HeaderKey(args);
    RouterSaysNothing(HeaderWords(args));
  }

  lemma NoFields(rest: string, line: string)
    requires line == "no " + rest
    ensures Fields(line) == ["no"] + Fields(rest)
  {
    FieldsWord("no", rest);
    assert "no " == "no" + " ";
  }

  lemma ExitRead(line: string)
    requires line == "exit"
    ensures CommandOf(line) == Exit
  {
    FieldsToken(line);
  }

  lemma KnownTyped(mode: Mode, line: string)
    requires !CommandOf(line).Unknown? && (CommandOf(line).Exit? ==> mode != Global)
    ensures IsTyped(PROCESSES, mode, line)
  {
    var words := Fields(line);
    if |words| == 1 {
      OneWordTyped(words);
    }
  }

  lemma OneWordTyped(words: seq<string>)
    requires |words| == 1 && !CommandOfWords(words).Unknown?
    ensures words != ["end"] && words != ["commit"] && words != ["abort"]
    ensures words == ["exit"] ==> CommandOfWords(words) == Exit
  {
  }

  lemma LineRuns(cfg: Config, mode: Mode, line: string)
    requires !CommandOf(line).Unknown? && (CommandOf(line).Exit? ==> mode != Global)
    ensures Takes(PROCESSES, cfg, mode, [line], Execute(cfg, mode, CommandOf(line)), NextMode(mode, CommandOf(line)))
  {
    KnownTyped(mode, line);
    TakesOne(PROCESSES, cfg, mode, line);
  }

  lemma TwiceWith(cfg: Config, key: Key, a: Process, b: Process)
    ensures WithProcess(WithProcess(cfg, key, a), key, b) == WithProcess(cfg, key, b)
    ensures ProcessOf(WithProcess(cfg, key, a), key) == a
  {
  }

  lemma ScanLast(p: Process, lines: seq<string>, saying: Saying)
    requires lines != [] && SayingOf(lines[|lines| - 1]) == Some(saying)
    ensures Scan(p, lines, HEAR) == Heard(Scan(p, lines[..|lines| - 1], HEAR), saying)
  {
  }

  /** Lines that a process knows, typed in its block, are heard by it. */
  lemma {:induction false} LinesRun(cfg: Config, key: Key, p: Process, lines: seq<string>)
    requires AllKnown(lines)
    ensures Takes(PROCESSES, WithProcess(cfg, key, p), InProcess(key), lines,
              WithProcess(cfg, key, Scan(p, lines, HEAR)), InProcess(key))
  {
    if lines == [] {
      TakesNone(PROCESSES, WithProcess(cfg, key, p), InProcess(key));
    } else {
      var n := |lines| - 1;
      var mid, saying := Scan(p, lines[..n], HEAR), SayingOf(lines[n]).value;
      LinesRun(cfg, key, p, lines[..n]);
      LineRuns(WithProcess(cfg, key, mid), InProcess(key), lines[n]);
      TwiceWith(cfg, key, mid, Heard(mid, saying));
      ScanLast(p, lines, saying);
      Snoc(lines);
      TakesThen(PROCESSES, WithProcess(cfg, key, p), InProcess(key), lines[..n], WithProcess(cfg, key, mid),
                InProcess(key), [lines[n]], WithProcess(cfg, key, Scan(p, lines, HEAR)), InProcess(key));
    }
  }

  lemma FreshProcess(cfg: Config, key: Key)
    ensures Execute(cfg - {key}, Global, EnterProcess(key)) == WithProcess(cfg, key, EMPTY)
  {
    assert (cfg - {key})[key := EMPTY] == cfg[key := EMPTY];
  }

  lemma OpenLines(cfg: Config, key: Key, no: string, header: string)
    requires CommandOf(no) == NoProcess(key) && CommandOf(header) == EnterProcess(key)
    ensures Takes(PROCESSES, cfg, Global, [no, header], WithProcess(cfg, key, EMPTY), InProcess(key))
  {
    LineRuns(cfg, Global, no);
    LineRuns(cfg - {key}, Global, header);
    FreshProcess(cfg, key);
    TakesThen(PROCESSES, cfg, Global, [no], cfg - {key}, Global, [header], WithProcess(cfg, key, EMPTY),
              InProcess(key));
    assert [no] + [header] == [no, header];
  }

  lemma OpenRuns(cfg: Config, args: Ospf.Args)
    requires PlainVrf(args)
    ensures Takes(PROCESSES, cfg, Global, ["no " + Ospf.HeaderOf(args), Ospf.HeaderOf(args)],
              WithProcess(cfg, KeyOf(args), EMPTY), InProcess(KeyOf(args)))
  {
    NoHeaderRead(args, "no " + Ospf.HeaderOf(args));
    HeaderRead(args);
    OpenLines(cfg, KeyOf(args), "no " + Ospf.HeaderOf(args), Ospf.HeaderOf(args));
  }

  lemma ExitRuns(cfg: Config, key: Key, line: string)
    requires line == "exit"
    ensures Takes(PROCESSES, cfg, InProcess(key), [line], cfg, Global)
  {
    ExitRead(line);
    LineRuns(cfg, InProcess(key), line);
  }

  lemma RenderedRuns(cfg: Config, args: Ospf.Args)
    requires PlainVrf(args) && WordsOnly(args)
    ensures Takes(PROCESSES, cfg, Global, Ospf.Rendered(args), WithProcess(cfg, KeyOf(args), Declared(args)), Global)
  {
    var key := KeyOf(args);
    var open := ["no " + Ospf.HeaderOf(args), Ospf.HeaderOf(args)];
    var done := WithProcess(cfg, key, Declared(args));
    OpenRuns(cfg, args);
    BodyHeard(EMPTY, args);
    BodyIsDeclared(args);
    LinesRun(cfg, key, EMPTY, Ospf.Body(args));
    ExitRuns(done, key, "exit");
    TakesThen(PROCESSES, cfg, Global, open, WithProcess(cfg, key, EMPTY), InProcess(key), Ospf.Body(args), done,
              InProcess(key));
    TakesThen(PROCESSES, cfg, Global, open + Ospf.Body(args), done, InProcess(key), ["exit"], done, Global);
  }

  function HasProcess(cfg: Config, key: Key, p: Option<Process>): Config {
    if p.Some? then WithProcess(cfg, key, p.value) else cfg - {key}
  }

  function Wanted(args: Ospf.Args, remove: bool): Option<Process> {
    if remove then None else Some(Declared(args))
  }

  lemma StagedRuns(cfg: Config, args: Ospf.Args, remove: bool)
    requires PlainVrf(args) && (!remove ==> WordsOnly(args))
    ensures Takes(PROCESSES, cfg, Global, Ospf.Staged(args, remove),
              HasProcess(cfg, KeyOf(args), Wanted(args, remove)), Global)
  {
    if remove {
      NoHeaderRead(args, "no " + Ospf.HeaderOf(args));
      LineRuns(cfg, Global, "no " + Ospf.HeaderOf(args));
    } else {
      RenderedRuns(cfg, args);
    }
  }

  /** From any prior state: applying leaves the process exactly as declared, with nothing of
      what it was before, and removing leaves out exactly that instance and VRF; every other
      process is as before. */
  lemma Converges(cfg: Config, args: Ospf.Args, remove: bool)
    requires PlainVrf(args) && (!remove ==> WordsOnly(args))
    ensures Run(PROCESSES, cfg, Ospf.Staged(args, remove)) == HasProcess(cfg, KeyOf(args), Wanted(args, remove))
  {
    StagedRuns(cfg, args, remove);
  }
  // ---- what a declared process holds ------------------------------------------------------------------

  predicate AreasApart(areas: seq<OspfArea.Area>) {
    forall i, j :: 0 <= i < j < |areas| ==> AreaNumber(areas[i].id) != AreaNumber(areas[j].id)
  }

  predicate HasArea(areas: seq<OspfArea.Area>, v: int) {
    exists i :: 0 <= i < |areas| && AreaNumber(areas[i].id) == v
  }

  lemma PutElsewhere(m: map<int, AreaConfig>, a: OspfArea.Area, v: int)
    requires AreaNumber(a.id) != v
    ensures AreaOf(AreaPut(m, a), v) == AreaOf(m, v) && (v in AreaPut(m, a) <==> v in m)
  {
  }

  lemma PutFresh(m: map<int, AreaConfig>, a: OspfArea.Area)
    requires AreaNumber(a.id) !in m
    ensures AreaOf(AreaPut(m, a), AreaNumber(a.id)) == AreaOver(PLAIN_AREA, a)
  {
    assert RangeSet([]) == {};
  }

  lemma HasAreaLast(areas: seq<OspfArea.Area>, v: int)
    requires areas != []
    ensures var n := |areas| - 1; HasArea(areas, v) <==> HasArea(areas[..n], v) || AreaNumber(areas[n].id) == v
  {
    var n := |areas| - 1;
    assert forall i :: 0 <= i < n ==> areas[..n][i] == areas[i];
  }

  /** Areas do not touch one another. */
  lemma {:induction false} AreasElsewhere(before: map<int, AreaConfig>, areas: seq<OspfArea.Area>, v: int)
    requires !HasArea(areas, v)
    ensures AreaOf(AreasPut(before, areas), v) == AreaOf(before, v) && (v in AreasPut(before, areas) <==> v in before)
  {
    if areas != [] {
      var n := |areas| - 1;
      HasAreaLast(areas, v);
      AreasElsewhere(before, areas[..n], v);
      PutElsewhere(AreasPut(before, areas[..n]), areas[n], v);
    }
  }

  lemma {:induction false} AreasAppend(before: map<int, AreaConfig>, a: seq<OspfArea.Area>, b: seq<OspfArea.Area>)
    ensures AreasPut(before, a + b) == AreasPut(AreasPut(before, a), b)
  {
    if b == [] {
      AppendEmpty(a);
    } else {
      AppendFront(a, b);
      AreasAppend(before, a, b[..|b| - 1]);
    }
  }

  lemma AreaBetween(a: seq<OspfArea.Area>, x: OspfArea.Area, b: seq<OspfArea.Area>)
    requires !HasArea(a, AreaNumber(x.id)) && !HasArea(b, AreaNumber(x.id))
    ensures AreaOf(AreasPut(map[], a + [x] + b), AreaNumber(x.id)) == AreaOver(PLAIN_AREA, x)
  {
    var m := AreasPut(map[], a);
    AreasAppend(map[], a + [x], b);
    SnocParts(a, x);
    AreasElsewhere(map[], a, AreaNumber(x.id));
    PutFresh(m, x);
    AreasElsewhere(AreaPut(m, x), b, AreaNumber(x.id));
  }

  lemma OthersApart(areas: seq<OspfArea.Area>, i: nat)
    requires AreasApart(areas) && i < |areas|
    ensures !HasArea(areas[..i], AreaNumber(areas[i].id)) && !HasArea(areas[i + 1..], AreaNumber(areas[i].id))
  {
  }

  lemma AreaDeclared(areas: seq<OspfArea.Area>, i: nat)
    requires AreasApart(areas) && i < |areas|
    ensures AreaOf(AreasPut(map[], areas), AreaNumber(areas[i].id)) == AreaOver(PLAIN_AREA, areas[i])
  {
    OthersApart(areas, i);
    Around(areas, i);
    AreaBetween(areas[..i], areas[i], areas[i + 1..]);
  }

  predicate HasNetwork(networks: seq<OspfArea.Network>, prefix: string) {
    exists i :: 0 <= i < |networks| && networks[i].prefix == prefix
  }

  /** No later row is for the same prefix. */
  predicate LastRow(networks: seq<OspfArea.Network>, i: nat) {
    i < |networks| && forall k :: i < k < |networks| ==> networks[k].prefix != networks[i].prefix
  }

  lemma LastBefore(networks: seq<OspfArea.Network>, i: nat)
    requires LastRow(networks, i) && i < |networks| - 1
    ensures var n := |networks| - 1;
            LastRow(networks[..n], i) && networks[..n][i] == networks[i] && networks[n].prefix != networks[i].prefix
  {
  }

  lemma {:induction false} NetworkDeclared(networks: seq<OspfArea.Network>, i: nat)
    requires LastRow(networks, i)
    ensures var m, row := Networked(map[], networks), networks[i];
            row.prefix in m && m[row.prefix] == AreaNumber(row.area)
  {
    if i < |networks| - 1 {
      LastBefore(networks, i);
      NetworkDeclared(networks[..|networks| - 1], i);
    }
  }

  lemma HasNetworkLast(networks: seq<OspfArea.Network>, prefix: string)
    requires networks != []
    ensures var n := |networks| - 1;
            HasNetwork(networks, prefix) <==> HasNetwork(networks[..n], prefix) || networks[n].prefix == prefix
  {
    var n := |networks| - 1;
    assert forall i :: 0 <= i < n ==> networks[..n][i] == networks[i];
  }

  lemma {:induction false} NetworkKeys(networks: seq<OspfArea.Network>, prefix: string)
    ensures prefix in Networked(map[], networks) <==> HasNetwork(networks, prefix)
  {
    if networks != [] {
      HasNetworkLast(networks, prefix);
      NetworkKeys(networks[..|networks| - 1], prefix);
    }
  }

  /** A declared process has every declared area under its 32-bit number, with its type,
      default cost and ranges, when no two are one area, and no other area; */
  lemma AreasDeclared(args: Ospf.Args)
    ensures AreasApart(args.areas) ==>
              forall i :: 0 <= i < |args.areas| ==>
                AreaOf(Declared(args).areas, AreaNumber(args.areas[i].id)) == AreaOver(PLAIN_AREA, args.areas[i])
    ensures forall v :: v in Declared(args).areas ==> HasArea(args.areas, v)
  {
    var areas := args.areas;
    if AreasApart(areas) {
      forall i | 0 <= i < |areas|
        ensures AreaOf(AreasPut(map[], areas), AreaNumber(areas[i].id)) == AreaOver(PLAIN_AREA, areas[i])
      {
        AreaDeclared(areas, i);
      }
    }
    forall v | v in AreasPut(map[], areas) ensures HasArea(areas, v) {
      if !HasArea(areas, v) {
        AreasElsewhere(map[], areas, v);
      }
    }
  }

  /** every declared network under the number of its area, the last row counting when a
      prefix is listed twice, and no other network; */
  lemma NetworksDeclared(args: Ospf.Args, i: nat)
    requires LastRow(args.networks, i)
    ensures var m, row := Declared(args).networks, args.networks[i];
            row.prefix in m && m[row.prefix] == AreaNumber(row.area)
    ensures forall p :: p in Declared(args).networks <==> HasNetwork(args.networks, p)
  {
    NetworkDeclared(args.networks, i);
    forall p ensures p in Networked(map[], args.networks) <==> HasNetwork(args.networks, p) {
      NetworkKeys(args.networks, p);
    }
  }
  // ---- texts that are not one word --------------------------------------------------------------

  /** A device holds words, and no interface `default`. */
  ghost predicate HeldProcess(p: Process) {
    && (p.routerId.Some? ==> IsToken(p.routerId.value))
    && (forall i :: i in p.passive ==> IsIface(i))
    && (forall r :: r in p.redistribute ==> HeldRow(r, p.redistribute[r]))
    && (forall v :: v in p.areas ==> HeldRanges(p.areas[v].ranges))
    && (forall n :: n in p.networks ==> IsToken(n))
    && (p.originate.Some? ==> HeldOrigin(p.originate.value))
    && HeldRanges(p.summaries)
  }

  predicate HeldRow(source: string, routeMap: Option<string>) {
    IsToken(source) && (routeMap.Some? ==> IsToken(routeMap.value))
  }

  predicate HeldRanges(ranges: set<string>) {
    forall r :: r in ranges ==> IsToken(r)
  }

  predicate HeldOrigin(o: Origin) {
    o.routeMap.Some? ==> IsToken(o.routeMap.value)
  }

  ghost predicate Held(cfg: Config) {
    forall key :: key in cfg ==> IsToken(key.vrf) && HeldProcess(cfg[key])
  }

  predicate HeldSaying(s: Saying) {
    match s
    case RouterId(id) => IsToken(id)
    case Passive(iface, _) => IsIface(iface)
    case Redistribute(source, routeMap) => HeldRow(source, routeMap)
    case RangeOfArea(_, prefix) => IsToken(prefix)
    case Network(prefix, _) => IsToken(prefix)
    case Originate(origin) => HeldOrigin(origin)
    case Summary(prefix) => IsToken(prefix)
    case _ => true
  }

  lemma {:induction false} OriginHeld(o: Origin, words: seq<string>)
    requires AllTokens(words) && HeldOrigin(o)
    ensures OriginFrom(o, words).Some? ==> HeldOrigin(OriginFrom(o, words).value)
    decreases |words|
  {
    if |words| >= 2 {
      var rest := words[2..];
      assert IsToken(words[1]) && AllTokens(rest);
      if words[0] == "metric" && Atoi(words[1]).Some? {
        OriginHeld(o.(metric := Some(Atoi(words[1]).value)), rest);
      } else if words[0] == "metric-type" && Atoi(words[1]).Some? {
        OriginHeld(o.(metricType := Some(Atoi(words[1]).value)), rest);
      } else if words[0] == "route-map" {
        OriginHeld(o.(routeMap := Some(words[1])), rest);
      }
    }
  }

  lemma AreaSaidHeld(v: int, words: seq<string>)
    requires AllTokens(words) && AreaSaid(v, words).Some?
    ensures HeldSaying(AreaSaid(v, words).value)
  {
    if |words| == 2 {
      assert IsToken(words[1]);
    }
  }

  lemma RouteSaidHeld(words: seq<string>)
    requires AllTokens(words) && words != [] && RouteSaid(words).Some?
    ensures HeldSaying(RouteSaid(words).value)
  {
    if words[0] == "area" {
      AreaSaidHeld(OspfArea.AreaValue(words[1]).value, words[2..]);
    } else if words[0] == "default-information" {
      OriginHeld(Origin(None, None, None), words[2..]);
    } else {
      assert IsToken(words[1]);
      if |words| == 4 {
        assert IsToken(words[3]);
      }
    }
  }

  lemma NoSaidHeld(words: seq<string>)
    requires AllTokens(words) && NoSaid(words).Some?
    ensures HeldSaying(NoSaid(words).value)
  {
    if |words| == 2 {
      assert IsToken(words[1]);
    }
  }

  lemma SelfSaidHeld(words: seq<string>)
    requires AllTokens(words) && words != [] && SelfSaid(words).Some?
    ensures HeldSaying(SelfSaid(words).value)
  {
    if words[0] == "no" {
      NoSaidHeld(words[1..]);
    } else if |words| == 2 {
      assert IsToken(words[1]);
    }
  }

  lemma KeyHeld(words: seq<string>)
    requires AllTokens(words) && KeyFrom(words).Some?
    ensures IsToken(KeyFrom(words).value.vrf)
  {
    if |words| == 5 {
      assert IsToken(words[4]);
    }
  }

  predicate HeldCommand(cmd: Command) {
    match cmd
    case Say(saying) => HeldSaying(saying)
    case EnterProcess(key) => IsToken(key.vrf)
    case NoProcess(key) => IsToken(key.vrf)
    case _ => true
  }

  lemma CommandHeld(words: seq<string>)
    requires AllTokens(words)
    ensures HeldCommand(CommandOfWords(words))
  {
    if words != [] {
      if RouteSaid(words).Some? {
        RouteSaidHeld(words);
      } else if SelfSaid(words).Some? {
        SelfSaidHeld(words);
      } else if KeyFrom(words).Some? {
        KeyHeld(words);
      } else if words[0] == "no" && KeyFrom(words[1..]).Some? {
        KeyHeld(words[1..]);
      }
    }
  }

  lemma HeardHeld(p: Process, s: Saying)
    requires HeldProcess(p) && HeldSaying(s)
    ensures HeldProcess(Heard(p, s))
  {
    match s
    case KindOfArea(v, _) => AreaHeld(p, v);
    case CostOfArea(v, _) => AreaHeld(p, v);
    case RangeOfArea(v, _) => AreaHeld(p, v);
    case _ =>
  }

  lemma AreaHeld(p: Process, v: int)
    requires HeldProcess(p)
    ensures HeldRanges(AreaOf(p.areas, v).ranges)
  {
  }

  lemma ExecuteHeld(cfg: Config, mode: Mode, cmd: Command)
    requires Held(cfg) && (mode.InProcess? ==> IsToken(mode.key.vrf)) && HeldCommand(cmd)
    ensures Held(Execute(cfg, mode, cmd))
    ensures NextMode(mode, cmd).InProcess? ==> IsToken(NextMode(mode, cmd).key.vrf)
  {
    if cmd.Say? && mode.InProcess? {
      assert HeldProcess(ProcessOf(cfg, mode.key));
      HeardHeld(ProcessOf(cfg, mode.key), cmd.saying);
    } else if cmd.EnterProcess? {
      assert HeldProcess(ProcessOf(cfg, cmd.key));
    }
  }

  /** Whatever is typed, a device keeps holding words only. */
  lemma {:induction false} RunHeld(cfg: Config, mode: Mode, lines: seq<string>)
    requires Held(cfg) && (mode.InProcess? ==> IsToken(mode.key.vrf))
    ensures Held(Effect(PROCESSES, cfg, mode, lines))
    ensures var next := ModeFrom(PROCESSES, mode, lines); next.InProcess? ==> IsToken(next.key.vrf)
  {
    if lines != [] {
      var n := |lines| - 1;
      RunHeld(cfg, mode, lines[..n]);
      CommandHeld(Fields(lines[n]));
      ExecuteHeld(Effect(PROCESSES, cfg, mode, lines[..n]), ModeFrom(PROCESSES, mode, lines[..n]), CommandOf(lines[n]));
    }
  }

  // ---- when the declared process is reached --------------------------------------------------------

  predicate SourcesApart(rows: seq<Ospf.Redistribute>) {
    forall i, j :: 0 <= i < j < |rows| ==> rows[i].source != rows[j].source
  }

  lemma {:induction false} PassiveKeys(before: map<string, bool>, ifaces: seq<string>, on: bool)
    ensures before.Keys <= Passives(before, ifaces, on).Keys
    ensures forall i :: 0 <= i < |ifaces| ==> ifaces[i] in Passives(before, ifaces, on)
  {
    if ifaces != [] {
      var n := |ifaces| - 1;
      assert forall i :: 0 <= i < n ==> ifaces[..n][i] == ifaces[i];
      PassiveKeys(before, ifaces[..n], on);
    }
  }

  lemma {:induction false} RowDeclared(rows: seq<Ospf.Redistribute>, i: nat)
    requires SourcesApart(rows) && i < |rows|
    ensures var m := Redistributed(map[], rows);
            rows[i].source in m && m[rows[i].source] == if Given(rows[i].routeMap) then rows[i].routeMap else None
  {
    var n := |rows| - 1;
    if i < n {
      assert rows[..n][i] == rows[i];
      RowDeclared(rows[..n], i);
    }
  }

  lemma {:induction false} RangesKept(areas: seq<OspfArea.Area>, i: nat)
    requires i < |areas| && areas[i].ranges != []
    ensures var m, v := AreasPut(map[], areas), AreaNumber(areas[i].id);
            v in m && RangeSet(areas[i].ranges) <= m[v].ranges
  {
    var n := |areas| - 1;
    if i < n {
      assert areas[..n][i] == areas[i];
      RangesKept(areas[..n], i);
      PutKeeps(AreasPut(map[], areas[..n]), areas[n], AreaNumber(areas[i].id));
    }
  }

  lemma PutKeeps(m: map<int, AreaConfig>, a: OspfArea.Area, v: int)
    requires v in m
    ensures v in AreaPut(m, a) && m[v].ranges <= AreaPut(m, a)[v].ranges
  {
  }

  lemma SetTokens(s: set<string>, texts: seq<string>)
    requires HeldRanges(s) && RangeSet(texts) <= s
    ensures AllTokens(texts)
  {
    forall i | 0 <= i < |texts| ensures IsToken(texts[i]) {
      assert texts[i] in RangeSet(texts);
    }
  }

  lemma RoutesHeld(args: Ospf.Args, isPrefix: string -> bool)
    requires Ospf.ValidArgs(args, isPrefix) && SourcesApart(args.redistribute) && HeldProcess(Declared(args))
    ensures RouteWords(args)
  {
    var p := Declared(args);
    forall i | 0 <= i < |args.redistribute| ensures RowWords(args.redistribute[i]) {
      RowDeclared(args.redistribute, i);
      assert HeldRow(args.redistribute[i].source, p.redistribute[args.redistribute[i].source]);
    }
    forall i | 0 <= i < |args.areas| ensures AreaWords(args.areas[i]) {
      assert OspfArea.ValidArea(args.areas[i], isPrefix);
      if args.areas[i].ranges != [] {
        RangesKept(args.areas, i);
        SetTokens(p.areas[AreaNumber(args.areas[i].id)].ranges, args.areas[i].ranges);
      }
    }
    forall i | 0 <= i < |args.networks| ensures NetworkWords(args.networks[i]) {
      assert OspfArea.ValidNetwork(args.networks[i], isPrefix);
      NetworkKeys(args.networks, args.networks[i].prefix);
      assert HasNetwork(args.networks, args.networks[i].prefix);
    }
  }

  lemma DeclaredHeld(args: Ospf.Args, isPrefix: string -> bool)
    requires Ospf.ValidArgs(args, isPrefix) && SourcesApart(args.redistribute) && HeldProcess(Declared(args))
    ensures WordsOnly(args)
  {
    var p := Declared(args);
    RoutesHeld(args, isPrefix);
    PassiveKeys(map[], args.noPassive, false);
    PassiveKeys(Passives(map[], args.noPassive, false), args.passive, true);
    assert AllIfaces(args.noPassive) && AllIfaces(args.passive);
    SetTokens(p.summaries, args.summaries);
    if args.defaultInfo.Some? {
      assert HeldOrigin(p.originate.value);
    }
  }

  /** Validation lets VRFs, interfaces and route-maps through that are not single words, and
      interfaces named `default`. When no source is redistributed twice, a device reaches the
      declared process if and only if all texts are single words and no interface has that
      name. */
  lemma ConvergesExactly(cfg: Config, args: Ospf.Args, isPrefix: string -> bool)
    requires Ospf.ValidArgs(args, isPrefix) && SourcesApart(args.redistribute) && Held(cfg)
    ensures Run(PROCESSES, cfg, Ospf.Staged(args, false)) == WithProcess(cfg, KeyOf(args), Declared(args))
       <==> PlainVrf(args) && WordsOnly(args)
  {
    var after := Run(PROCESSES, cfg, Ospf.Staged(args, false));
    if PlainVrf(args) && WordsOnly(args) {
      Converges(cfg, args, false);
    }
    if after == WithProcess(cfg, KeyOf(args), Declared(args)) {
      RunHeld(cfg, Global, Ospf.Staged(args, false));
      assert KeyOf(args) in after && after[KeyOf(args)] == Declared(args);
      DeclaredHeld(args, isPrefix);
    }
  }

  /** One apply over a network that may break any call: the processes are as before, or the
      commit was reached and the process is exactly as declared, or gone. */
  lemma ApplyLeavesDeclared(show: Config -> seq<string>, dev: Device<Config>, session: string, args: Ospf.Args,
                            remove: bool, nets: Nets)
    requires IsToken(session) && PlainVrf(args) && (!remove ==> WordsOnly(args))
    ensures var sem := SemanticsOf(PROCESSES, show);
            AfterApply(sem, dev, session, Ospf.Staged(args, remove), nets).running ==
            if Commits(nets)
            then HasProcess(Replay(sem, dev.running, Batches(dev, session)), KeyOf(args), Wanted(args, remove))
            else dev.running
  {
    var before := Replay(SemanticsOf(PROCESSES, show), dev.running, Batches(dev, session));
    StagedRuns(before, args, remove);
    assert Ospf.Staged(args, remove) != [];
    ApplyTakes(PROCESSES, show, dev, session, Ospf.Staged(args, remove), nets,
               HasProcess(before, KeyOf(args), Wanted(args, remove)), Global);
  }
  lemma VrfShape(n: string, vrf: string)
    ensures "router ospf " + n + " vrf " + vrf == ("router" + " " + "ospf" + " " + n + " " + "vrf") + " " + vrf
  {
  }

  lemma VrfFields(args: Ospf.Args)
    requires Given(args.vrf)
    ensures Fields(Ospf.HeaderOf(args)) == ["router", "ospf", Itoa(args.instance), "vrf"] + Fields(args.vrf.value)
  {
    var n := Itoa(args.instance);
    ItoaToken(args.instance);
    VrfShape(n, args.vrf.value);
    Words4("router", "ospf", n, "vrf");
    FieldsAppend("router" + " " + "ospf" + " " + n + " " + "vrf", args.vrf.value);
  }

  lemma VrfKey(n: string, i: Int, words: seq<string>)
    requires Atoi(n) == Some(i)
    ensures KeyFrom(["router", "ospf", n, "vrf"] + words)
         == if |words| == 1 then Some(Key(i, words[0])) else None
  {
  }

  lemma RemovalRead(args: Ospf.Args, line: string)
    requires Given(args.vrf) && line == "no " + Ospf.HeaderOf(args)
    ensures CommandOf(line) == if |Fields(args.vrf.value)| == 1
                               then NoProcess(Key(args.instance, Fields(args.vrf.value)[0])) else Unknown
  {
    var words := ["router", "ospf", Itoa(args.instance), "vrf"] + Fields(args.vrf.value);
    AtoiItoa(args.instance);
    NoFields(Ospf.HeaderOf(args), line);
    VrfFields(args);
    VrfKey(Itoa(args.instance), args.instance, Fields(args.vrf.value));
    RouterSaysNothing(words);
  }

  /** A removal leaves out exactly its own process, unless its VRF is another one's name with
      blanks around it, and that process is there: then it is that one that goes. */
  lemma RemovesExactly(cfg: Config, args: Ospf.Args)
    requires Held(cfg)
    ensures Run(PROCESSES, cfg, Ospf.Staged(args, true)) == cfg - {KeyOf(args)}
       <==> (PlainVrf(args) || |Fields(args.vrf.value)| != 1
             || Key(args.instance, Fields(args.vrf.value)[0]) !in cfg)
  {
    if PlainVrf(args) {
      Converges(cfg, args, true);
    } else {
      OddVrfRemoves(cfg, args);
      Without(cfg, KeyOf(args));
      if |Fields(args.vrf.value)| == 1 {
        Without(cfg, Key(args.instance, Fields(args.vrf.value)[0]));
      }
    }
  }

  lemma OddVrfRemoves(cfg: Config, args: Ospf.Args)
    requires Given(args.vrf)
    ensures Run(PROCESSES, cfg, Ospf.Staged(args, true))
         == if |Fields(args.vrf.value)| == 1 then cfg - {Key(args.instance, Fields(args.vrf.value)[0])} else cfg
  {
    var line := "no " + Ospf.HeaderOf(args);
    RemovalRead(args, line);
    OneLine(PROCESSES, cfg, Global, line);
  }

  lemma Without(cfg: Config, key: Key)
    ensures cfg - {key} == cfg <==> key !in cfg
  {
    assert key !in cfg - {key};
  }

  const BARE :=
    Ospf.Args(1, None, None, None, None, None, None, None, [], [], [], [], [], None, [], None, None, None, None)

  /** A valid process of a VRF of two words, which no device ever reaches, */
  lemma TwoWordVrfMissed(cfg: Config, isPrefix: string -> bool) returns (args: Ospf.Args)
    requires Held(cfg)
    ensures args == BARE.(vrf := Some("a b")) && Ospf.ValidArgs(args, isPrefix)
    ensures Run(PROCESSES, cfg, Ospf.Staged(args, false)) != WithProcess(cfg, KeyOf(args), Declared(args))
  {
    args := BARE.(vrf := Some("a b"));
    TwoWordsText("a b");
    ConvergesExactly(cfg, args, isPrefix);
  }

  /** and one with a passive interface `default`, which turns the process-wide default on. */
  lemma DefaultInterfaceMissed(cfg: Config, isPrefix: string -> bool) returns (args: Ospf.Args)
    requires Held(cfg)
    ensures args == BARE.(passive := ["default"]) && Ospf.ValidArgs(args, isPrefix)
    ensures Run(PROCESSES, cfg, Ospf.Staged(args, false)) != WithProcess(cfg, KeyOf(args), Declared(args))
  {
    args := BARE.(passive := ["default"]);
    assert !IsIface(args.passive[0]);
    ConvergesExactly(cfg, args, isPrefix);
  }
}
