/** What the lines of an OSPF block mean to the device: a reader for each line, written from
    the CLI's point of view, and the process that a block of lines builds up. */
module OspfProcess {
  import opened Seqs
  import opened Text
  import opened Rendering
  import opened Scanner
  import opened Sorting
  import OspfArea
  import Ospf = OspfSection

  datatype Setting =
    | AutoCost | IntraArea | InterArea | External | MaxLsa | OutDelay | PacingFlood | MaximumPaths

  datatype NssaDefault = NssaDefault(metric: Option<int>, metricType: Option<int>, only: bool)

  datatype AreaType = Normal | Stub(noSummary: bool) | Nssa(originate: Option<NssaDefault>)

  datatype AreaConfig = AreaConfig(kind: AreaType, cost: Option<int>, ranges: set<string>)

  datatype Origin = Origin(metric: Option<int>, metricType: Option<int>, routeMap: Option<string>)

  datatype LogLevel = Off | On | Detail

  datatype Spf = Spf(initial: int, hold: int, max: int)

  /** A process; areas are the numbers they denote, whatever their spelling. */
  datatype Process = Process(
    routerId: Option<string>,
    shutdown: bool,
    numbers: map<Setting, int>,
    passiveDefault: bool,
    passive: map<string, bool>,
    redistribute: map<string, Option<string>>,
    areas: map<int, AreaConfig>,
    networks: map<string, int>,
    log: Option<LogLevel>,
    spf: Option<Spf>,
    originate: Option<Origin>,
    summaries: set<string>,
    helper: bool)

  const EMPTY := Process(None, false, map[], false, map[], map[], map[], map[], None, None, None, {}, false)

  const PLAIN_AREA := AreaConfig(Normal, None, {})

  datatype Saying =
    | RouterId(id: string)
    | Shutdown(on: bool)
    | Number(setting: Setting, n: int)
    | PassiveDefault(on: bool)
    | Passive(iface: string, on: bool)
    | Redistribute(source: string, routeMap: Option<string>)
    | KindOfArea(area: int, kind: AreaType)
    | CostOfArea(area: int, cost: int)
    | RangeOfArea(area: int, prefix: string)
    | Network(prefix: string, area: int)
    | Log(level: LogLevel)
    | SpfDelay(spf: Spf)
    | Originate(origin: Origin)
    | Summary(prefix: string)
    | Helper

  // ---- reading a line -----------------------------------------------------------------------

  function NumberSaid(setting: Setting, word: string): Option<Saying> {
    if Atoi(word).Some? then Some(Number(setting, Atoi(word).value)) else None
  }

  function DistanceSaid(words: seq<string>): Option<Saying> {
    if |words| != 4 || words[1] != "ospf" then None
    else
      match words[2]
      case "intra-area" => NumberSaid(IntraArea, words[3])
      case "inter-area" => NumberSaid(InterArea, words[3])
      case "external" => NumberSaid(External, words[3])
      case _ => None
  }

  /** Options of a default route, in pairs. */
  function OriginFrom(o: Origin, words: seq<string>): Option<Origin>
    decreases |words|
  {
    if words == [] then Some(o)
    else if |words| == 1 then None
    else if words[0] == "metric" && Atoi(words[1]).Some?
      then OriginFrom(o.(metric := Some(Atoi(words[1]).value)), words[2..])
    else if words[0] == "metric-type" && Atoi(words[1]).Some?
      then OriginFrom(o.(metricType := Some(Atoi(words[1]).value)), words[2..])
    else if words[0] == "route-map" then OriginFrom(o.(routeMap := Some(words[1])), words[2..])
    else None
  }

  function NssaFrom(d: NssaDefault, words: seq<string>): Option<NssaDefault>
    decreases |words|
  {
    if words == [] then Some(d)
    else if |words| == 1 then if words[0] == "nssa-only" then Some(d.(only := true)) else None
    else if words[0] == "metric" && Atoi(words[1]).Some?
      then NssaFrom(d.(metric := Some(Atoi(words[1]).value)), words[2..])
    else if words[0] == "metric-type" && Atoi(words[1]).Some?
      then NssaFrom(d.(metricType := Some(Atoi(words[1]).value)), words[2..])
    else None
  }

  function NssaSaid(area: int, words: seq<string>): Option<Saying> {
    if words == [] then Some(KindOfArea(area, Nssa(None)))
    else if words[0] == "default-information-originate" then
      match NssaFrom(NssaDefault(None, None, false), words[1..])
      case Some(d) => Some(KindOfArea(area, Nssa(Some(d))))
      case None => None
    else None
  }

  /** What is said of an area, by the words after its identifier. */
  function AreaSaid(area: int, words: seq<string>): Option<Saying> {
    if words == [] then None
    else
      match words[0]
      case "stub" =>
        if |words| == 1 then Some(KindOfArea(area, Stub(false)))
        else if |words| == 2 && words[1] == "no-summary" then Some(KindOfArea(area, Stub(true)))
        else None
      case "nssa" => NssaSaid(area, words[1..])
      case "default-cost" =>
        if |words| == 2 && Atoi(words[1]).Some? then Some(CostOfArea(area, Atoi(words[1]).value)) else None
      case "range" => if |words| == 2 then Some(RangeOfArea(area, words[1])) else None
      case _ => None
  }

  function TimersSaid(words: seq<string>): Option<Saying> {
    if |words| == 3 && words[1] == "out-delay" then NumberSaid(OutDelay, words[2])
    else if |words| == 4 && words[1] == "pacing" && words[2] == "flood" then NumberSaid(PacingFlood, words[3])
    else if |words| == 7 && words[1] == "spf" && words[2] == "delay" && words[3] == "initial"
      && Atoi(words[4]).Some? && Atoi(words[5]).Some? && Atoi(words[6]).Some?
      then Some(SpfDelay(Spf(Atoi(words[4]).value, Atoi(words[5]).value, Atoi(words[6]).value)))
    else None
  }

  function RedistributeSaid(words: seq<string>): Option<Saying> {
    if |words| == 2 then Some(Redistribute(words[1], None))
    else if |words| == 4 && words[2] == "route-map" then Some(Redistribute(words[1], Some(words[3])))
    else None
  }

  function PassiveSaid(iface: string, on: bool): Saying {
    if iface == "default" then PassiveDefault(on) else Passive(iface, on)
  }

  function NoSaid(words: seq<string>): Option<Saying> {
    if words == [] then None
    else
      match words[0]
      case "shutdown" => if |words| == 1 then Some(Shutdown(false)) else None
      case "passive-interface" => if |words| == 2 then Some(PassiveSaid(words[1], false)) else None
      case "log-adjacency-changes" => if |words| == 1 then Some(Log(Off)) else None
      case _ => None
  }

  /** Lines about neighbours and destinations. */
  function RouteSaid(words: seq<string>): Option<Saying>
    requires words != []
  {
    match words[0]
    case "redistribute" => RedistributeSaid(words)
    case "area" =>
      if |words| >= 2 && OspfArea.AreaValue(words[1]).Some?
      then AreaSaid(OspfArea.AreaValue(words[1]).value, words[2..]) else None
    case "network" =>
      if |words| == 4 && words[2] == "area" && OspfArea.AreaValue(words[3]).Some?
      then Some(Network(words[1], OspfArea.AreaValue(words[3]).value)) else None
    case "default-information" =>
      if |words| >= 2 && words[1] == "originate" then
        match OriginFrom(Origin(None, None, None), words[2..])
        case Some(o) => Some(Originate(o))
        case None => None
      else None
    case "summary-address" => if |words| == 2 then Some(Summary(words[1])) else None
    case _ => None
  }

  /** Lines about the process itself. */
  function SelfSaid(words: seq<string>): Option<Saying>
    requires words != []
  {
    match words[0]
    case "router-id" => if |words| == 2 then Some(RouterId(words[1])) else None
    case "shutdown" => if |words| == 1 then Some(Shutdown(true)) else None
    case "auto-cost" =>
      if |words| == 3 && words[1] == "reference-bandwidth" then NumberSaid(AutoCost, words[2]) else None
    case "distance" => DistanceSaid(words)
    case "passive-interface" => if |words| == 2 then Some(PassiveSaid(words[1], true)) else None
    case "max-lsa" => if |words| == 2 then NumberSaid(MaxLsa, words[1]) else None
    case "log-adjacency-changes" =>
      if |words| == 1 then Some(Log(On))
      else if |words| == 2 && words[1] == "detail" then Some(Log(Detail))
      else None
    case "timers" => TimersSaid(words)
    case "maximum-paths" => if |words| == 2 then NumberSaid(MaximumPaths, words[1]) else None
    case "graceful-restart-helper" => if |words| == 1 then Some(Helper) else None
    case "no" => NoSaid(words[1..])
    case _ => None
  }

  function SayingOfWords(words: seq<string>): Option<Saying> {
    if words == [] then None
    else if RouteSaid(words).Some? then RouteSaid(words)
    else SelfSaid(words)
  }

  function SayingOf(line: string): Option<Saying> {
    SayingOfWords(Fields(line))
  }

  // ---- what a process makes of it ----------------------------------------------------------------

  function AreaOf(areas: map<int, AreaConfig>, area: int): AreaConfig {
    if area in areas then areas[area] else PLAIN_AREA
  }

  /** Ranges and summaries add up, passive settings are per interface, redistribution is per
      source, a network lies in one area; the rest has one value. */
  function Heard(p: Process, saying: Saying): Process {
    match saying
    case RouterId(id) => p.(routerId := Some(id))
    case Shutdown(on) => p.(shutdown := on)
    case Number(setting, n) => p.(numbers := p.numbers[setting := n])
    case PassiveDefault(on) => p.(passiveDefault := on)
    case Passive(iface, on) => p.(passive := p.passive[iface := on])
    case Redistribute(source, routeMap) => p.(redistribute := p.redistribute[source := routeMap])
    case KindOfArea(area, kind) => p.(areas := p.areas[area := AreaOf(p.areas, area).(kind := kind)])
    case CostOfArea(area, cost) => p.(areas := p.areas[area := AreaOf(p.areas, area).(cost := Some(cost))])
    case RangeOfArea(area, prefix) =>
      var a := AreaOf(p.areas, area);
      p.(areas := p.areas[area := a.(ranges := a.ranges + {prefix})])
    case Network(prefix, area) => p.(networks := p.networks[prefix := area])
    case Log(level) => p.(log := Some(level))
    case SpfDelay(spf) => p.(spf := Some(spf))
    case Originate(origin) => p.(originate := Some(origin))
    case Summary(prefix) => p.(summaries := p.summaries + {prefix})
    case Helper => p.(helper := true)
  }

  const HEAR := (p: Process, line: string) =>
    match SayingOf(line) case Some(saying) => Heard(p, saying) case None => p

  predicate AllKnown(lines: seq<string>) {
    forall i :: 0 <= i < |lines| ==> SayingOf(lines[i]).Some?
  }

  /** A process that hears these lines, all of which it knows. */
  predicate Hears(p: Process, lines: seq<string>, after: Process) {
    AllKnown(lines) && Scan(p, lines, HEAR) == after
  }

  lemma HearsNone(p: Process)
    ensures Hears(p, [], p)
  {
  }

  lemma HearsThen(p: Process, a: seq<string>, mid: Process, b: seq<string>, after: Process)
    requires Hears(p, a, mid) && Hears(mid, b, after)
    ensures Hears(p, a + b, after)
  {
    ScanAppend(p, a, b, HEAR);
  }

  lemma HearsOne(p: Process, lines: seq<string>, line: string, saying: Saying)
    requires lines == [line] && SayingOf(line) == Some(saying)
    ensures Hears(p, lines, Heard(p, saying))
  {
    ScanOne(p, line, HEAR);
  }

  lemma HearsMore(p: Process, lines: seq<string>, mid: Process, line: string, saying: Saying, after: Process)
    requires Hears(p, lines, mid) && SayingOf(line) == Some(saying) && Heard(mid, saying) == after
    ensures Hears(p, lines + [line], after)
  {
    HearsOne(mid, [line], line, saying);
    HearsThen(p, lines, mid, [line], after);
  }

  lemma HeardAs(p: Process, lines: seq<string>, line: string, saying: Saying, after: Process)
    requires lines == [line] && SayingOf(line) == Some(saying) && Heard(p, saying) == after
    ensures Hears(p, lines, after)
  {
    HearsOne(p, lines, line, saying);
  }

  lemma NoneHeard(p: Process, lines: seq<string>, after: Process)
    requires lines == [] && after == p
    ensures Hears(p, lines, after)
  {
    HearsNone(p);
  }

  /** A line that is there only if `on`. */
  lemma HearsIf(p: Process, on: bool, lines: seq<string>, line: string, saying: Saying)
    requires SayingOf(line) == Some(saying) && lines == if on then [line] else []
    ensures Hears(p, lines, if on then Heard(p, saying) else p)
  {
    if on {
      HearsOne(p, lines, line, saying);
    }
  }

  lemma HearsThree(p: Process, a: seq<string>, p1: Process, b: seq<string>, p2: Process, c: seq<string>, after: Process)
    requires Hears(p, a, p1) && Hears(p1, b, p2) && Hears(p2, c, after)
    ensures Hears(p, a + b + c, after)
  {
    HearsThen(p, a, p1, b, p2);
    HearsThen(p, a + b, p2, c, after);
  }

  // ---- lines with a number ------------------------------------------------------------------------

  function WithNumber(p: Process, setting: Setting, n: Option<Int>): Process {
    p.(numbers := if n.Some? then p.numbers[setting := n.value] else p.numbers)
  }

  lemma NumberedHeard(p: Process, head: string, n: Option<Int>, setting: Setting)
    requires n.Some? ==> SayingOf(head + Itoa(n.value)) == Some(Number(setting, n.value))
    ensures Hears(p, Numbered(head, n), WithNumber(p, setting, n))
  {
    if n.Some? {
      HearsOne(p, Numbered(head, n), head + Itoa(n.value), Number(setting, n.value));
    }
  }

  // Each line is read for any word that is a number, and literals are handed over in
  // variables: the solver would work out the words of a literal by itself, at a high price.

  lemma TwoWordsSaid(line: string, a: string, word: string, n: Int)
    requires Fields(line) == [a, word] && Atoi(word) == Some(n)
    ensures a == "max-lsa" ==> SayingOf(line) == Some(Number(MaxLsa, n))
    ensures a == "maximum-paths" ==> SayingOf(line) == Some(Number(MaximumPaths, n))
  {
  }

  lemma MaxLsaRead(word: string, n: Int)
    requires IsToken(word) && Atoi(word) == Some(n)
    ensures SayingOf("max-lsa " + word) == Some(Number(MaxLsa, n))
  {
    TwoWordLine("max-lsa ", "max-lsa", word);
    TwoWordsSaid("max-lsa " + word, "max-lsa", word, n);
  }

  lemma PathsRead(word: string, n: Int)
    requires IsToken(word) && Atoi(word) == Some(n)
    ensures SayingOf("maximum-paths " + word) == Some(Number(MaximumPaths, n))
  {
    TwoWordLine("maximum-paths ", "maximum-paths", word);
    TwoWordsSaid("maximum-paths " + word, "maximum-paths", word, n);
  }

  lemma ThreeWordsSaid(line: string, a: string, b: string, word: string, n: Int)
    requires Fields(line) == [a, b, word] && Atoi(word) == Some(n)
    ensures a == "auto-cost" && b == "reference-bandwidth" ==> SayingOf(line) == Some(Number(AutoCost, n))
    ensures a == "timers" && b == "out-delay" ==> SayingOf(line) == Some(Number(OutDelay, n))
  {
  }

  lemma CostHead()
    ensures "auto-cost reference-bandwidth " == "auto-cost" + " " + "reference-bandwidth" + " "
  {
  }

  lemma CostRead(word: string, n: Int)
    requires IsToken(word) && Atoi(word) == Some(n)
    ensures SayingOf("auto-cost reference-bandwidth " + word) == Some(Number(AutoCost, n))
  {
    CostHead();
    ThreeWordLine("auto-cost reference-bandwidth ", "auto-cost", "reference-bandwidth", word);
    ThreeWordsSaid("auto-cost reference-bandwidth " + word, "auto-cost", "reference-bandwidth", word, n);
  }

  lemma DelayHead()
    ensures "timers out-delay " == "timers" + " " + "out-delay" + " "
  {
  }

  lemma DelayRead(word: string, n: Int)
    requires IsToken(word) && Atoi(word) == Some(n)
    ensures SayingOf("timers out-delay " + word) == Some(Number(OutDelay, n))
  {
    DelayHead();
    ThreeWordLine("timers out-delay ", "timers", "out-delay", word);
    ThreeWordsSaid("timers out-delay " + word, "timers", "out-delay", word, n);
  }

  lemma FloodSaid(line: string, a: string, b: string, c: string, word: string, n: Int)
    requires Fields(line) == [a, b, c, word] && Atoi(word) == Some(n)
    requires a == "timers" && b == "pacing" && c == "flood"
    ensures SayingOf(line) == Some(Number(PacingFlood, n))
  {
  }

  lemma FloodHead()
    ensures "timers pacing flood " == "timers" + " " + "pacing" + " " + "flood" + " "
  {
  }

  lemma FloodRead(word: string, n: Int)
    requires IsToken(word) && Atoi(word) == Some(n)
    ensures SayingOf("timers pacing flood " + word) == Some(Number(PacingFlood, n))
  {
    FloodHead();
    FourWordLine("timers pacing flood ", "timers", "pacing", "flood", word);
    FloodSaid("timers pacing flood " + word, "timers", "pacing", "flood", word, n);
  }

  lemma DistanceWords(line: string, a: string, b: string, kind: string, word: string, n: Int)
    requires Fields(line) == [a, b, kind, word] && Atoi(word) == Some(n)
    requires a == "distance" && b == "ospf"
    ensures kind == "intra-area" ==> SayingOf(line) == Some(Number(IntraArea, n))
    ensures kind == "inter-area" ==> SayingOf(line) == Some(Number(InterArea, n))
    ensures kind == "external" ==> SayingOf(line) == Some(Number(External, n))
  {
  }

  lemma DistanceHeads()
    ensures "distance ospf intra-area " == "distance" + " " + "ospf" + " " + "intra-area" + " "
    ensures "distance ospf inter-area " == "distance" + " " + "ospf" + " " + "inter-area" + " "
    ensures "distance ospf external " == "distance" + " " + "ospf" + " " + "external" + " "
  {
  }

  lemma DistanceRead(head: string, kind: string, word: string, n: Int)
    requires IsToken(kind) && IsToken(word) && Atoi(word) == Some(n)
    requires head == "distance" + " " + "ospf" + " " + kind + " "
    ensures kind == "intra-area" ==> SayingOf(head + word) == Some(Number(IntraArea, n))
    ensures kind == "inter-area" ==> SayingOf(head + word) == Some(Number(InterArea, n))
    ensures kind == "external" ==> SayingOf(head + word) == Some(Number(External, n))
  {
    FourWordLine(head, "distance", "ospf", kind, word);
    DistanceWords(head + word, "distance", "ospf", kind, word, n);
  }
  // ---- identifier, state, cost, distances -------------------------------------------------------

  function WithRouterId(p: Process, id: Option<string>): Process {
    p.(routerId := if Given(id) then id else p.routerId)
  }

  function WithShutdown(p: Process, shutdown: Option<bool>): Process {
    p.(shutdown := if shutdown.Some? then shutdown.value else p.shutdown)
  }

  lemma RouterIdSaid(line: string, word: string, id: string)
    requires Fields(line) == [word, id] && word == "router-id"
    ensures SayingOf(line) == Some(RouterId(id))
  {
  }

  lemma RouterIdHeard(p: Process, args: Ospf.Args)
    requires Given(args.routerId) ==> IsToken(args.routerId.value)
    ensures Hears(p, Ospf.RouterIdLines(args), WithRouterId(p, args.routerId))
  {
    if Given(args.routerId) {
      var id := args.routerId.value;
      TwoWordLine("router-id ", "router-id", id);
      RouterIdSaid("router-id " + id, "router-id", id);
      HearsOne(p, Ospf.RouterIdLines(args), "router-id " + id, RouterId(id));
    }
  }

  lemma OneWordSaid(line: string, word: string)
    requires Fields(line) == [word]
    ensures word == "shutdown" ==> SayingOf(line) == Some(Shutdown(true))
    ensures word == "graceful-restart-helper" ==> SayingOf(line) == Some(Helper)
    ensures word == "log-adjacency-changes" ==> SayingOf(line) == Some(Log(On))
  {
  }

  lemma NoWordSaid(line: string, no: string, word: string)
    requires Fields(line) == [no, word] && no == "no"
    ensures word == "shutdown" ==> SayingOf(line) == Some(Shutdown(false))
    ensures word == "log-adjacency-changes" ==> SayingOf(line) == Some(Log(Off))
  {
    assert [no, word][1..] == [word];
  }

  lemma ShutdownLine(on: bool) returns (line: string)
    ensures line == if on then "shutdown" else "no shutdown"
    ensures SayingOf(line) == Some(Shutdown(on))
  {
    if on {
      line := "shutdown";
      WordRead(line);
    } else {
      line := "no shutdown";
      NoRead(line, "shutdown");
    }
  }

  lemma WordRead(word: string)
    requires IsToken(word)
    ensures word == "shutdown" ==> SayingOf(word) == Some(Shutdown(true))
    ensures word == "graceful-restart-helper" ==> SayingOf(word) == Some(Helper)
    ensures word == "log-adjacency-changes" ==> SayingOf(word) == Some(Log(On))
  {
    FieldsToken(word);
    OneWordSaid(word, word);
  }

  lemma NoRead(line: string, word: string)
    requires line == "no " + word && IsToken(word)
    ensures word == "shutdown" ==> SayingOf(line) == Some(Shutdown(false))
    ensures word == "log-adjacency-changes" ==> SayingOf(line) == Some(Log(Off))
  {
    TwoWordLine("no ", "no", word);
    NoWordSaid(line, "no", word);
  }

  lemma ShutdownHeard(p: Process, args: Ospf.Args)
    ensures Hears(p, Ospf.ShutdownLines(args), WithShutdown(p, args.shutdown))
  {
    if args.shutdown.Some? {
      var line := ShutdownLine(args.shutdown.value);
      HearsOne(p, Ospf.ShutdownLines(args), line, Shutdown(args.shutdown.value));
    }
  }

  lemma CostHeard(p: Process, args: Ospf.Args)
    ensures Hears(p, Ospf.CostLines(args), WithNumber(p, AutoCost, args.autoCost))
  {
    if args.autoCost.Some? {
      AtoiItoa(args.autoCost.value);
      ItoaToken(args.autoCost.value);
      CostRead(Itoa(args.autoCost.value), args.autoCost.value);
    }
    NumberedHeard(p, "auto-cost reference-bandwidth ", args.autoCost, AutoCost);
  }

  function WithScalars(p: Process, args: Ospf.Args): Process {
    WithNumber(WithShutdown(WithRouterId(p, args.routerId), args.shutdown), AutoCost, args.autoCost)
  }

  lemma ScalarsHeard(p: Process, args: Ospf.Args)
    requires Given(args.routerId) ==> IsToken(args.routerId.value)
    ensures Hears(p, Ospf.ScalarLines(args), WithScalars(p, args))
  {
    var p1 := WithRouterId(p, args.routerId);
    var p2 := WithShutdown(p1, args.shutdown);
    RouterIdHeard(p, args);
    ShutdownHeard(p1, args);
    CostHeard(p2, args);
    HearsThree(p, Ospf.RouterIdLines(args), p1, Ospf.ShutdownLines(args), p2, Ospf.CostLines(args),
               WithScalars(p, args));
  }

  function Intra(args: Ospf.Args): Option<Int> {
    if args.distance.Some? then args.distance.value.intraArea else None
  }

  function Inter(args: Ospf.Args): Option<Int> {
    if args.distance.Some? then args.distance.value.interArea else None
  }

  function Ext(args: Ospf.Args): Option<Int> {
    if args.distance.Some? then args.distance.value.external else None
  }

  function WithDistances(p: Process, args: Ospf.Args): Process {
    WithNumber(WithNumber(WithNumber(p, IntraArea, Intra(args)), InterArea, Inter(args)), External, Ext(args))
  }

  lemma DistanceHeard(p: Process, head: string, kind: string, n: Option<Int>, setting: Setting)
    requires head == "distance" + " " + "ospf" + " " + kind + " " && IsToken(kind)
    requires || (kind == "intra-area" && setting == IntraArea)
             || (kind == "inter-area" && setting == InterArea)
             || (kind == "external" && setting == External)
    ensures Hears(p, Numbered(head, n), WithNumber(p, setting, n))
  {
    if n.Some? {
      AtoiItoa(n.value);
      ItoaToken(n.value);
      DistanceRead(head, kind, Itoa(n.value), n.value);
    }
    NumberedHeard(p, head, n, setting);
  }

  lemma DistancesHeard(p: Process, args: Ospf.Args)
    ensures Hears(p, Ospf.DistanceLines(args), WithDistances(p, args))
  {
    if args.distance.None? {
      HearsNone(p);
    } else {
      var p1 := WithNumber(p, IntraArea, Intra(args));
      var p2 := WithNumber(p1, InterArea, Inter(args));
      DistanceHeads();
      DistanceHeard(p, "distance ospf intra-area ", "intra-area", Intra(args), IntraArea);
      DistanceHeard(p1, "distance ospf inter-area ", "inter-area", Inter(args), InterArea);
      DistanceHeard(p2, "distance ospf external ", "external", Ext(args), External);
      HearsThree(p, Numbered("distance ospf intra-area ", Intra(args)), p1,
                 Numbered("distance ospf inter-area ", Inter(args)), p2,
                 Numbered("distance ospf external ", Ext(args)), WithDistances(p, args));
    }
  }

  // ---- interfaces --------------------------------------------------------------------------------

  /** Names of interfaces: single words, and not the keyword. */
  predicate IsIface(name: string) {
    IsToken(name) && name != "default"
  }

  predicate AllIfaces(names: seq<string>) {
    forall i :: 0 <= i < |names| ==> IsIface(names[i])
  }

  function WithPassives(p: Process, ifaces: seq<string>, on: bool): Process {
    p.(passive := Passives(p.passive, ifaces, on))
  }

  function Passives(before: map<string, bool>, ifaces: seq<string>, on: bool): map<string, bool> {
    if ifaces == [] then before
    else
      var n := |ifaces| - 1;
      Passives(before, ifaces[..n], on)[ifaces[n] := on]
  }

  lemma PassiveWords(line: string, word: string, iface: string)
    requires Fields(line) == [word, iface] && word == "passive-interface"
    ensures SayingOf(line) == Some(PassiveSaid(iface, true))
  {
  }

  lemma NoPassiveWords(line: string, no: string, word: string, iface: string)
    requires Fields(line) == [no, word, iface] && no == "no" && word == "passive-interface"
    ensures SayingOf(line) == Some(PassiveSaid(iface, false))
  {
    assert [no, word, iface][1..] == [word, iface];
  }

  lemma NoPassiveHead()
    ensures "no passive-interface " == "no" + " " + "passive-interface" + " "
  {
  }

  function PassiveHead(on: bool): string {
    if on then "passive-interface " else "no passive-interface "
  }

  lemma OnRead(head: string, iface: string)
    requires IsToken(iface) && head == "passive-interface "
    ensures SayingOf(head + iface) == Some(PassiveSaid(iface, true))
  {
    TwoWordLine(head, "passive-interface", iface);
    PassiveWords(head + iface, "passive-interface", iface);
  }

  lemma OffRead(head: string, iface: string)
    requires IsToken(iface) && head == "no passive-interface "
    ensures SayingOf(head + iface) == Some(PassiveSaid(iface, false))
  {
    NoPassiveHead();
    ThreeWordLine(head, "no", "passive-interface", iface);
    NoPassiveWords(head + iface, "no", "passive-interface", iface);
  }

  lemma PassiveRead(iface: string, on: bool)
    requires IsToken(iface)
    ensures SayingOf(PassiveHead(on) + iface) == Some(PassiveSaid(iface, on))
  {
    if on {
      OnRead(PassiveHead(on), iface);
    } else {
      OffRead(PassiveHead(on), iface);
    }
  }

  lemma EachLast(head: string, ifaces: seq<string>)
    requires ifaces != []
    ensures var n := |ifaces| - 1; Each(head, ifaces) == Each(head, ifaces[..n]) + [head + ifaces[n]]
  {
  }

  lemma PassivesGrow(p: Process, ifaces: seq<string>, on: bool)
    requires ifaces != []
    ensures var n := |ifaces| - 1;
            Heard(WithPassives(p, ifaces[..n], on), Passive(ifaces[n], on)) == WithPassives(p, ifaces, on)
  {
  }

  lemma {:induction false} PassivesHeard(p: Process, ifaces: seq<string>, on: bool)
    requires AllIfaces(ifaces)
    ensures Hears(p, Each(PassiveHead(on), ifaces), WithPassives(p, ifaces, on))
  {
    if ifaces == [] {
      HearsNone(p);
    } else {
      var n := |ifaces| - 1;
      var front, last := ifaces[..n], ifaces[n];
      assert forall i :: 0 <= i < n ==> front[i] == ifaces[i];
      assert IsIface(last);
      PassivesHeard(p, front, on);
      PassiveRead(last, on);
      PassivesGrow(p, ifaces, on);
      EachLast(PassiveHead(on), ifaces);
      HearsMore(p, Each(PassiveHead(on), front), WithPassives(p, front, on), PassiveHead(on) + last, Passive(last, on),
                WithPassives(p, ifaces, on));
    }
  }

  function WithDefault(p: Process, passiveDefault: Option<bool>): Process {
    p.(passiveDefault := passiveDefault == Some(true) || p.passiveDefault)
  }

  lemma DefaultRead(line: string)
    requires line == "passive-interface default"
    ensures SayingOf(line) == Some(PassiveDefault(true))
  {
    var word := "default";
    assert line == PassiveHead(true) + word;
    PassiveRead(word, true);
  }

  lemma DefaultHeard(p: Process, args: Ospf.Args)
    ensures Hears(p, Ospf.PassiveDefaultLines(args), WithDefault(p, args.passiveDefault))
  {
    var line := DefaultLine(args);
    DefaultSaid(p, args.passiveDefault, Ospf.PassiveDefaultLines(args), line);
  }

  lemma DefaultLine(args: Ospf.Args) returns (line: string)
    ensures SayingOf(line) == Some(PassiveDefault(true))
    ensures Ospf.PassiveDefaultLines(args) == if args.passiveDefault == Some(true) then [line] else []
  {
    line := "passive-interface default";
    DefaultRead(line);
  }

  lemma DefaultSaid(p: Process, passiveDefault: Option<bool>, lines: seq<string>, line: string)
    requires SayingOf(line) == Some(PassiveDefault(true))
    requires lines == if passiveDefault == Some(true) then [line] else []
    ensures Hears(p, lines, WithDefault(p, passiveDefault))
  {
    HearsIf(p, passiveDefault == Some(true), lines, line, PassiveDefault(true));
  }

  function WithInterfaces(p: Process, args: Ospf.Args): Process {
    WithPassives(WithPassives(WithDefault(p, args.passiveDefault), args.noPassive, false), args.passive, true)
  }

  lemma InterfacesHeard(p: Process, args: Ospf.Args)
    requires AllIfaces(args.noPassive) && AllIfaces(args.passive)
    ensures Hears(p, Ospf.InterfaceLines(args), WithInterfaces(p, args))
  {
    var p1 := WithDefault(p, args.passiveDefault);
    var p2 := WithPassives(p1, args.noPassive, false);
    DefaultHeard(p, args);
    PassivesHeard(p1, args.noPassive, false);
    PassivesHeard(p2, args.passive, true);
    HearsThree(p, Ospf.PassiveDefaultLines(args), p1, Ospf.NoPassiveLines(args), p2, Ospf.PassiveLines(args),
               WithInterfaces(p, args));
  }

  // ---- redistribution and networks ----------------------------------------------------------------

  function Redistributed(before: map<string, Option<string>>, rows: seq<Ospf.Redistribute>)
    : map<string, Option<string>>
  {
    if rows == [] then before
    else
      var n := |rows| - 1;
      Redistributed(before, rows[..n])[rows[n].source := if Given(rows[n].routeMap) then rows[n].routeMap else None]
  }

  predicate RowWords(r: Ospf.Redistribute) {
    IsToken(r.source) && (Given(r.routeMap) ==> IsToken(r.routeMap.value))
  }

  lemma RedistributeWords(line: string, words: seq<string>)
    requires Fields(line) == words && words != [] && words[0] == "redistribute" && RedistributeSaid(words).Some?
    ensures SayingOf(line) == RedistributeSaid(words)
  {
  }

  lemma RedistributeLine(source: string, routeMap: string)
    ensures "redistribute " + source == "redistribute" + " " + source
    ensures "redistribute " + source + " route-map " + routeMap
         == "redistribute" + " " + source + " " + "route-map" + " " + routeMap
  {
  }

  lemma RowRead(r: Ospf.Redistribute)
    requires RowWords(r)
    ensures SayingOf(Ospf.RedistributeText(r))
         == Some(Redistribute(r.source, if Given(r.routeMap) then r.routeMap else None))
  {
    RedistributeLine(r.source, Deref(r.routeMap));
    if Given(r.routeMap) {
      Words4("redistribute", r.source, "route-map", r.routeMap.value);
      RedistributeWords(Ospf.RedistributeText(r), ["redistribute", r.source, "route-map", r.routeMap.value]);
    } else {
      Words2("redistribute", r.source);
      RedistributeWords(Ospf.RedistributeText(r), ["redistribute", r.source]);
    }
  }

  function WithRows(p: Process, rows: seq<Ospf.Redistribute>): Process {
    p.(redistribute := Redistributed(p.redistribute, rows))
  }

  function RowSaying(r: Ospf.Redistribute): Saying {
    Redistribute(r.source, if Given(r.routeMap) then r.routeMap else None)
  }

  lemma RowsGrow(p: Process, rows: seq<Ospf.Redistribute>)
    requires rows != []
    ensures var n := |rows| - 1; Heard(WithRows(p, rows[..n]), RowSaying(rows[n])) == WithRows(p, rows)
  {
  }

  lemma {:induction false} RowsHeard(p: Process, rows: seq<Ospf.Redistribute>)
    requires forall i :: 0 <= i < |rows| ==> RowWords(rows[i])
    ensures Hears(p, Collect(rows, Ospf.RedistributeLine), WithRows(p, rows))
  {
    if rows == [] {
      HearsNone(p);
    } else {
      var n := |rows| - 1;
      var front := rows[..n];
      assert forall i :: 0 <= i < n ==> front[i] == rows[i];
      RowsHeard(p, front);
      RowRead(rows[n]);
      RowsGrow(p, rows);
      HearsMore(p, Collect(front, Ospf.RedistributeLine), WithRows(p, front), Ospf.RedistributeText(rows[n]),
                RowSaying(rows[n]), WithRows(p, rows));
    }
  }

  /** The number of the area that a network is declared for. */
  function AreaNumber(id: string): int {
    var v := OspfArea.AreaValue(TrimSpace(id));
    if v.Some? then v.value else 0
  }

  function Networked(before: map<string, int>, networks: seq<OspfArea.Network>): map<string, int> {
    if networks == [] then before
    else
      var n := |networks| - 1;
      Networked(before, networks[..n])[networks[n].prefix := AreaNumber(networks[n].area)]
  }

  lemma NetworkSaid(line: string, a: string, prefix: string, b: string, id: string, v: int)
    requires Fields(line) == [a, prefix, b, id] && a == "network" && b == "area"
    requires OspfArea.AreaValue(id) == Some(v)
    ensures SayingOf(line) == Some(Network(prefix, v))
  {
  }

  lemma NetworkShape(prefix: string, id: string)
    ensures "network " + prefix + " area " + id == "network" + " " + prefix + " " + "area" + " " + id
  {
  }

  lemma NetworkRead(n: OspfArea.Network)
    requires IsToken(n.prefix) && OspfArea.AreaValue(TrimSpace(n.area)).Some?
    ensures SayingOf(OspfArea.NetworkLine(n)) == Some(Network(n.prefix, AreaNumber(n.area)))
  {
    var id := OspfArea.Rendered(n.area);
    RenderedNumber(n.area);
    NetworkShape(n.prefix, id);
    Words4("network", n.prefix, "area", id);
    NetworkSaid(OspfArea.NetworkLine(n), "network", n.prefix, "area", id, AreaNumber(n.area));
  }

  /** A rendered identifier is one word that denotes the declared number. */
  lemma RenderedNumber(id: string)
    requires OspfArea.AreaValue(TrimSpace(id)).Some?
    ensures IsToken(OspfArea.Rendered(id)) && OspfArea.AreaValue(OspfArea.Rendered(id)) == Some(AreaNumber(id))
  {
    OspfArea.CanonicalDenotes(id);
    OspfArea.QuadIsToken(OspfArea.Rendered(id));
  }

  function WithNetworks(p: Process, networks: seq<OspfArea.Network>): Process {
    p.(networks := Networked(p.networks, networks))
  }

  predicate NetworkWords(n: OspfArea.Network) {
    IsToken(n.prefix) && OspfArea.AreaValue(TrimSpace(n.area)).Some?
  }

  lemma NetworksGrow(p: Process, networks: seq<OspfArea.Network>)
    requires networks != []
    ensures var n := |networks| - 1;
            Heard(WithNetworks(p, networks[..n]), Network(networks[n].prefix, AreaNumber(networks[n].area)))
            == WithNetworks(p, networks)
  {
  }

  lemma {:induction false} NetworksHeard(p: Process, networks: seq<OspfArea.Network>)
    requires forall i :: 0 <= i < |networks| ==> NetworkWords(networks[i])
    ensures Hears(p, Collect(networks, Ospf.NetworkLine), WithNetworks(p, networks))
  {
    if networks == [] {
      HearsNone(p);
    } else {
      var n := |networks| - 1;
      var front, last := networks[..n], networks[n];
      assert forall i :: 0 <= i < n ==> front[i] == networks[i];
      NetworksHeard(p, front);
      NetworkRead(last);
      NetworksGrow(p, networks);
      HearsMore(p, Collect(front, Ospf.NetworkLine), WithNetworks(p, front), OspfArea.NetworkLine(last),
                Network(last.prefix, AreaNumber(last.area)), WithNetworks(p, networks));
    }
  }
  // ---- areas -----------------------------------------------------------------------------------

  /** The type that an area asks for; a normal one says nothing. */
  function KindOf(a: OspfArea.Area): Option<AreaType> {
    match a.kind
    case None => None
    case Some(kind) =>
      match kind
      case "stub" => Some(Stub(false))
      case "stub-no-summary" => Some(Stub(true))
      case "nssa" => Some(Nssa(None))
      case "nssa-default-information-originate" =>
        Some(Nssa(Some(NssaDefault(ToInt(a.nssaMetric), ToInt(a.nssaMetricType), a.nssaOnly == Some(true)))))
      case _ => None
  }

  function ToInt(n: Option<Int>): Option<int> {
    if n.Some? then Some(n.value) else None
  }

  function RangeSet(ranges: seq<string>): set<string> {
    set i | 0 <= i < |ranges| :: ranges[i]
  }

  predicate SaysSomething(a: OspfArea.Area) {
    KindOf(a).Some? || a.defaultCost.Some? || a.ranges != []
  }

  /** An area with what is declared put over what it had. */
  function AreaOver(c: AreaConfig, a: OspfArea.Area): AreaConfig {
    AreaConfig(
      if KindOf(a).Some? then KindOf(a).value else c.kind,
      if a.defaultCost.Some? then Some(a.defaultCost.value) else c.cost,
      c.ranges + RangeSet(a.ranges))
  }

  function AreaPut(areas: map<int, AreaConfig>, a: OspfArea.Area): map<int, AreaConfig> {
    var v := AreaNumber(a.id);
    if SaysSomething(a) then areas[v := AreaOver(AreaOf(areas, v), a)] else areas
  }

  function AreasPut(before: map<int, AreaConfig>, areas: seq<OspfArea.Area>): map<int, AreaConfig> {
    if areas == [] then before
    else
      var n := |areas| - 1;
      AreaPut(AreasPut(before, areas[..n]), areas[n])
  }

  function WithArea(p: Process, v: int, c: AreaConfig): Process {
    p.(areas := p.areas[v := c])
  }

  lemma WithAreaTwice(p: Process, v: int, c: AreaConfig, d: AreaConfig)
    ensures WithArea(WithArea(p, v, c), v, d) == WithArea(p, v, d) && AreaOf(WithArea(p, v, c).areas, v) == c
  {
    assert p.areas[v := c][v := d] == p.areas[v := d];
  }

  /** Every line of an area: its head is two words. */
  lemma AreaHeadWords(head: string, id: string, rest: string)
    requires IsToken(id) && head == "area" + " " + id + " "
    ensures Fields(head + rest) == ["area", id] + Fields(rest)
  {
    assert head + rest == "area" + " " + (id + " " + rest);
    FieldsWord("area", id + " " + rest);
    FieldsWord(id, rest);
    Pair("area", id, Fields(rest));
  }

  lemma AreaWordsSaid(words: seq<string>, id: string, v: int, rest: seq<string>)
    requires words == ["area", id] + rest && OspfArea.AreaValue(id) == Some(v)
    requires AreaSaid(v, rest).Some?
    ensures SayingOfWords(words) == AreaSaid(v, rest)
  {
    assert words[2..] == rest;
    assert words[0] == "area" && words[1] == id;
  }

  /** What follows the head of an area line is read by itself. */
  lemma AreaRead(head: string, id: string, v: int, rest: string)
    requires IsToken(id) && head == "area" + " " + id + " " && OspfArea.AreaValue(id) == Some(v)
    requires AreaSaid(v, Fields(rest)).Some?
    ensures SayingOf(head + rest) == AreaSaid(v, Fields(rest))
  {
    AreaHeadWords(head, id, rest);
    AreaWordsSaid(Fields(head + rest), id, v, Fields(rest));
  }

  lemma AreaHead(a: OspfArea.Area)
    ensures OspfArea.AreaHead(a) == "area" + " " + OspfArea.Rendered(a.id) + " "
  {
    HeadShape(OspfArea.Rendered(a.id));
  }

  lemma HeadShape(id: string)
    ensures "area " + id + " " == "area" + " " + id + " "
  {
  }

  // ---- the type of an area ---------------------------------------------------------------------

  lemma StubSaid(v: int, words: seq<string>)
    ensures words == ["stub"] ==> AreaSaid(v, words) == Some(KindOfArea(v, Stub(false)))
    ensures words == ["stub", "no-summary"] ==> AreaSaid(v, words) == Some(KindOfArea(v, Stub(true)))
    ensures words == ["nssa"] ==> AreaSaid(v, words) == Some(KindOfArea(v, Nssa(None)))
  {
  }

  lemma StubRead(v: int, rest: string, a: string)
    requires rest == a && a == "stub"
    ensures AreaSaid(v, Fields(rest)) == Some(KindOfArea(v, Stub(false)))
  {
    FieldsToken(a);
    StubSaid(v, [a]);
  }

  lemma StubNoSummaryRead(v: int, rest: string, a: string, b: string)
    requires rest == a + " " + b && a == "stub" && b == "no-summary"
    ensures AreaSaid(v, Fields(rest)) == Some(KindOfArea(v, Stub(true)))
  {
    Words2(a, b);
    StubSaid(v, [a, b]);
  }

  lemma NssaRead(v: int, rest: string, a: string)
    requires rest == a && a == "nssa"
    ensures AreaSaid(v, Fields(rest)) == Some(KindOfArea(v, Nssa(None)))
  {
    FieldsToken(a);
    StubSaid(v, [a]);
  }

  /** An option of a number: its two words, or none. */
  function OptionWords(key: string, n: Option<Int>): seq<string> {
    if n.Some? then [key, Itoa(n.value)] else []
  }

  function OptionText(key: string, n: Option<Int>): string {
    if n.Some? then " " + key + " " + Itoa(n.value) else ""
  }

  lemma OptionFields(line: string, key: string, n: Option<Int>)
    requires IsToken(key)
    ensures Fields(line + OptionText(key, n)) == Fields(line) + OptionWords(key, n)
  {
    if n.Some? {
      ItoaToken(n.value);
      OptionWord(line, key, Itoa(n.value));
    } else {
      AppendEmpty(line);
    }
  }

  lemma OptionWord(line: string, key: string, word: string)
    requires IsToken(key) && IsToken(word)
    ensures Fields(line + (" " + key + " " + word)) == Fields(line) + [key, word]
  {
    Words2(key, word);
    FieldsAppend(line, key + " " + word);
    OptionShape(line, key, word);
  }

  lemma OptionShape(line: string, key: string, word: string)
    ensures line + (" " + key + " " + word) == line + " " + (key + " " + word)
    ensures line + (" " + key + " ") + word == line + (" " + key + " " + word)
  {
  }

  function OnlyText(only: bool): string {
    if only then " nssa-only" else ""
  }

  function OnlyWords(only: bool): seq<string> {
    if only then ["nssa-only"] else []
  }

  lemma OnlyShape(line: string, word: string)
    requires IsToken(word)
    ensures Fields(line + (" " + word)) == Fields(line) + [word]
  {
    FieldsToken(word);
    FieldsAppend(line, word);
    Associate(line, " ", word);
  }

  lemma OnlyFields(line: string, only: bool)
    ensures Fields(line + OnlyText(only)) == Fields(line) + OnlyWords(only)
  {
    if only {
      OnlyWord(line, "nssa-only", OnlyText(only));
    } else {
      AppendEmpty(line);
    }
  }

  lemma OnlyWord(line: string, word: string, text: string)
    requires word == "nssa-only" && text == " nssa-only"
    ensures Fields(line + text) == Fields(line) + [word]
  {
    assert text == " " + word;
    OnlyShape(line, word);
  }

  lemma NssaFirst(d: NssaDefault, key: string, n: Option<Int>, rest: seq<string>)
    requires key == "metric" || key == "metric-type"
    requires n.Some? ==> Atoi(Itoa(n.value)) == Some(n.value)
    ensures NssaFrom(d, OptionWords(key, n) + rest)
         == NssaFrom(if n.None? then d
                     else if key == "metric" then d.(metric := Some(n.value))
                     else d.(metricType := Some(n.value)), rest)
  {
    if n.Some? {
      assert (OptionWords(key, n) + rest)[2..] == rest;
    } else {
      AppendEmpty(rest);
    }
  }

  lemma NssaOptions(metric: Option<Int>, metricType: Option<Int>, only: bool)
    ensures NssaFrom(NssaDefault(None, None, false),
              OptionWords("metric", metric) + (OptionWords("metric-type", metricType) + OnlyWords(only)))
         == Some(NssaDefault(ToInt(metric), ToInt(metricType), only))
  {
    var d := NssaDefault(None, None, false);
    var d1 := NssaDefault(ToInt(metric), None, false);
    if metric.Some? { AtoiItoa(metric.value); }
    if metricType.Some? { AtoiItoa(metricType.value); }
    NssaFirst(d, "metric", metric, OptionWords("metric-type", metricType) + OnlyWords(only));
    NssaFirst(d1, "metric-type", metricType, OnlyWords(only));
  }

  lemma NssaDefaultSaid(v: int, a: string, b: string, rest: seq<string>, d: NssaDefault)
    requires a == "nssa" && b == "default-information-originate"
    requires NssaFrom(NssaDefault(None, None, false), rest) == Some(d)
    ensures AreaSaid(v, [a, b] + rest) == Some(KindOfArea(v, Nssa(Some(d))))
  {
    var words := [a, b] + rest;
    assert words[1..] == [b] + rest && ([b] + rest)[1..] == rest;
  }

  function NssaTail(a: OspfArea.Area, line: string): string {
    line + OptionText("metric", a.nssaMetric) + OptionText("metric-type", a.nssaMetricType)
    + OnlyText(a.nssaOnly == Some(true))
  }

  lemma NssaTailFields(a: OspfArea.Area, line: string)
    ensures Fields(NssaTail(a, line))
         == Fields(line) + (OptionWords("metric", a.nssaMetric)
              + (OptionWords("metric-type", a.nssaMetricType) + OnlyWords(a.nssaOnly == Some(true))))
  {
    var only := a.nssaOnly == Some(true);
    var l1 := line + OptionText("metric", a.nssaMetric);
    var l2 := l1 + OptionText("metric-type", a.nssaMetricType);
    OptionFields(line, "metric", a.nssaMetric);
    OptionFields(l1, "metric-type", a.nssaMetricType);
    OnlyFields(l2, only);
    OptionsNested(Fields(line), OptionWords("metric", a.nssaMetric), OptionWords("metric-type", a.nssaMetricType),
                  OnlyWords(only));
  }

  lemma OptionsNested<T>(a: seq<T>, b: seq<T>, c: seq<T>, d: seq<T>)
    ensures a + b + c + d == a + (b + (c + d))
  {
  }

  lemma NssaDefaultRead(v: int, a: OspfArea.Area, line: string, x: string, y: string)
    requires line == x + " " + y && x == "nssa" && y == "default-information-originate"
    ensures AreaSaid(v, Fields(NssaTail(a, line)))
         == Some(KindOfArea(v, Nssa(Some(NssaDefault(ToInt(a.nssaMetric), ToInt(a.nssaMetricType),
              a.nssaOnly == Some(true))))))
  {
    Words2(x, y);
    NssaTailFields(a, line);
    NssaOptions(a.nssaMetric, a.nssaMetricType, a.nssaOnly == Some(true));
    NssaDefaultSaid(v, x, y, OptionWords("metric", a.nssaMetric)
                    + (OptionWords("metric-type", a.nssaMetricType) + OnlyWords(a.nssaOnly == Some(true))),
                    NssaDefault(ToInt(a.nssaMetric), ToInt(a.nssaMetricType), a.nssaOnly == Some(true)));
  }

  lemma NssaLineShape(head: string, a: OspfArea.Area)
    ensures OspfArea.NssaLine(head, a) == head + NssaTail(a, "nssa default-information-originate")
  {
    var l0 := "nssa default-information-originate";
    var l1 := OptionText("metric", a.nssaMetric);
    var l2 := OptionText("metric-type", a.nssaMetricType);
    var l3 := OnlyText(a.nssaOnly == Some(true));
    NssaLineParts(head, a, l0, l1, l2, l3);
    FourParts(head, l0, l1, l2, l3);
  }

  lemma NssaLineParts(head: string, a: OspfArea.Area, l0: string, l1: string, l2: string, l3: string)
    requires l0 == "nssa default-information-originate" && l1 == OptionText("metric", a.nssaMetric)
    requires l2 == OptionText("metric-type", a.nssaMetricType) && l3 == OnlyText(a.nssaOnly == Some(true))
    ensures OspfArea.NssaLine(head, a) == head + l0 + l1 + l2 + l3
  {
    var line := head + l0;
    MetricPart(line, "metric", a.nssaMetric, " metric ");
    MetricPart(line + l1, "metric-type", a.nssaMetricType, " metric-type ");
  }

  lemma MetricPart(line: string, key: string, n: Option<Int>, text: string)
    requires text == " " + key + " "
    ensures (if n.Some? then line + text + Itoa(n.value) else line) == line + OptionText(key, n)
  {
    if n.Some? {
      OptionShape(line, key, Itoa(n.value));
    } else {
      AppendEmpty(line);
    }
  }
  lemma StubText(head: string, v: int, a: OspfArea.Area) returns (rest: string)
    requires a.kind == Some("stub")
    ensures OspfArea.TypeLines(head, a) == [head + rest]
    ensures AreaSaid(v, Fields(rest)) == Some(KindOfArea(v, Stub(false)))
  {
    rest := "stub";
    StubRead(v, rest, "stub");
  }

  lemma StubNoSummaryText(head: string, v: int, a: OspfArea.Area) returns (rest: string)
    requires a.kind == Some("stub-no-summary")
    ensures OspfArea.TypeLines(head, a) == [head + rest]
    ensures AreaSaid(v, Fields(rest)) == Some(KindOfArea(v, Stub(true)))
  {
    rest := "stub no-summary";
    StubNoSummaryRead(v, rest, "stub", "no-summary");
  }

  lemma NssaText(head: string, v: int, a: OspfArea.Area) returns (rest: string)
    requires a.kind == Some("nssa")
    ensures OspfArea.TypeLines(head, a) == [head + rest]
    ensures AreaSaid(v, Fields(rest)) == Some(KindOfArea(v, Nssa(None)))
  {
    rest := "nssa";
    NssaRead(v, rest, "nssa");
  }

  lemma NssaDefaultText(head: string, v: int, a: OspfArea.Area) returns (rest: string)
    requires a.kind == Some("nssa-default-information-originate")
    ensures OspfArea.TypeLines(head, a) == [head + rest]
    ensures AreaSaid(v, Fields(rest))
         == Some(KindOfArea(v, Nssa(Some(NssaDefault(ToInt(a.nssaMetric), ToInt(a.nssaMetricType),
              a.nssaOnly == Some(true))))))
  {
    rest := NssaTail(a, "nssa default-information-originate");
    NssaTypeLine(head, a);
    NssaLineShape(head, a);
    NssaDefaultRest(v, a, "nssa default-information-originate");
  }

  lemma NssaTypeLine(head: string, a: OspfArea.Area)
    requires a.kind == Some("nssa-default-information-originate")
    ensures OspfArea.TypeLines(head, a) == [OspfArea.NssaLine(head, a)]
  {
  }

  lemma NssaDefaultRest(v: int, a: OspfArea.Area, line: string)
    requires line == "nssa default-information-originate"
    ensures AreaSaid(v, Fields(NssaTail(a, line)))
         == Some(KindOfArea(v, Nssa(Some(NssaDefault(ToInt(a.nssaMetric), ToInt(a.nssaMetricType),
              a.nssaOnly == Some(true))))))
  {
    NssaDefaultHead(line, "nssa", "default-information-originate");
    NssaDefaultRead(v, a, line, "nssa", "default-information-originate");
  }

  lemma NssaDefaultHead(line: string, x: string, y: string)
    requires line == "nssa default-information-originate" && x == "nssa" && y == "default-information-originate"
    ensures line == x + " " + y
  {
  }

  predicate IsKindName(name: string) {
    name == "stub" || name == "stub-no-summary" || name == "nssa" || name == "nssa-default-information-originate"
  }

  lemma KindName(a: OspfArea.Area)
    ensures KindOf(a).Some? ==> a.kind.Some? && IsKindName(a.kind.value)
  {
  }

  /** The text after the head of the line that gives an area its type. */
  lemma TypeText(head: string, v: int, a: OspfArea.Area, kind: AreaType) returns (rest: string)
    requires KindOf(a) == Some(kind)
    ensures OspfArea.TypeLines(head, a) == [head + rest]
    ensures AreaSaid(v, Fields(rest)) == Some(KindOfArea(v, kind))
  {
    KindName(a);
    if a.kind.value == "stub" {
      rest := StubText(head, v, a);
    } else if a.kind.value == "stub-no-summary" {
      rest := StubNoSummaryText(head, v, a);
    } else if a.kind.value == "nssa" {
      rest := NssaText(head, v, a);
    } else {
      rest := NssaDefaultText(head, v, a);
    }
  }

  lemma NoType(head: string, a: OspfArea.Area)
    requires KindOf(a).None?
    ensures OspfArea.TypeLines(head, a) == []
  {
  }

  lemma CostText(v: int, word: string, n: Int, key: string)
    requires IsToken(word) && Atoi(word) == Some(n) && key == "default-cost"
    ensures AreaSaid(v, Fields(key + " " + word)) == Some(CostOfArea(v, n))
  {
    Words2(key, word);
    CostSaid(v, [key, word], n);
  }

  lemma CostSaid(v: int, words: seq<string>, n: Int)
    requires |words| == 2 && words[0] == "default-cost" && Atoi(words[1]) == Some(n)
    ensures AreaSaid(v, words) == Some(CostOfArea(v, n))
  {
  }

  lemma RangeText(v: int, prefix: string, key: string)
    requires IsToken(prefix) && key == "range"
    ensures AreaSaid(v, Fields(key + " " + prefix)) == Some(RangeOfArea(v, prefix))
  {
    Words2(key, prefix);
    RangeSaid(v, [key, prefix]);
  }

  lemma RangeSaid(v: int, words: seq<string>)
    requires |words| == 2 && words[0] == "range"
    ensures AreaSaid(v, words) == Some(RangeOfArea(v, words[1]))
  {
  }

  // ---- an area hears its lines -----------------------------------------------------------------

  predicate IsHead(head: string, id: string, v: int) {
    IsToken(id) && head == "area" + " " + id + " " && OspfArea.AreaValue(id) == Some(v)
  }

  lemma AreaLineHeard(p: Process, head: string, id: string, v: int, lines: seq<string>, rest: string, saying: Saying)
    requires IsHead(head, id, v) && lines == [head + rest] && AreaSaid(v, Fields(rest)) == Some(saying)
    ensures Hears(p, lines, Heard(p, saying))
  {
    AreaRead(head, id, v, rest);
    HearsOne(p, lines, head + rest, saying);
  }

  function WithKind(p: Process, v: int, kind: Option<AreaType>): Process {
    if kind.Some? then WithArea(p, v, AreaOf(p.areas, v).(kind := kind.value)) else p
  }

  lemma KindIsPut(p: Process, v: int, kind: AreaType)
    ensures Heard(p, KindOfArea(v, kind)) == WithKind(p, v, Some(kind))
  {
  }

  lemma TypeHeard(p: Process, head: string, id: string, v: int, a: OspfArea.Area)
    requires IsHead(head, id, v)
    ensures Hears(p, OspfArea.TypeLines(head, a), WithKind(p, v, KindOf(a)))
  {
    if KindOf(a).Some? {
      var kind := KindOf(a).value;
      var rest := TypeText(head, v, a, kind);
      KindIsPut(p, v, kind);
      AreaLineHeard(p, head, id, v, OspfArea.TypeLines(head, a), rest, KindOfArea(v, kind));
    } else {
      NoType(head, a);
      HearsNone(p);
    }
  }

  function WithCost(p: Process, v: int, cost: Option<Int>): Process {
    if cost.Some? then WithArea(p, v, AreaOf(p.areas, v).(cost := Some(cost.value))) else p
  }

  lemma CostShape(head: string, word: string, key: string)
    requires key == "default-cost"
    ensures head + "default-cost " + word == head + (key + " " + word)
  {
  }

  lemma CostIsPut(p: Process, v: int, cost: Option<Int>)
    requires cost.Some?
    ensures Heard(p, CostOfArea(v, cost.value)) == WithCost(p, v, cost)
  {
  }

  lemma CostRest(head: string, v: int, a: OspfArea.Area) returns (rest: string)
    requires a.defaultCost.Some?
    ensures OspfArea.CostLines(head, a) == [head + rest]
    ensures AreaSaid(v, Fields(rest)) == Some(CostOfArea(v, a.defaultCost.value))
  {
    var n := a.defaultCost.value;
    var word := Itoa(n);
    rest := "default-cost" + " " + word;
    AtoiItoa(n);
    ItoaToken(n);
    CostText(v, word, n, "default-cost");
    CostShape(head, word, "default-cost");
  }

  lemma AreaCostHeard(p: Process, head: string, id: string, v: int, a: OspfArea.Area)
    requires IsHead(head, id, v)
    ensures Hears(p, OspfArea.CostLines(head, a), WithCost(p, v, a.defaultCost))
  {
    if a.defaultCost.Some? {
      var rest := CostRest(head, v, a);
      CostIsPut(p, v, a.defaultCost);
      AreaLineHeard(p, head, id, v, OspfArea.CostLines(head, a), rest, CostOfArea(v, a.defaultCost.value));
    } else {
      HearsNone(p);
    }
  }

  function WithRanges(p: Process, v: int, ranges: seq<string>): Process {
    if ranges == [] then p
    else
      var a := AreaOf(p.areas, v);
      WithArea(p, v, a.(ranges := a.ranges + RangeSet(ranges)))
  }

  lemma RangeSetMore(ranges: seq<string>)
    requires ranges != []
    ensures var n := |ranges| - 1; RangeSet(ranges) == RangeSet(ranges[..n]) + {ranges[n]}
  {
    var n := |ranges| - 1;
    assert forall i :: 0 <= i < n ==> ranges[..n][i] == ranges[i];
  }

  lemma RangesGrow(p: Process, v: int, ranges: seq<string>)
    requires ranges != []
    ensures var n := |ranges| - 1;
            Heard(WithRanges(p, v, ranges[..n]), RangeOfArea(v, ranges[n])) == WithRanges(p, v, ranges)
  {
    var n := |ranges| - 1;
    var a := AreaOf(p.areas, v);
    RangeSetMore(ranges);
    assert a.ranges + RangeSet(ranges[..n]) + {ranges[n]} == a.ranges + RangeSet(ranges);
    if n == 0 {
      assert RangeSet(ranges[..0]) == {};
      assert a.ranges + {} == a.ranges;
    } else {
      WithAreaTwice(p, v, a.(ranges := a.ranges + RangeSet(ranges[..n])), a.(ranges := a.ranges + RangeSet(ranges)));
    }
  }

  lemma RangeShape(head: string, prefix: string, key: string)
    requires key == "range"
    ensures head + "range " + prefix == head + (key + " " + prefix)
  {
  }

  lemma RangeHeard(p: Process, head: string, id: string, v: int, prefix: string)
    requires IsHead(head, id, v) && IsToken(prefix)
    ensures SayingOf(head + "range " + prefix) == Some(RangeOfArea(v, prefix))
  {
    RangeText(v, prefix, "range");
    RangeShape(head, prefix, "range");
    AreaRead(head, id, v, "range" + " " + prefix);
  }

  lemma RangeLinesLast(head: string, ranges: seq<string>)
    requires ranges != []
    ensures var n := |ranges| - 1;
            OspfArea.RangeLines(head, ranges)
            == OspfArea.RangeLines(head, ranges[..n]) + [head + "range " + ranges[n]]
  {
  }

  lemma {:induction false} RangesHeard(p: Process, head: string, id: string, v: int, ranges: seq<string>)
    requires IsHead(head, id, v) && AllTokens(ranges)
    ensures Hears(p, OspfArea.RangeLines(head, ranges), WithRanges(p, v, ranges))
  {
    if ranges == [] {
      HearsNone(p);
    } else {
      var n := |ranges| - 1;
      RangesHeard(p, head, id, v, ranges[..n]);
      RangeHeard(p, head, id, v, ranges[n]);
      RangesGrow(p, v, ranges);
      RangeLinesLast(head, ranges);
      HearsMore(p, OspfArea.RangeLines(head, ranges[..n]), WithRanges(p, v, ranges[..n]), head + "range " + ranges[n],
                RangeOfArea(v, ranges[n]), WithRanges(p, v, ranges));
    }
  }

  function WithAreaPut(p: Process, a: OspfArea.Area): Process {
    p.(areas := AreaPut(p.areas, a))
  }

  predicate AreaWords(a: OspfArea.Area) {
    OspfArea.AreaValue(TrimSpace(a.id)).Some? && AllTokens(a.ranges)
  }

  lemma KindThenCost(p: Process, v: int, kind: Option<AreaType>, cost: Option<Int>)
    ensures var c := AreaOf(p.areas, v);
            WithCost(WithKind(p, v, kind), v, cost)
            == if kind.None? && cost.None? then p
               else WithArea(p, v, AreaConfig(if kind.Some? then kind.value else c.kind,
                      if cost.Some? then Some(cost.value) else c.cost, c.ranges))
  {
    var c := AreaOf(p.areas, v);
    if kind.Some? && cost.Some? {
      WithAreaTwice(p, v, c.(kind := kind.value), AreaConfig(kind.value, Some(cost.value), c.ranges));
    }
  }

  lemma ThenRanges(p: Process, v: int, c: AreaConfig, said: bool, ranges: seq<string>)
    requires !said ==> c == AreaOf(p.areas, v)
    ensures WithRanges(if said then WithArea(p, v, c) else p, v, ranges)
         == if said || ranges != [] then WithArea(p, v, c.(ranges := c.ranges + RangeSet(ranges))) else p
  {
    assert RangeSet([]) == {} && c.ranges + {} == c.ranges;
    if said && ranges != [] {
      WithAreaTwice(p, v, c, c.(ranges := c.ranges + RangeSet(ranges)));
    }
  }

  lemma AreaComposed(p: Process, a: OspfArea.Area)
    ensures var v := AreaNumber(a.id);
            WithRanges(WithCost(WithKind(p, v, KindOf(a)), v, a.defaultCost), v, a.ranges) == WithAreaPut(p, a)
  {
    var v := AreaNumber(a.id);
    var c := AreaOf(p.areas, v);
    var over := AreaConfig(if KindOf(a).Some? then KindOf(a).value else c.kind,
      if a.defaultCost.Some? then Some(a.defaultCost.value) else c.cost, c.ranges);
    KindThenCost(p, v, KindOf(a), a.defaultCost);
    ThenRanges(p, v, over, KindOf(a).Some? || a.defaultCost.Some?, a.ranges);
  }

  lemma AreaHeard(p: Process, a: OspfArea.Area)
    requires AreaWords(a)
    ensures Hears(p, OspfArea.AreaLines(a), WithAreaPut(p, a))
  {
    var head, id, v := OspfArea.AreaHead(a), OspfArea.Rendered(a.id), AreaNumber(a.id);
    var p1 := WithKind(p, v, KindOf(a));
    var p2 := WithCost(p1, v, a.defaultCost);
    RenderedNumber(a.id);
    AreaHead(a);
    TypeHeard(p, head, id, v, a);
    AreaCostHeard(p1, head, id, v, a);
    RangesHeard(p2, head, id, v, a.ranges);
    AreaComposed(p, a);
    HearsThree(p, OspfArea.TypeLines(head, a), p1, OspfArea.CostLines(head, a), p2,
               OspfArea.RangeLines(head, a.ranges), WithAreaPut(p, a));
  }

  function WithAreas(p: Process, areas: seq<OspfArea.Area>): Process {
    p.(areas := AreasPut(p.areas, areas))
  }

  lemma {:induction false} AreasHeard(p: Process, areas: seq<OspfArea.Area>)
    requires forall i :: 0 <= i < |areas| ==> AreaWords(areas[i])
    ensures Hears(p, Collect(areas, Ospf.AreaLines), WithAreas(p, areas))
  {
    if areas == [] {
      HearsNone(p);
    } else {
      var n := |areas| - 1;
      var front := areas[..n];
      assert forall i :: 0 <= i < n ==> front[i] == areas[i];
      AreasHeard(p, front);
      AreaHeard(WithAreas(p, front), areas[n]);
      HearsThen(p, Collect(front, Ospf.AreaLines), WithAreas(p, front), OspfArea.AreaLines(areas[n]),
                WithAreas(p, areas));
    }
  }

  function WithRoutes(p: Process, args: Ospf.Args): Process {
    WithNetworks(WithAreas(WithRows(p, args.redistribute), args.areas), args.networks)
  }

  predicate RouteWords(args: Ospf.Args) {
    && (forall i :: 0 <= i < |args.redistribute| ==> RowWords(args.redistribute[i]))
    && (forall i :: 0 <= i < |args.areas| ==> AreaWords(args.areas[i]))
    && (forall i :: 0 <= i < |args.networks| ==> NetworkWords(args.networks[i]))
  }

  lemma RoutesHeard(p: Process, args: Ospf.Args)
    requires RouteWords(args)
    ensures Hears(p, Ospf.RouteLines(args), WithRoutes(p, args))
  {
    var p1 := WithRows(p, args.redistribute);
    var p2 := WithAreas(p1, args.areas);
    RowsHeard(p, args.redistribute);
    AreasHeard(p1, args.areas);
    NetworksHeard(p2, args.networks);
    HearsThree(p, Collect(args.redistribute, Ospf.RedistributeLine), p1, Collect(args.areas, Ospf.AreaLines), p2,
               Collect(args.networks, Ospf.NetworkLine), WithRoutes(p, args));
  }
  // ---- limits, logging and timers ----------------------------------------------------------------

  lemma MaxLsaHeard(p: Process, n: Option<Int>)
    ensures Hears(p, Numbered("max-lsa ", n), WithNumber(p, MaxLsa, n))
  {
    if n.Some? {
      AtoiItoa(n.value);
      ItoaToken(n.value);
      MaxLsaRead(Itoa(n.value), n.value);
    }
    NumberedHeard(p, "max-lsa ", n, MaxLsa);
  }

  function LevelOf(level: string): Option<LogLevel> {
    if level == "" then None
    else if level == "off" then Some(Off)
    else if level == "detail" then Some(Detail)
    else Some(On)
  }

  function WithLog(p: Process, level: string): Process {
    p.(log := if LevelOf(level).Some? then LevelOf(level) else p.log)
  }

  lemma DetailSaid(line: string, word: string, detail: string)
    requires Fields(line) == [word, detail] && word == "log-adjacency-changes" && detail == "detail"
    ensures SayingOf(line) == Some(Log(Detail))
  {
  }

  lemma DetailRead(line: string, word: string)
    requires line == word + " " + "detail" && word == "log-adjacency-changes"
    ensures SayingOf(line) == Some(Log(Detail))
  {
    Words2(word, "detail");
    DetailSaid(line, word, "detail");
  }

  lemma OffLine(args: Ospf.Args) returns (line: string)
    requires Deref(args.logChanges) == "off"
    ensures Ospf.LogLines(args) == [line] && SayingOf(line) == Some(Log(Off))
  {
    line := "no log-adjacency-changes";
    NoRead(line, "log-adjacency-changes");
  }

  lemma DetailLine(args: Ospf.Args) returns (line: string)
    requires Deref(args.logChanges) == "detail"
    ensures Ospf.LogLines(args) == [line] && SayingOf(line) == Some(Log(Detail))
  {
    line := "log-adjacency-changes detail";
    DetailRead(line, "log-adjacency-changes");
  }

  lemma OnLine(args: Ospf.Args) returns (line: string)
    requires LevelOf(Deref(args.logChanges)) == Some(On)
    ensures Ospf.LogLines(args) == [line] && SayingOf(line) == Some(Log(On))
  {
    line := OnWord();
    OnLines(args);
  }

  lemma OnWord() returns (line: string)
    ensures line == "log-adjacency-changes" && SayingOf(line) == Some(Log(On))
  {
    line := "log-adjacency-changes";
    WordRead(line);
  }

  lemma OnLines(args: Ospf.Args)
    requires LevelOf(Deref(args.logChanges)) == Some(On)
    ensures Ospf.LogLines(args) == ["log-adjacency-changes"]
  {
  }

  lemma LogLine(args: Ospf.Args) returns (line: string)
    requires LevelOf(Deref(args.logChanges)).Some?
    ensures Ospf.LogLines(args) == [line] && SayingOf(line) == Some(Log(LevelOf(Deref(args.logChanges)).value))
  {
    match LevelOf(Deref(args.logChanges)).value {
      case Off => line := OffLine(args);
      case Detail => line := DetailLine(args);
      case On => line := OnLine(args);
    }
  }

  lemma LogIsPut(p: Process, level: string)
    ensures if LevelOf(level).Some? then Heard(p, Log(LevelOf(level).value)) == WithLog(p, level)
            else WithLog(p, level) == p
  {
  }

  lemma NoLog(args: Ospf.Args)
    requires LevelOf(Deref(args.logChanges)).None?
    ensures Ospf.LogLines(args) == []
  {
  }

  lemma LogHeard(p: Process, args: Ospf.Args)
    ensures Hears(p, Ospf.LogLines(args), WithLog(p, Deref(args.logChanges)))
  {
    var level := Deref(args.logChanges);
    LogIsPut(p, level);
    if LevelOf(level).Some? {
      var line := LogLine(args);
      HeardAs(p, Ospf.LogLines(args), line, Log(LevelOf(level).value), WithLog(p, level));
    } else {
      NoLog(args);
      NoneHeard(p, Ospf.LogLines(args), WithLog(p, level));
    }
  }

  function SpfOf(t: Ospf.Timers): Option<Spf> {
    if t.spfDelayInitial.Some? && t.spfHold.Some? && t.spfMax.Some?
    then Some(Spf(t.spfDelayInitial.value, t.spfHold.value, t.spfMax.value)) else None
  }

  function WithSpf(p: Process, t: Ospf.Timers): Process {
    p.(spf := if SpfOf(t).Some? then SpfOf(t) else p.spf)
  }

  lemma SpfWords(words: seq<string>, a: Int, b: Int, c: Int)
    requires |words| == 7 && IsSpfHead(words[..4])
    requires Atoi(words[4]) == Some(a) && Atoi(words[5]) == Some(b) && Atoi(words[6]) == Some(c)
    ensures SayingOfWords(words) == Some(SpfDelay(Spf(a, b, c)))
  {
    var head := words[..4];
    assert words[0] == head[0] && words[1] == head[1] && words[2] == head[2] && words[3] == head[3];
  }

  predicate IsSpfHead(head: seq<string>) {
    |head| == 4 && head[0] == "timers" && head[1] == "spf" && head[2] == "delay" && head[3] == "initial"
  }

  lemma SpfFields(head: string, x: string, y: string, z: string)
    requires IsToken(x) && IsToken(y) && IsToken(z)
    ensures Fields(head + " " + (x + " " + y + " " + z)) == Fields(head) + [x, y, z]
  {
    Words3(x, y, z);
    FieldsAppend(head, x + " " + y + " " + z);
  }

  lemma SpfShape(x: string, y: string, z: string, head: string)
    requires head == "timers" + " " + "spf" + " " + "delay" + " " + "initial"
    ensures "timers spf delay initial " + x + " " + y + " " + z == head + " " + (x + " " + y + " " + z)
  {
  }

  lemma SpfRead(head: string, x: string, y: string, z: string, a: Int, b: Int, c: Int)
    requires IsSpfHead(Fields(head))
    requires IsToken(x) && IsToken(y) && IsToken(z)
    requires Atoi(x) == Some(a) && Atoi(y) == Some(b) && Atoi(z) == Some(c)
    ensures SayingOf(head + " " + (x + " " + y + " " + z)) == Some(SpfDelay(Spf(a, b, c)))
  {
    SpfFields(head, x, y, z);
    assert (Fields(head) + [x, y, z])[..4] == Fields(head);
    SpfWords(Fields(head) + [x, y, z], a, b, c);
  }

  lemma SpfHead() returns (head: string)
    ensures head == "timers" + " " + "spf" + " " + "delay" + " " + "initial"
    ensures IsSpfHead(Fields(head))
  {
    head := "timers" + " " + "spf" + " " + "delay" + " " + "initial";
    Words4("timers", "spf", "delay", "initial");
  }

  lemma SpfLine(t: Ospf.Timers, spf: Spf) returns (line: string)
    requires SpfOf(t) == Some(spf)
    ensures Ospf.SpfLines(t) == [line] && SayingOf(line) == Some(SpfDelay(spf))
  {
    var a, b, c := t.spfDelayInitial.value, t.spfHold.value, t.spfMax.value;
    var head := SpfHead();
    var x, y, z := Itoa(a), Itoa(b), Itoa(c);
    AtoiItoa(a); AtoiItoa(b); AtoiItoa(c);
    ItoaToken(a); ItoaToken(b); ItoaToken(c);
    line := head + " " + (x + " " + y + " " + z);
    SpfRead(head, x, y, z, a, b, c);
    SpfShape(x, y, z, head);
  }

  lemma SpfIsPut(p: Process, t: Ospf.Timers)
    ensures if SpfOf(t).Some? then Heard(p, SpfDelay(SpfOf(t).value)) == WithSpf(p, t) else WithSpf(p, t) == p
  {
  }

  lemma SpfHeard(p: Process, t: Ospf.Timers)
    ensures Hears(p, Ospf.SpfLines(t), WithSpf(p, t))
  {
    SpfIsPut(p, t);
    if SpfOf(t).Some? {
      var spf := SpfOf(t).value;
      var line := SpfLine(t, spf);
      HeardAs(p, Ospf.SpfLines(t), line, SpfDelay(spf), WithSpf(p, t));
    } else {
      NoneHeard(p, Ospf.SpfLines(t), WithSpf(p, t));
    }
  }

  const NO_TIMERS := Ospf.Timers(None, None, None, None, None)

  function TimersOf(args: Ospf.Args): Ospf.Timers {
    if args.timers.Some? then args.timers.value else NO_TIMERS
  }

  function WithTimers(p: Process, t: Ospf.Timers): Process {
    WithNumber(WithNumber(WithSpf(p, t), OutDelay, t.outDelay), PacingFlood, t.pacingFlood)
  }

  lemma DelayHeard(p: Process, n: Option<Int>)
    ensures Hears(p, Numbered("timers out-delay ", n), WithNumber(p, OutDelay, n))
  {
    if n.Some? {
      AtoiItoa(n.value);
      ItoaToken(n.value);
      DelayRead(Itoa(n.value), n.value);
    }
    NumberedHeard(p, "timers out-delay ", n, OutDelay);
  }

  lemma FloodHeard(p: Process, n: Option<Int>)
    ensures Hears(p, Numbered("timers pacing flood ", n), WithNumber(p, PacingFlood, n))
  {
    if n.Some? {
      AtoiItoa(n.value);
      ItoaToken(n.value);
      FloodRead(Itoa(n.value), n.value);
    }
    NumberedHeard(p, "timers pacing flood ", n, PacingFlood);
  }

  lemma TimersHeard(p: Process, args: Ospf.Args)
    ensures Hears(p, Ospf.TimerLines(args), WithTimers(p, TimersOf(args)))
  {
    if args.timers.None? {
      HearsNone(p);
    } else {
      var t := args.timers.value;
      var p1 := WithSpf(p, t);
      var p2 := WithNumber(p1, OutDelay, t.outDelay);
      SpfHeard(p, t);
      DelayHeard(p1, t.outDelay);
      FloodHeard(p2, t.pacingFlood);
      HearsThree(p, Ospf.SpfLines(t), p1, Numbered("timers out-delay ", t.outDelay), p2,
                 Numbered("timers pacing flood ", t.pacingFlood), WithTimers(p, t));
    }
  }

  function WithLimits(p: Process, args: Ospf.Args): Process {
    WithTimers(WithLog(WithNumber(p, MaxLsa, args.maxLsa), Deref(args.logChanges)), TimersOf(args))
  }

  lemma LimitsHeard(p: Process, args: Ospf.Args)
    ensures Hears(p, Ospf.LimitLines(args), WithLimits(p, args))
  {
    var p1 := WithNumber(p, MaxLsa, args.maxLsa);
    var p2 := WithLog(p1, Deref(args.logChanges));
    MaxLsaHeard(p, args.maxLsa);
    LogHeard(p1, args);
    TimersHeard(p2, args);
    HearsThree(p, Numbered("max-lsa ", args.maxLsa), p1, Ospf.LogLines(args), p2, Ospf.TimerLines(args),
               WithLimits(p, args));
  }

  // ---- paths and the default route ----------------------------------------------------------------

  lemma PathsHeard(p: Process, n: Option<Int>)
    ensures Hears(p, Numbered("maximum-paths ", n), WithNumber(p, MaximumPaths, n))
  {
    if n.Some? {
      AtoiItoa(n.value);
      ItoaToken(n.value);
      PathsRead(Itoa(n.value), n.value);
    }
    NumberedHeard(p, "maximum-paths ", n, MaximumPaths);
  }

  function OriginOf(args: Ospf.Args): Option<Origin> {
    match args.defaultInfo
    case None => None
    case Some(d) => Some(Origin(ToInt(d.metric), ToInt(d.metricType), if Given(d.routeMap) then d.routeMap else None))
  }

  function WithOrigin(p: Process, origin: Option<Origin>): Process {
    p.(originate := if origin.Some? then origin else p.originate)
  }

  function MapText(routeMap: Option<string>): string {
    if Given(routeMap) then " route-map " + routeMap.value else ""
  }

  function MapWords(routeMap: Option<string>): seq<string> {
    if Given(routeMap) then ["route-map", routeMap.value] else []
  }

  lemma MapFields(line: string, routeMap: Option<string>, key: string)
    requires key == "route-map" && (Given(routeMap) ==> IsToken(routeMap.value))
    ensures Fields(line + MapText(routeMap)) == Fields(line) + MapWords(routeMap)
  {
    if Given(routeMap) {
      OptionWord(line, key, routeMap.value);
      MapShape(line, key, routeMap.value);
    } else {
      AppendEmpty(line);
    }
  }

  lemma MapShape(line: string, key: string, name: string)
    requires key == "route-map"
    ensures line + (" route-map " + name) == line + (" " + key + " " + name)
    ensures line + " route-map " + name == line + (" route-map " + name)
  {
  }

  lemma OriginFirst(o: Origin, key: string, n: Option<Int>, rest: seq<string>)
    requires key == "metric" || key == "metric-type"
    requires n.Some? ==> Atoi(Itoa(n.value)) == Some(n.value)
    ensures OriginFrom(o, OptionWords(key, n) + rest)
         == OriginFrom(if n.None? then o
                       else if key == "metric" then o.(metric := Some(n.value)) else o.(metricType := Some(n.value)),
              rest)
  {
    if n.Some? {
      assert (OptionWords(key, n) + rest)[2..] == rest;
    } else {
      AppendEmpty(rest);
    }
  }

  lemma OriginMap(o: Origin, routeMap: Option<string>)
    requires o.routeMap == None
    ensures OriginFrom(o, MapWords(routeMap)) == Some(o.(routeMap := if Given(routeMap) then routeMap else None))
  {
    if Given(routeMap) {
      assert MapWords(routeMap)[2..] == [];
    }
  }

  lemma OriginOptions(d: Ospf.DefaultInfo)
    ensures OriginFrom(Origin(None, None, None),
              OptionWords("metric", d.metric) + (OptionWords("metric-type", d.metricType) + MapWords(d.routeMap)))
         == Some(Origin(ToInt(d.metric), ToInt(d.metricType), if Given(d.routeMap) then d.routeMap else None))
  {
    var o1 := Origin(ToInt(d.metric), None, None);
    var o2 := Origin(ToInt(d.metric), ToInt(d.metricType), None);
    if d.metric.Some? { AtoiItoa(d.metric.value); }
    if d.metricType.Some? { AtoiItoa(d.metricType.value); }
    OriginFirst(Origin(None, None, None), "metric", d.metric,
                OptionWords("metric-type", d.metricType) + MapWords(d.routeMap));
    OriginFirst(o1, "metric-type", d.metricType, MapWords(d.routeMap));
    OriginMap(o2, d.routeMap);
  }

  function OriginText(d: Ospf.DefaultInfo, line: string): string {
    line + OptionText("metric", d.metric) + OptionText("metric-type", d.metricType) + MapText(d.routeMap)
  }

  lemma OriginFields(d: Ospf.DefaultInfo, line: string)
    requires Given(d.routeMap) ==> IsToken(d.routeMap.value)
    ensures Fields(OriginText(d, line))
         == Fields(line) + (OptionWords("metric", d.metric)
              + (OptionWords("metric-type", d.metricType) + MapWords(d.routeMap)))
  {
    var l1 := line + OptionText("metric", d.metric);
    var l2 := l1 + OptionText("metric-type", d.metricType);
    OptionFields(line, "metric", d.metric);
    OptionFields(l1, "metric-type", d.metricType);
    MapFields(l2, d.routeMap, "route-map");
    OptionsNested(Fields(line), OptionWords("metric", d.metric), OptionWords("metric-type", d.metricType),
                  MapWords(d.routeMap));
  }

  lemma OriginSaid(words: seq<string>, rest: seq<string>, o: Origin)
    requires words == ["default-information", "originate"] + rest
    requires OriginFrom(Origin(None, None, None), rest) == Some(o)
    ensures SayingOfWords(words) == Some(Originate(o))
  {
    assert words[2..] == rest;
  }

  lemma OriginRead(d: Ospf.DefaultInfo, line: string, x: string, y: string)
    requires line == x + " " + y && x == "default-information" && y == "originate"
    requires Given(d.routeMap) ==> IsToken(d.routeMap.value)
    ensures SayingOf(OriginText(d, line))
         == Some(Originate(Origin(ToInt(d.metric), ToInt(d.metricType),
              if Given(d.routeMap) then d.routeMap else None)))
  {
    var rest := OptionWords("metric", d.metric) + (OptionWords("metric-type", d.metricType) + MapWords(d.routeMap));
    Words2(x, y);
    OriginFields(d, line);
    OriginOptions(d);
    OriginSaid([x, y] + rest, rest,
               Origin(ToInt(d.metric), ToInt(d.metricType), if Given(d.routeMap) then d.routeMap else None));
  }

  lemma OriginShape(args: Ospf.Args, line: string)
    requires args.defaultInfo.Some? && line == "default-information originate"
    ensures Ospf.DefaultInfoLines(args) == [OriginText(args.defaultInfo.value, line)]
  {
    var d := args.defaultInfo.value;
    MetricPart(line, "metric", d.metric, " metric ");
    MetricPart(line + OptionText("metric", d.metric), "metric-type", d.metricType, " metric-type ");
    var l2 := line + OptionText("metric", d.metric) + OptionText("metric-type", d.metricType);
    if Given(d.routeMap) {
      MapShape(l2, "route-map", d.routeMap.value);
    } else {
      AppendEmpty(l2);
    }
  }

  lemma OriginLine(args: Ospf.Args) returns (line: string)
    requires args.defaultInfo.Some?
    requires Given(args.defaultInfo.value.routeMap) ==> IsToken(args.defaultInfo.value.routeMap.value)
    ensures Ospf.DefaultInfoLines(args) == [line] && SayingOf(line) == Some(Originate(OriginOf(args).value))
  {
    var d, head := args.defaultInfo.value, "default-information originate";
    assert head == "default-information" + " " + "originate";
    line := OriginText(d, head);
    OriginShape(args, head);
    OriginRead(d, head, "default-information", "originate");
  }

  predicate OriginWords(args: Ospf.Args) {
    args.defaultInfo.Some? && Given(args.defaultInfo.value.routeMap) ==>
      IsToken(args.defaultInfo.value.routeMap.value)
  }

  lemma OriginHeard(p: Process, args: Ospf.Args)
    requires OriginWords(args)
    ensures Hears(p, Ospf.DefaultInfoLines(args), WithOrigin(p, OriginOf(args)))
  {
    OriginIsPut(p, OriginOf(args));
    if args.defaultInfo.Some? {
      var line := OriginLine(args);
      HeardAs(p, Ospf.DefaultInfoLines(args), line, Originate(OriginOf(args).value), WithOrigin(p, OriginOf(args)));
    } else {
      NoneHeard(p, Ospf.DefaultInfoLines(args), WithOrigin(p, OriginOf(args)));
    }
  }

  lemma OriginIsPut(p: Process, origin: Option<Origin>)
    ensures if origin.Some? then Heard(p, Originate(origin.value)) == WithOrigin(p, origin)
            else WithOrigin(p, origin) == p
  {
  }

  function WithPaths(p: Process, args: Ospf.Args): Process {
    WithOrigin(WithNumber(p, MaximumPaths, args.maximumPaths), OriginOf(args))
  }

  lemma AllPathsHeard(p: Process, args: Ospf.Args)
    requires OriginWords(args)
    ensures Hears(p, Ospf.PathLines(args), WithPaths(p, args))
  {
    var p1 := WithNumber(p, MaximumPaths, args.maximumPaths);
    PathsHeard(p, args.maximumPaths);
    OriginHeard(p1, args);
    HearsThen(p, Numbered("maximum-paths ", args.maximumPaths), p1, Ospf.DefaultInfoLines(args), WithPaths(p, args));
  }

  // ---- summaries and graceful restart --------------------------------------------------------------

  lemma SummarySaid(line: string, word: string, prefix: string)
    requires Fields(line) == [word, prefix] && word == "summary-address"
    ensures SayingOf(line) == Some(Summary(prefix))
  {
  }

  lemma SummaryRead(prefix: string, head: string, word: string)
    requires IsToken(prefix) && head == word + " " && word == "summary-address"
    ensures SayingOf(head + prefix) == Some(Summary(prefix))
  {
    TwoWordLine(head, word, prefix);
    SummarySaid(head + prefix, word, prefix);
  }

  function WithSummaries(p: Process, summaries: seq<string>): Process {
    p.(summaries := p.summaries + RangeSet(summaries))
  }

  lemma SummariesGrow(p: Process, summaries: seq<string>)
    requires summaries != []
    ensures var n := |summaries| - 1;
            Heard(WithSummaries(p, summaries[..n]), Summary(summaries[n])) == WithSummaries(p, summaries)
  {
    var n := |summaries| - 1;
    RangeSetMore(summaries);
    assert p.summaries + RangeSet(summaries[..n]) + {summaries[n]} == p.summaries + RangeSet(summaries);
  }

  lemma {:induction false} SummariesHeard(p: Process, summaries: seq<string>, head: string)
    requires AllTokens(summaries) && head == "summary-address "
    ensures Hears(p, Each(head, summaries), WithSummaries(p, summaries))
  {
    if summaries == [] {
      assert p.summaries + RangeSet([]) == p.summaries;
      HearsNone(p);
    } else {
      var n := |summaries| - 1;
      SummariesHeard(p, summaries[..n], head);
      SummaryRead(summaries[n], head, "summary-address");
      SummariesGrow(p, summaries);
      EachLast(head, summaries);
      HearsMore(p, Each(head, summaries[..n]), WithSummaries(p, summaries[..n]), head + summaries[n],
                Summary(summaries[n]), WithSummaries(p, summaries));
    }
  }

  function WithHelper(p: Process, on: bool): Process {
    if on then p.(helper := true) else p
  }

  lemma HelperLine(args: Ospf.Args) returns (line: string)
    ensures SayingOf(line) == Some(Helper)
    ensures Ospf.GracefulLines(args) == if args.gracefulHelper == Some(true) then [line] else []
  {
    line := HelperWord();
    HelperLines(args);
  }

  lemma HelperWord() returns (line: string)
    ensures line == "graceful-restart-helper" && SayingOf(line) == Some(Helper)
  {
    line := HelperToken();
    WordRead(line);
  }

  lemma HelperToken() returns (line: string)
    ensures line == "graceful-restart-helper" && IsToken(line)
  {
    line := "graceful-restart-helper";
  }

  lemma HelperLines(args: Ospf.Args)
    ensures Ospf.GracefulLines(args) == if args.gracefulHelper == Some(true) then ["graceful-restart-helper"] else []
  {
  }

  lemma HelperIsPut(p: Process)
    ensures Heard(p, Helper) == WithHelper(p, true)
  {
  }

  lemma HelperSaid(p: Process, on: bool, lines: seq<string>, line: string)
    requires SayingOf(line) == Some(Helper) && lines == if on then [line] else []
    ensures Hears(p, lines, WithHelper(p, on))
  {
    if on {
      HelperIsPut(p);
      HeardAs(p, lines, line, Helper, WithHelper(p, true));
    } else {
      NoneHeard(p, lines, p);
    }
  }

  lemma HelperHeard(p: Process, args: Ospf.Args)
    ensures Hears(p, Ospf.GracefulLines(args), WithHelper(p, args.gracefulHelper == Some(true)))
  {
    var line := HelperLine(args);
    HelperSaid(p, args.gracefulHelper == Some(true), Ospf.GracefulLines(args), line);
  }

  function WithTail(p: Process, args: Ospf.Args): Process {
    WithHelper(WithSummaries(p, args.summaries), args.gracefulHelper == Some(true))
  }

  lemma TailHeard(p: Process, args: Ospf.Args)
    requires AllTokens(args.summaries)
    ensures Hears(p, Ospf.TailLines(args), WithTail(p, args))
  {
    var p1 := WithSummaries(p, args.summaries);
    SummariesHeard(p, args.summaries, "summary-address ");
    HelperHeard(p1, args);
    HearsThen(p, Each("summary-address ", args.summaries), p1, Ospf.GracefulLines(args), WithTail(p, args));
  }

  // ---- the whole body -----------------------------------------------------------------------------

  /** The texts are single words, and no interface is named like the keyword `default`. */
  predicate WordsOnly(args: Ospf.Args) {
    && (Given(args.routerId) ==> IsToken(args.routerId.value))
    && AllIfaces(args.noPassive) && AllIfaces(args.passive)
    && RouteWords(args) && OriginWords(args) && AllTokens(args.summaries)
  }

  function WithBody(p: Process, args: Ospf.Args): Process {
    WithTail(WithPaths(WithLimits(WithRoutes(WithInterfaces(WithDistances(WithScalars(p, args), args), args), args),
                                  args), args), args)
  }

  lemma HearsSeven(p: Process, a: seq<string>, p1: Process, b: seq<string>, p2: Process, c: seq<string>, p3: Process,
                   d: seq<string>, p4: Process, e: seq<string>, p5: Process, f: seq<string>, p6: Process,
                   g: seq<string>, after: Process)
    requires Hears(p, a, p1) && Hears(p1, b, p2) && Hears(p2, c, p3) && Hears(p3, d, p4) && Hears(p4, e, p5)
    requires Hears(p5, f, p6) && Hears(p6, g, after)
    ensures Hears(p, a + b + c + d + e + f + g, after)
  {
    HearsThree(p, a, p1, b, p2, c, p3);
    HearsThree(p, a + b + c, p3, d, p4, e, p5);
    HearsThree(p, a + b + c + d + e, p5, f, p6, g, after);
  }

  lemma BodyHeard(p: Process, args: Ospf.Args)
    requires WordsOnly(args)
    ensures Hears(p, Ospf.Body(args), WithBody(p, args))
  {
    var p1 := WithScalars(p, args);
    var p2 := WithDistances(p1, args);
    var p3 := WithInterfaces(p2, args);
    var p4 := WithRoutes(p3, args);
    var p5 := WithLimits(p4, args);
    var p6 := WithPaths(p5, args);
    ScalarsHeard(p, args);
    DistancesHeard(p1, args);
    InterfacesHeard(p2, args);
    RoutesHeard(p3, args);
    LimitsHeard(p4, args);
    AllPathsHeard(p5, args);
    TailHeard(p6, args);
    HearsSeven(p, Ospf.ScalarLines(args), p1, Ospf.DistanceLines(args), p2, Ospf.InterfaceLines(args), p3,
               Ospf.RouteLines(args), p4, Ospf.LimitLines(args), p5, Ospf.PathLines(args), p6, Ospf.TailLines(args),
               WithBody(p, args));
  }
}
