/** Reading an OSPF process back from `show running-config section ospf`. */
module OspfRead {
  import opened Seqs
  import opened Text
  import opened Rendering
  import opened Scanner
  import opened Sorting
  import opened OspfSection
  import OspfArea

  /** The fields the reader recovers; zero and "" stand for "not in the text". */
  datatype Row = Row(
    routerId: string,
    shutdown: Option<bool>,
    maxLsa: Int,
    maximumPaths: Int,
    passiveDefault: Option<bool>)

  datatype Cursor = Cursor(found: bool, inOurs: bool, row: Row)

  const EMPTY := Row("", None, 0, 0, None)
  const START := Cursor(false, false, EMPTY)

  function ApplyRouterOspfLine(row: Row, line: string): Row {
    if HasPrefix(line, "router-id ") then row.(routerId := TrimPrefix(line, "router-id "))
    else if line == "shutdown" then row.(shutdown := Some(true))
    else if line == "no shutdown" then row.(shutdown := Some(false))
    else if HasPrefix(line, "max-lsa ") then
      var fields := Fields(TrimPrefix(line, "max-lsa "));
      if fields != [] && Atoi(fields[0]).Some? then row.(maxLsa := Atoi(fields[0]).value) else row
    else if HasPrefix(line, "maximum-paths ") then
      var n := Atoi(TrimPrefix(line, "maximum-paths "));
      if n.Some? then row.(maximumPaths := n.value) else row
    else if line == "passive-interface default" then row.(passiveDefault := Some(true))
    else row
  }

  const ApplyLine := (row: Row, line: string) => ApplyRouterOspfLine(row, line)

  predicate IsHeader(line: string) {
    HasPrefix(line, "router ospf")
  }

  function Next(header: string, st: Cursor, line: string): Cursor {
    if IsHeader(line) then Cursor(st.found || line == header, line == header, st.row)
    else if st.inOurs then st.(row := ApplyRouterOspfLine(st.row, line))
    else st
  }

  function Step(header: string): (Cursor, string) -> Cursor {
    (st: Cursor, line: string) => Next(header, st, line)
  }

  function Reading(lines: seq<string>, instance: Int, vrf: string): Option<Row> {
    var st := Scan(START, lines, Step(Header(instance, vrf)));
    if st.found then Some(st.row) else None
  }

  method ParseRouterOspfSection(out: string, instance: Int, vrf: string) returns (row: Row, found: bool)
    ensures Reading(TrimmedLines(out), instance, vrf) == if found then Some(row) else None
    ensures !found ==> row == EMPTY
  {
    var header := "router ospf " + Itoa(instance);
    if vrf != "" {
      header := header + " vrf " + vrf;
    }
    var raws := Split(out, '\n');
    ghost var lines := TrimmedLines(out);
    var inOurs := false;
    row, found := EMPTY, false;
    for i := 0 to |raws|
      invariant Cursor(found, inOurs, row) == Scan(START, lines[..i], Step(header))
    {
      var line := TrimSpace(raws[i]);
      assert line == lines[i];
      TakeSnoc(lines, i);
      ghost var st := Cursor(found, inOurs, row);
      ScanSnoc(START, lines[..i], line, Step(header));
      assert Scan(START, lines[..i + 1], Step(header)) == Next(header, st, line);
      if HasPrefix(line, "router ospf") {
        inOurs := line == header;
        if inOurs {
          found := true;
        }
      } else if inOurs {
        row := ApplyRouterOspfLine(row, line);
      }
    }
    TakeAll(lines);
    if !found {
      row := EMPTY;
    }
  }

  // ---- lines the reader passes over --------------------------------------------------

  predicate Quiet(line: string) {
    && !IsHeader(line)
    && !HasPrefix(line, "router-id ")
    && line != "shutdown" && line != "no shutdown"
    && !HasPrefix(line, "max-lsa ")
    && !HasPrefix(line, "maximum-paths ")
    && line != "passive-interface default"
  }

  predicate AllQuiet(lines: seq<string>) {
    forall i :: 0 <= i < |lines| ==> Quiet(lines[i])
  }

  lemma QuietIdle(row: Row, lines: seq<string>)
    requires AllQuiet(lines)
    ensures Scan(row, lines, ApplyLine) == row
  {
    forall i | 0 <= i < |lines| ensures ApplyLine(row, lines[i]) == row {
      assert Quiet(lines[i]);
    }
    ScanIdle(row, lines, ApplyLine);
  }

  /** Other keywords, told apart by their first letters. */
  predicate OtherKeyword(s: string) {
    && |s| >= 4
    && s[0] != 'm' && s[0] != 'p'
    && (s[0] == 'r' ==> s[1] != 'o')
    && (s[0] == 's' ==> s[1] != 'h')
    && (s[0] == 'n' ==> s[1] != 'o' || s[3] != 's')
  }

  lemma QuietKeyword(line: string)
    requires OtherKeyword(line)
    ensures Quiet(line)
  {
    OtherWord(line, "router ospf", "router-id ", "max-lsa ", "maximum-paths ");
    assert line != "shutdown" && line != "no shutdown" && line != "passive-interface default";
  }

  lemma OtherWord(line: string, a: string, b: string, c: string, d: string)
    requires |line| >= 2 && |a| >= 2 && |b| >= 2 && |c| >= 2 && |d| >= 2
    requires line[0] != a[0] || line[1] != a[1]
    requires line[0] != b[0] || line[1] != b[1]
    requires line[0] != c[0]
    requires line[0] != d[0]
    ensures !HasPrefix(line, a) && !HasPrefix(line, b) && !HasPrefix(line, c) && !HasPrefix(line, d)
  {
    NoPrefix(line, a, if line[0] != a[0] then 0 else 1);
    NoPrefix(line, b, if line[0] != b[0] then 0 else 1);
    NoPrefix(line, c, 0);
    NoPrefix(line, d, 0);
  }

  lemma QuietAfter(head: string, line: string)
    requires OtherKeyword(head) && HasPrefix(line, head)
    ensures Quiet(line)
  {
    assert forall i :: 0 <= i < 4 ==> line[i] == line[..|head|][i];
    QuietKeyword(line);
  }

  lemma NumberedQuiet(head: string, n: Option<Int>)
    requires OtherKeyword(head)
    ensures AllQuiet(Numbered(head, n))
  {
    if n.Some? {
      CutOwnPrefix(head, Itoa(n.value));
      QuietAfter(head, head + Itoa(n.value));
    }
  }

  lemma EachQuiet(head: string, tails: seq<string>)
    requires OtherKeyword(head)
    ensures AllQuiet(Each(head, tails))
  {
    forall i | 0 <= i < |tails| ensures Quiet(Each(head, tails)[i]) {
      CutOwnPrefix(head, tails[i]);
      QuietAfter(head, head + tails[i]);
    }
  }

  lemma CollectQuiet<T>(s: seq<T>, f: T -> seq<string>)
    requires forall i :: 0 <= i < |s| ==> AllQuiet(f(s[i]))
    ensures AllQuiet(Collect(s, f))
  {
    CollectAll(s, f, Quiet);
  }

  // ---- the sections of a body ------------------------------------------------------------

  predicate NoHeaders(lines: seq<string>) {
    forall i :: 0 <= i < |lines| ==> !IsHeader(lines[i])
  }

  /** Reading the lines takes one row to the other, inside the section. */
  predicate Effect(lines: seq<string>, before: Row, after: Row) {
    NoHeaders(lines) && Scan(before, lines, ApplyLine) == after
  }

  lemma QuietEffect(lines: seq<string>, row: Row)
    requires AllQuiet(lines)
    ensures Effect(lines, row, row)
  {
    QuietIdle(row, lines);
    forall i | 0 <= i < |lines| ensures !IsHeader(lines[i]) {
      assert Quiet(lines[i]);
    }
  }

  lemma EffectAppend(a: seq<string>, b: seq<string>, r0: Row, r1: Row, r2: Row)
    requires Effect(a, r0, r1) && Effect(b, r1, r2)
    ensures Effect(a + b, r0, r2)
  {
    ScanAppend(r0, a, b, ApplyLine);
  }

  lemma EmptyEffect(row: Row)
    ensures Effect([], row, row)
  {
  }

  lemma OneEffect(line: string, row: Row)
    requires !IsHeader(line)
    ensures Effect([line], row, ApplyRouterOspfLine(row, line))
  {
    ScanOne(row, line, ApplyLine);
  }

  lemma EffectThree(a: seq<string>, b: seq<string>, c: seq<string>, r0: Row, r1: Row, r2: Row, r3: Row)
    requires Effect(a, r0, r1) && Effect(b, r1, r2) && Effect(c, r2, r3)
    ensures Effect(a + b + c, r0, r3)
  {
    EffectAppend(a, b, r0, r1, r2);
    EffectAppend(a + b, c, r0, r2, r3);
  }

  lemma RouterIdRead(args: Args, row: Row)
    ensures Effect(RouterIdLines(args), row,
              if Deref(args.routerId) != "" then row.(routerId := args.routerId.value) else row)
  {
    if Deref(args.routerId) != "" {
      RouterIdLine(args.routerId.value, row);
      OneEffect("router-id " + args.routerId.value, row);
    } else {
      EmptyEffect(row);
    }
  }

  lemma RouterIdLine(id: string, row: Row)
    ensures !IsHeader("router-id " + id)
    ensures ApplyRouterOspfLine(row, "router-id " + id) == row.(routerId := id)
  {
    CutOwnPrefix("router-id ", id);
    NoPrefix("router-id " + id, "router ospf", 6);
  }

  lemma ShutdownRead(args: Args, row: Row)
    ensures Effect(ShutdownLines(args), row, if args.shutdown.Some? then row.(shutdown := args.shutdown) else row)
  {
    ShutdownLine(row);
    NoShutdownLine(row);
    if args.shutdown.Some? {
      OneEffect(if args.shutdown.value then "shutdown" else "no shutdown", row);
    } else {
      EmptyEffect(row);
    }
  }

  lemma ShutdownLine(row: Row)
    ensures !IsHeader("shutdown")
    ensures ApplyRouterOspfLine(row, "shutdown") == row.(shutdown := Some(true))
  {
    NoPrefix("shutdown", "router-id ", 0);
    NoPrefix("shutdown", "router ospf", 0);
  }

  lemma NoShutdownLine(row: Row)
    ensures !IsHeader("no shutdown")
    ensures ApplyRouterOspfLine(row, "no shutdown") == row.(shutdown := Some(false))
  {
    NoPrefix("no shutdown", "router-id ", 0);
    NoPrefix("no shutdown", "router ospf", 0);
    assert "no shutdown" != "shutdown";
  }

  lemma MaxLsaRead(args: Args, row: Row)
    ensures Effect(Numbered("max-lsa ", args.maxLsa), row,
              if args.maxLsa.Some? then row.(maxLsa := args.maxLsa.value) else row)
  {
    if args.maxLsa.Some? {
      ItoaToken(args.maxLsa.value);
      AtoiItoa(args.maxLsa.value);
      MaxLsaLine(Itoa(args.maxLsa.value), args.maxLsa.value, row);
      OneEffect("max-lsa " + Itoa(args.maxLsa.value), row);
    } else {
      EmptyEffect(row);
    }
  }

  lemma MaxLsaLine(digits: string, n: Int, row: Row)
    requires IsToken(digits) && Atoi(digits) == Some(n)
    ensures !IsHeader("max-lsa " + digits)
    ensures ApplyRouterOspfLine(row, "max-lsa " + digits) == row.(maxLsa := n)
  {
    var line := "max-lsa " + digits;
    CutOwnPrefix("max-lsa ", digits);
    FieldsToken(digits);
    NoPrefix(line, "router ospf", 0);
    NoPrefix(line, "router-id ", 0);
    assert line[0] == 'm';
  }

  lemma MaximumPathsRead(args: Args, row: Row)
    ensures Effect(Numbered("maximum-paths ", args.maximumPaths), row,
              if args.maximumPaths.Some? then row.(maximumPaths := args.maximumPaths.value) else row)
  {
    if args.maximumPaths.Some? {
      AtoiItoa(args.maximumPaths.value);
      MaximumPathsLine(Itoa(args.maximumPaths.value), args.maximumPaths.value, row);
      OneEffect("maximum-paths " + Itoa(args.maximumPaths.value), row);
    } else {
      EmptyEffect(row);
    }
  }

  lemma MaximumPathsLine(digits: string, n: Int, row: Row)
    requires Atoi(digits) == Some(n)
    ensures !IsHeader("maximum-paths " + digits)
    ensures ApplyRouterOspfLine(row, "maximum-paths " + digits) == row.(maximumPaths := n)
  {
    var line := "maximum-paths " + digits;
    CutOwnPrefix("maximum-paths ", digits);
    NoPrefix(line, "router ospf", 0);
    NoPrefix(line, "router-id ", 0);
    NoPrefix(line, "max-lsa ", 3);
    assert line[0] == 'm';
  }

  function AsPassive(row: Row): Row {
    row.(passiveDefault := Some(true))
  }

  lemma PassiveLine(name: string, row: Row)
    ensures !IsHeader("passive-interface " + name)
    ensures ApplyRouterOspfLine(row, "passive-interface " + name) == if name == "default" then AsPassive(row) else row
  {
    var line := "passive-interface " + name;
    NoPrefix(line, "router ospf", 0);
    NoPrefix(line, "router-id ", 0);
    NoPrefix(line, "max-lsa ", 0);
    NoPrefix(line, "maximum-paths ", 0);
    assert line[0] == 'p';
    SameTail("passive-interface ", name, "default");
    PassiveDefaultText();
  }

  lemma PassiveDefaultText()
    ensures "passive-interface " + "default" == "passive-interface default"
  {
  }

  lemma SameTail(head: string, a: string, b: string)
    ensures head + a == head + b <==> a == b
  {
    assert (head + a)[|head|..] == a && (head + b)[|head|..] == b;
  }

  lemma PassiveDefaultRead(args: Args, row: Row)
    ensures Effect(PassiveDefaultLines(args), row, if args.passiveDefault == Some(true) then AsPassive(row) else row)
  {
    if args.passiveDefault == Some(true) {
      PassiveDefaultText();
      PassiveLine("default", row);
      OneEffect("passive-interface default", row);
    } else {
      EmptyEffect(row);
    }
  }

  /** An interface named `default` would be read as the process-wide default. */
  lemma {:induction false} PassiveRead(names: seq<string>, row: Row)
    ensures Effect(Each("passive-interface ", names), row, if "default" in names then AsPassive(row) else row)
  {
    if names == [] {
      EmptyEffect(row);
    } else {
      var front, name := names[..|names| - 1], names[|names| - 1];
      var mid := if "default" in front then AsPassive(row) else row;
      PassiveRead(front, row);
      PassiveLine(name, mid);
      OneEffect("passive-interface " + name, mid);
      Snoc(names);
      EachSnoc("passive-interface ", front, name);
      EffectAppend(Each("passive-interface ", front), ["passive-interface " + name], row, mid,
                   if name == "default" then AsPassive(mid) else mid);
    }
  }

  lemma OneQuiet(line: string)
    requires OtherKeyword(line)
    ensures AllQuiet([line])
  {
    QuietKeyword(line);
  }

  lemma CostQuiet(args: Args)
    ensures AllQuiet(CostLines(args))
  {
    NumberedQuiet("auto-cost reference-bandwidth ", args.autoCost);
  }

  lemma DistanceQuiet(args: Args)
    ensures AllQuiet(DistanceLines(args))
  {
    match args.distance {
      case None =>
      case Some(d) =>
        NumberedQuiet("distance ospf intra-area ", d.intraArea);
        NumberedQuiet("distance ospf inter-area ", d.interArea);
        NumberedQuiet("distance ospf external ", d.external);
    }
  }

  lemma NoPassiveQuiet(args: Args)
    ensures AllQuiet(NoPassiveLines(args))
  {
    EachQuiet("no passive-interface ", args.noPassive);
  }

  lemma RedistributeQuiet(args: Args)
    ensures AllQuiet(Collect(args.redistribute, RedistributeLine))
  {
    forall r: Redistribute ensures AllQuiet(RedistributeLine(r)) {
      OneQuiet(RedistributeText(r));
    }
    CollectQuiet(args.redistribute, RedistributeLine);
  }

  lemma AreasQuiet(args: Args)
    ensures AllQuiet(Collect(args.areas, AreaLines))
  {
    forall i | 0 <= i < |args.areas| ensures AllQuiet(AreaLines(args.areas[i])) {
      AreaQuiet(args.areas[i]);
    }
    CollectQuiet(args.areas, AreaLines);
  }

  lemma AreaQuiet(a: OspfArea.Area)
    ensures AllQuiet(OspfArea.AreaLines(a))
  {
    var lines := OspfArea.AreaLines(a);
    forall i | 0 <= i < |lines| ensures Quiet(lines[i]) {
      OspfArea.AreaLinesNameArea(a, i);
      QuietAfter(OspfArea.AreaHead(a), lines[i]);
    }
  }

  lemma NetworksQuiet(args: Args)
    ensures AllQuiet(Collect(args.networks, NetworkLine))
  {
    forall n: OspfArea.Network ensures AllQuiet(NetworkLine(n)) {
      OneQuiet(OspfArea.NetworkLine(n));
    }
    CollectQuiet(args.networks, NetworkLine);
  }

  lemma LogQuiet(args: Args)
    ensures AllQuiet(LogLines(args))
  {
    OneQuiet("no log-adjacency-changes");
    OneQuiet("log-adjacency-changes detail");
    OneQuiet("log-adjacency-changes");
  }

  lemma TimersQuiet(args: Args)
    ensures AllQuiet(TimerLines(args))
  {
    match args.timers {
      case None =>
      case Some(t) =>
        NumberedQuiet("timers out-delay ", t.outDelay);
        NumberedQuiet("timers pacing flood ", t.pacingFlood);
        if SpfLines(t) != [] {
          OneQuiet(SpfLines(t)[0]);
        }
    }
  }

  lemma DefaultInfoQuiet(args: Args)
    ensures AllQuiet(DefaultInfoLines(args))
  {
    if DefaultInfoLines(args) != [] {
      OneQuiet(DefaultInfoLines(args)[0]);
    }
  }

  lemma SummariesQuiet(args: Args)
    ensures AllQuiet(Each("summary-address ", args.summaries))
  {
    EachQuiet("summary-address ", args.summaries);
  }

  lemma GracefulQuiet(args: Args)
    ensures AllQuiet(GracefulLines(args))
  {
    OneQuiet("graceful-restart-helper");
  }

  // ---- the whole body ------------------------------------------------------------------------

  /** What a reader can recover from the arguments. */
  function RowOf(args: Args): Row {
    Row(
      Deref(args.routerId),
      args.shutdown,
      if args.maxLsa.Some? then args.maxLsa.value else 0,
      if args.maximumPaths.Some? then args.maximumPaths.value else 0,
      if args.passiveDefault == Some(true) || "default" in args.passive then Some(true) else None)
  }

  lemma ScalarsRead(args: Args)
    ensures Effect(ScalarLines(args), EMPTY, EMPTY.(routerId := Deref(args.routerId), shutdown := args.shutdown))
  {
    var r1 := EMPTY.(routerId := Deref(args.routerId));
    var r2 := r1.(shutdown := args.shutdown);
    RouterIdRead(args, EMPTY);
    ShutdownRead(args, r1);
    CostQuiet(args);
    QuietEffect(CostLines(args), r2);
    EffectThree(RouterIdLines(args), ShutdownLines(args), CostLines(args), EMPTY, r1, r2, r2);
  }

  lemma InterfacesRead(args: Args, r: Row)
    ensures Effect(InterfaceLines(args), r,
              if args.passiveDefault == Some(true) || "default" in args.passive then AsPassive(r) else r)
  {
    var mid := if args.passiveDefault == Some(true) then AsPassive(r) else r;
    PassiveDefaultRead(args, r);
    NoPassiveQuiet(args);
    QuietEffect(NoPassiveLines(args), mid);
    PassiveRead(args.passive, mid);
    EffectThree(PassiveDefaultLines(args), NoPassiveLines(args), PassiveLines(args), r, mid, mid,
                if "default" in args.passive then AsPassive(mid) else mid);
  }

  lemma RoutesRead(args: Args, r: Row)
    ensures Effect(RouteLines(args), r, r)
  {
    RedistributeQuiet(args);
    AreasQuiet(args);
    NetworksQuiet(args);
    QuietEffect(RouteLines(args), r);
  }

  lemma LimitsRead(args: Args, r: Row)
    ensures Effect(LimitLines(args), r, if args.maxLsa.Some? then r.(maxLsa := args.maxLsa.value) else r)
  {
    var r1 := if args.maxLsa.Some? then r.(maxLsa := args.maxLsa.value) else r;
    MaxLsaRead(args, r);
    LogQuiet(args);
    QuietEffect(LogLines(args), r1);
    TimersQuiet(args);
    QuietEffect(TimerLines(args), r1);
    EffectThree(Numbered("max-lsa ", args.maxLsa), LogLines(args), TimerLines(args), r, r1, r1, r1);
  }

  lemma PathsRead(args: Args, r: Row)
    ensures Effect(PathLines(args), r,
                   if args.maximumPaths.Some? then r.(maximumPaths := args.maximumPaths.value) else r)
  {
    var r1 := if args.maximumPaths.Some? then r.(maximumPaths := args.maximumPaths.value) else r;
    MaximumPathsRead(args, r);
    DefaultInfoQuiet(args);
    QuietEffect(DefaultInfoLines(args), r1);
    EffectAppend(Numbered("maximum-paths ", args.maximumPaths), DefaultInfoLines(args), r, r1, r1);
  }

  lemma TailRead(args: Args, r: Row)
    ensures Effect(TailLines(args), r, r)
  {
    SummariesQuiet(args);
    GracefulQuiet(args);
    QuietEffect(TailLines(args), r);
  }

  lemma BodyRead(args: Args)
    ensures Effect(Body(args), EMPTY, RowOf(args))
  {
    var r1 := EMPTY.(routerId := Deref(args.routerId), shutdown := args.shutdown);
    var r2 := if args.passiveDefault == Some(true) || "default" in args.passive then AsPassive(r1) else r1;
    var r3 := if args.maxLsa.Some? then r2.(maxLsa := args.maxLsa.value) else r2;
    var r4 := if args.maximumPaths.Some? then r3.(maximumPaths := args.maximumPaths.value) else r3;
    FrontRead(args, r1, r2);
    BackRead(args, r2, r3, r4);
    EffectThree(ScalarLines(args) + DistanceLines(args) + InterfaceLines(args) + RouteLines(args),
                LimitLines(args) + PathLines(args), TailLines(args), EMPTY, r2, r4, r4);
    Associate(ScalarLines(args) + DistanceLines(args) + InterfaceLines(args) + RouteLines(args),
              LimitLines(args), PathLines(args));
  }

  lemma FrontRead(args: Args, r1: Row, r2: Row)
    requires r1 == EMPTY.(routerId := Deref(args.routerId), shutdown := args.shutdown)
    requires r2 == if args.passiveDefault == Some(true) || "default" in args.passive then AsPassive(r1) else r1
    ensures Effect(ScalarLines(args) + DistanceLines(args) + InterfaceLines(args) + RouteLines(args), EMPTY, r2)
  {
    ScalarsRead(args);
    DistanceQuiet(args);
    QuietEffect(DistanceLines(args), r1);
    InterfacesRead(args, r1);
    RoutesRead(args, r2);
    EffectThree(ScalarLines(args), DistanceLines(args), InterfaceLines(args), EMPTY, r1, r1, r2);
    EffectAppend(ScalarLines(args) + DistanceLines(args) + InterfaceLines(args), RouteLines(args), EMPTY, r2, r2);
  }

  lemma BackRead(args: Args, r2: Row, r3: Row, r4: Row)
    requires r3 == if args.maxLsa.Some? then r2.(maxLsa := args.maxLsa.value) else r2
    requires r4 == if args.maximumPaths.Some? then r3.(maximumPaths := args.maximumPaths.value) else r3
    ensures Effect(LimitLines(args) + PathLines(args), r2, r4)
    ensures Effect(TailLines(args), r4, r4)
  {
    LimitsRead(args, r2);
    PathsRead(args, r3);
    TailRead(args, r4);
    EffectAppend(LimitLines(args), PathLines(args), r2, r3, r4);
  }

  // ---- sections of other processes -------------------------------------------------------------

  lemma {:induction false} OwnLines(lines: seq<string>, st: Cursor, header: string)
    requires NoHeaders(lines) && st.inOurs
    ensures Scan(st, lines, Step(header)) == st.(row := Scan(st.row, lines, ApplyLine))
  {
    if lines != [] {
      var n := |lines| - 1;
      assert !IsHeader(lines[n]);
      assert forall i :: 0 <= i < n ==> lines[..n][i] == lines[i];
      OwnLines(lines[..n], st, header);
    }
  }

  /** Text before the section: nothing sticks. */
  lemma ForeignLines(lines: seq<string>, st: Cursor, header: string)
    requires header !in lines && !st.inOurs
    ensures Scan(st, lines, Step(header)) == st
  {
    forall i | 0 <= i < |lines| ensures Step(header)(st, lines[i]) == st {
      assert lines[i] != header;
      assert Next(header, st, lines[i]) == st;
    }
    ScanIdle(st, lines, Step(header));
  }

  /** The lines that the reader still takes for the section's own: up to the next process,
      or to the end. */
  function Closing(post: seq<string>): (lines: seq<string>)
    ensures NoHeaders(lines) && lines <= post
  {
    if post == [] || IsHeader(post[0]) then [] else [post[0]] + Closing(post[1..])
  }

  lemma ClosingLines(post: seq<string>, st: Cursor, header: string)
    requires header !in post && st.inOurs
    ensures var r := Scan(st, post, Step(header));
            r.found == st.found && r.row == Scan(st.row, Closing(post), ApplyLine)
  {
    var lines := Closing(post);
    var k := |lines|;
    PrefixParts(post, lines);
    OwnLines(lines, st, header);
    ScanAppend(st, lines, post[k..], Step(header));
    ClosingEnds(post);
    if k < |post| {
      AfterHeader(Scan(st, lines, Step(header)), post[k..], header);
    }
  }

  /** From the next process on, nothing is read. */
  lemma AfterHeader(st: Cursor, rest: seq<string>, header: string)
    requires rest != [] && IsHeader(rest[0]) && header !in rest
    ensures var r := Scan(st, rest, Step(header)); r.found == st.found && r.row == st.row
  {
    Cons(rest);
    ScanAppend(st, [rest[0]], rest[1..], Step(header));
    ScanOne(st, rest[0], Step(header));
    assert Next(header, st, rest[0]) == Cursor(st.found, false, st.row);
    ForeignLines(rest[1..], Cursor(st.found, false, st.row), header);
  }

  lemma {:induction false} ClosingEnds(post: seq<string>)
    ensures var k := |Closing(post)|; k < |post| ==> IsHeader(post[k])
  {
    if post != [] && !IsHeader(post[0]) {
      ClosingEnds(post[1..]);
    }
  }

  /** Isolation from arbitrary text in front: of a process, the reader makes what its own
      lines say, and then the lines that follow up to the next process. */
  lemma SectionScanned(pre: seq<string>, args: Args, post: seq<string>)
    requires HeaderOf(args) !in pre && HeaderOf(args) !in post
    ensures Reading(pre + ([HeaderOf(args)] + Body(args)) + post, args.instance, Deref(args.vrf))
         == Some(Scan(RowOf(args), Closing(post), ApplyLine))
  {
    var header := HeaderOf(args);
    var ours := Cursor(true, true, EMPTY);
    ScanThree(START, pre, [header] + Body(args), post, Step(header));
    ForeignLines(pre, START, header);
    ScanAppend(START, [header], Body(args), Step(header));
    ScanOne(START, header, Step(header));
    HeaderIsHeader(args);
    assert Next(header, START, header) == ours;
    BodyRead(args);
    OwnLines(Body(args), ours, header);
    ClosingLines(post, ours.(row := RowOf(args)), header);
  }

  /** So its five fields are read as declared when those lines are passed over. */
  lemma SectionRead(pre: seq<string>, args: Args, post: seq<string>)
    requires HeaderOf(args) !in pre && HeaderOf(args) !in post && AllQuiet(Closing(post))
    ensures Reading(pre + ([HeaderOf(args)] + Body(args)) + post, args.instance, Deref(args.vrf)) == Some(RowOf(args))
  {
    SectionScanned(pre, args, post);
    QuietIdle(RowOf(args), Closing(post));
  }

  lemma HeaderIsHeader(args: Args)
    ensures IsHeader(HeaderOf(args))
  {
    var n := Itoa(args.instance);
    var tail := if Deref(args.vrf) == "" then n else n + " vrf " + Deref(args.vrf);
    PrefixThen("router ospf", " ", tail);
    HeaderTail(args);
  }

  lemma PrefixThen(p: string, sep: string, rest: string)
    ensures HasPrefix(p + sep + rest, p)
  {
    assert (p + sep + rest)[..|p|] == p;
  }

  lemma HeaderTail(args: Args)
    ensures var n := Itoa(args.instance);
            var tail := if Deref(args.vrf) == "" then n else n + " vrf " + Deref(args.vrf);
            HeaderOf(args) == "router ospf" + " " + tail
  {
    var n := Itoa(args.instance);
    assert "router ospf " == "router ospf" + " ";
    Associate("router ospf ", n, " vrf ");
    Associate("router ospf ", n + " vrf ", Deref(args.vrf));
  }

  // ---- texts of rendered processes ---------------------------------------------------------------

  predicate PlainVrf(args: Args) {
    Deref(args.vrf) != "" ==> IsToken(args.vrf.value)
  }

  predicate SameProcess(a: Args, b: Args) {
    a.instance == b.instance && Deref(a.vrf) == Deref(b.vrf)
  }

  predicate Apart(procs: seq<Args>) {
    && (forall i :: 0 <= i < |procs| ==> PlainVrf(procs[i]))
    && (forall i, j :: 0 <= i < j < |procs| ==> !SameProcess(procs[i], procs[j]))
  }

  function HeaderWords(args: Args): seq<string> {
    if Deref(args.vrf) == "" then ["router", "ospf", Itoa(args.instance)]
    else ["router", "ospf", Itoa(args.instance), "vrf", args.vrf.value]
  }

  lemma HeaderFields(args: Args)
    requires PlainVrf(args)
    ensures Fields(HeaderOf(args)) == HeaderWords(args)
  {
    ItoaToken(args.instance);
    RouterOspf("router", "ospf");
    Words3("router", "ospf", Itoa(args.instance));
    if Deref(args.vrf) != "" {
      Words5("router", "ospf", Itoa(args.instance), "vrf", args.vrf.value);
      Spaced("router ospf " + Itoa(args.instance), "vrf", args.vrf.value);
    }
  }

  lemma RouterOspf(a: string, b: string)
    requires a == "router" && b == "ospf"
    ensures a + " " + b + " " == "router ospf "
  {
  }

  lemma Spaced(head: string, a: string, b: string)
    requires a == "vrf"
    ensures head + " vrf " + b == head + " " + a + " " + b
  {
    assert " vrf " == " " + a + " ";
    Associate(head, " " + a + " ", b);
    Associate(head, " ", a);
    Associate(head + " ", a, " ");
  }

  /** Process headers are as distinct as the processes. */
  lemma HeadersApart(a: Args, b: Args)
    requires PlainVrf(a) && PlainVrf(b)
    ensures HeaderOf(a) == HeaderOf(b) <==> SameProcess(a, b)
  {
    HeaderFields(a);
    HeaderFields(b);
    if HeaderOf(a) == HeaderOf(b) {
      assert HeaderWords(a)[2] == HeaderWords(b)[2];
      ItoaInjective(a.instance, b.instance);
      if Deref(a.vrf) != "" {
        assert HeaderWords(a)[4] == HeaderWords(b)[4];
      }
    }
  }

  const RenderedLines := (args: Args) => Rendered(args)

  lemma NegationQuiet(args: Args)
    ensures Quiet("no " + HeaderOf(args))
  {
    HeaderTail(args);
    OtherStart("no " + HeaderOf(args));
  }

  lemma OtherStart(line: string)
    requires |line| >= 4 && line[0] == 'n' && line[3] == 'r'
    ensures Quiet(line)
  {
    QuietKeyword(line);
  }

  lemma BodyNotHeader(args: Args, header: string)
    requires IsHeader(header)
    ensures header !in Body(args)
  {
    BodyRead(args);
    var body := Body(args);
    assert forall i :: 0 <= i < |body| ==> !IsHeader(body[i]);
  }

  /** Another process's block holds no line equal to ours, and starts quietly. */
  lemma OtherBlock(args: Args, header: string)
    requires IsHeader(header) && header != HeaderOf(args)
    ensures header !in Rendered(args)
    ensures Rendered(args) == ["no " + HeaderOf(args)] + ([HeaderOf(args)] + Body(args)) + ["exit"]
    ensures Quiet("no " + HeaderOf(args)) && IsHeader(HeaderOf(args))
  {
    NegationQuiet(args);
    HeaderIsHeader(args);
    BodyNotHeader(args, header);
    ExitIsNoHeader();
    BlockParts("no " + HeaderOf(args), HeaderOf(args), Body(args), "exit", header);
  }

  lemma ExitIsNoHeader()
    ensures !IsHeader("exit")
  {
    NoPrefix("exit", "router ospf", 0);
  }

  lemma BlockParts<T>(a: T, b: T, body: seq<T>, c: T, x: T)
    ensures [a, b] + body + [c] == [a] + ([b] + body) + [c]
    ensures x != a && x != b && x !in body && x != c ==> x !in [a, b] + body + [c]
  {
  }

  lemma {:induction false} OtherBlocks(procs: seq<Args>, header: string)
    requires IsHeader(header)
    requires forall i :: 0 <= i < |procs| ==> HeaderOf(procs[i]) != header
    ensures header !in Collect(procs, RenderedLines)
  {
    if procs != [] {
      var n := |procs| - 1;
      assert forall i :: 0 <= i < n ==> procs[..n][i] == procs[i];
      OtherBlocks(procs[..n], header);
      OtherBlock(procs[n], header);
    }
  }

  lemma ClosingStep(line: string, rest: seq<string>)
    ensures Closing([line] + rest) == if IsHeader(line) then [] else [line] + Closing(rest)
  {
    ConsParts(line, rest);
  }

  lemma ClosedByBlock(rest: seq<string>, args: Args)
    ensures AllQuiet(Closing(["exit"] + (["no " + HeaderOf(args)] + ([HeaderOf(args)] + rest))))
  {
    NegationQuiet(args);
    HeaderIsHeader(args);
    QuietKeyword("exit");
    ClosingStep(HeaderOf(args), rest);
    ClosingStep("no " + HeaderOf(args), [HeaderOf(args)] + rest);
    ClosingStep("exit", ["no " + HeaderOf(args)] + ([HeaderOf(args)] + rest));
  }

  lemma ClosedByEnd()
    ensures AllQuiet(Closing(["exit"]))
  {
    QuietKeyword("exit");
    AppendEmpty(["exit"]);
    ClosingStep("exit", []);
  }

  lemma ClosedByOthers(procs: seq<Args>)
    ensures AllQuiet(Closing(["exit"] + Collect(procs, RenderedLines)))
  {
    if procs == [] {
      ClosedByEnd();
      AppendEmpty(["exit"]);
    } else {
      var p := procs[0];
      Cons(procs);
      CollectAppend([p], procs[1..], RenderedLines);
      CollectOne(p, RenderedLines);
      var rest := Body(p) + ["exit"] + Collect(procs[1..], RenderedLines);
      ClosedByBlock(rest, p);
      BlockThen("no " + HeaderOf(p), HeaderOf(p), Body(p), ["exit"], Collect(procs[1..], RenderedLines));
    }
  }

  lemma BlockThen<T>(a: T, b: T, body: seq<T>, c: seq<T>, rest: seq<T>)
    ensures [a, b] + body + c + rest == [a] + ([b] + (body + c + rest))
  {
  }

  /** The text around one of several rendered processes. */
  lemma AroundBlock(procs: seq<Args>, k: nat)
    requires k < |procs|
    ensures Collect(procs, RenderedLines)
         == (Collect(procs[..k], RenderedLines) + ["no " + HeaderOf(procs[k])])
            + ([HeaderOf(procs[k])] + Body(procs[k]))
            + (["exit"] + Collect(procs[k + 1..], RenderedLines))
  {
    var a, b := Collect(procs[..k], RenderedLines), Collect(procs[k + 1..], RenderedLines);
    Around(procs, k);
    CollectAppend(procs[..k] + [procs[k]], procs[k + 1..], RenderedLines);
    CollectSnoc(procs[..k], procs[k], RenderedLines);
    BlockBetween(a, "no " + HeaderOf(procs[k]), HeaderOf(procs[k]), Body(procs[k]), ["exit"], b);
  }

  lemma BlockBetween<T>(before: seq<T>, a: T, b: T, body: seq<T>, c: seq<T>, after: seq<T>)
    ensures before + ([a, b] + body + c) + after == (before + [a]) + ([b] + body) + (c + after)
  {
  }

  lemma OtherHeader(procs: seq<Args>, k: nat, i: nat)
    requires k < |procs| && i < |procs| && i != k && Apart(procs)
    ensures HeaderOf(procs[i]) != HeaderOf(procs[k])
  {
    assert PlainVrf(procs[i]) && PlainVrf(procs[k]);
    assert if i < k then !SameProcess(procs[i], procs[k]) else !SameProcess(procs[k], procs[i]);
    HeadersApart(procs[i], procs[k]);
  }

  /** No other process has the header of this one. */
  lemma OthersElsewhere(procs: seq<Args>, k: nat)
    requires k < |procs| && Apart(procs)
    ensures HeaderOf(procs[k]) !in Collect(procs[..k], RenderedLines)
    ensures HeaderOf(procs[k]) !in Collect(procs[k + 1..], RenderedLines)
  {
    forall i | 0 <= i < |procs| && i != k ensures HeaderOf(procs[i]) != HeaderOf(procs[k]) {
      OtherHeader(procs, k, i);
    }
    HeaderIsHeader(procs[k]);
    OtherBlocks(procs[..k], HeaderOf(procs[k]));
    OtherBlocks(procs[k + 1..], HeaderOf(procs[k]));
  }

  /** The round trip, with isolation: from the rendered lines of several processes,
      distinct in instance or VRF, each reads back as its own. */
  lemma ReadsBack(procs: seq<Args>, k: nat, text: string)
    requires k < |procs| && Apart(procs)
    requires TrimmedLines(text) == Collect(procs, RenderedLines)
    ensures Reading(TrimmedLines(text), procs[k].instance, Deref(procs[k].vrf)) == Some(RowOf(procs[k]))
  {
    var args := procs[k];
    OthersElsewhere(procs, k);
    ClosedByOthers(procs[k + 1..]);
    AroundBlock(procs, k);
    NegationIsNoHeader(args);
    SectionRead(Collect(procs[..k], RenderedLines) + ["no " + HeaderOf(args)], args,
                ["exit"] + Collect(procs[k + 1..], RenderedLines));
  }

  lemma NegationIsNoHeader(args: Args)
    ensures HeaderOf(args) != "no " + HeaderOf(args)
    ensures HeaderOf(args) != "exit"
  {
    assert |"no " + HeaderOf(args)| == 3 + |HeaderOf(args)|;
    HeaderIsHeader(args);
    NoPrefix("exit", "router ospf", 0);
  }

  lemma AbsentNotFound(procs: seq<Args>, args: Args, text: string)
    requires Apart(procs) && PlainVrf(args)
    requires forall i :: 0 <= i < |procs| ==> !SameProcess(procs[i], args)
    requires TrimmedLines(text) == Collect(procs, RenderedLines)
    ensures Reading(TrimmedLines(text), args.instance, Deref(args.vrf)) == None
  {
    forall i | 0 <= i < |procs| ensures HeaderOf(procs[i]) != HeaderOf(args) {
      assert PlainVrf(procs[i]);
      HeadersApart(procs[i], args);
    }
    HeaderIsHeader(args);
    OtherBlocks(procs, HeaderOf(args));
    ForeignLines(TrimmedLines(text), START, HeaderOf(args));
  }

  // ---- drift -------------------------------------------------------------------------------------

  /** What a refresh writes over the stored arguments. */
  function FillState(row: Row, state: Args): Args {
    var s := if row.routerId != "" then state.(routerId := Some(row.routerId)) else state;
    var s := if row.shutdown.Some? then s.(shutdown := row.shutdown) else s;
    var s := if row.maxLsa > 0 then s.(maxLsa := Some(row.maxLsa)) else s;
    var s := if row.maximumPaths > 0 then s.(maximumPaths := Some(row.maximumPaths)) else s;
    if row.passiveDefault.Some? then s.(passiveDefault := row.passiveDefault) else s
  }

  lemma FillExactly(args: Args)
    requires ValidScalars(args)
    ensures FillState(RowOf(args), args) == args <==> ("default" in args.passive ==> args.passiveDefault == Some(true))
  {
  }

  /** A refresh from a text of rendered processes changes the validated arguments of
      a process in no way, except that an interface named `default` turns the
      process-wide default on. */
  lemma NoDriftExactly(procs: seq<Args>, k: nat, text: string)
    requires k < |procs| && Apart(procs) && ValidScalars(procs[k])
    requires TrimmedLines(text) == Collect(procs, RenderedLines)
    ensures var args := procs[k];
            var row := Reading(TrimmedLines(text), args.instance, Deref(args.vrf));
            && row.Some?
            && (FillState(row.value, args) == args
              <==> ("default" in args.passive ==> args.passiveDefault == Some(true)))
  {
    ReadsBack(procs, k, text);
    FillExactly(procs[k]);
  }

  /** What a refresh makes of stored arguments: of the five fields, those that the live
      process declares stand as declared; everything else is as it was stored. */
  predicate Refreshed(live: Args, stored: Args, s: Args) {
    s == stored.(
    routerId := if Given(live.routerId) then live.routerId else stored.routerId,
    shutdown := if live.shutdown.Some? then live.shutdown else stored.shutdown,
    maxLsa := if live.maxLsa.Some? then live.maxLsa else stored.maxLsa,
    maximumPaths := if live.maximumPaths.Some? then live.maximumPaths else stored.maximumPaths,
    passiveDefault := if live.passiveDefault == Some(true) || "default" in live.passive then Some(true)
                      else stored.passiveDefault)
  }

  lemma FillShows(live: Args, stored: Args)
    requires ValidScalars(live)
    ensures Refreshed(live, stored, FillState(RowOf(live), stored))
  {
  }

  /** Fields that the device holds for the process overwrite whatever was stored, and no
      others do. */
  lemma DriftIsSeen(procs: seq<Args>, k: nat, text: string, stored: Args)
    requires k < |procs| && Apart(procs) && ValidScalars(procs[k])
    requires TrimmedLines(text) == Collect(procs, RenderedLines)
    ensures var live := procs[k];
            var row := Reading(TrimmedLines(text), live.instance, Deref(live.vrf));
            row.Some? && Refreshed(live, stored, FillState(row.value, stored))
  {
    ReadsBack(procs, k, text);
    FillShows(procs[k], stored);
  }

  /** A valid process with a passive interface `default`, declared not to be passive by
      default: after a refresh it is. */
  lemma DefaultInterfaceDrifts(args: Args, text: string)
    requires args == Args(1, None, None, None, None, None, None, Some(false), ["default"],
                          [], [], [], [], None, [], None, None, None, None)
    requires TrimmedLines(text) == Rendered(args)
    ensures ValidScalars(args)
    ensures var row := Reading(TrimmedLines(text), args.instance, Deref(args.vrf));
            row.Some? && FillState(row.value, args).passiveDefault == Some(true)
  {
    OneProcess(args, text);
    DefaultFills(args);
  }

  lemma OneProcess(args: Args, text: string)
    requires PlainVrf(args) && TrimmedLines(text) == Rendered(args)
    ensures Reading(TrimmedLines(text), args.instance, Deref(args.vrf)) == Some(RowOf(args))
  {
    CollectOne(args, RenderedLines);
    ReadsBack([args], 0, text);
  }

  lemma DefaultFills(args: Args)
    requires args.passive == ["default"]
    ensures FillState(RowOf(args), args).passiveDefault == Some(true)
  {
    assert args.passive[0] == "default";
    assert RowOf(args).passiveDefault == Some(true);
  }
}
