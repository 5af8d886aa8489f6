/** Finding a static route in `show running-config | grep ip`. */
module StaticRouteRead {
  import opened Seqs
  import opened Text
  import opened Rendering
  import opened StaticRoute
  import Netip

  datatype Row = Row(distance: Int, tag: Int, name: string, metric: Int, track: string)

  datatype Found = Found(row: Row, vrf: string, prefix: string, nextHop: string)

  // ---- one line -------------------------------------------------------------------------

  function WithKnob(row: Row, key: string, val: string): Row {
    if key == "tag" then if Atoi(val).Some? then row.(tag := Atoi(val).value) else row
    else if key == "name" then row.(name := val)
    else if key == "metric" then if Atoi(val).Some? then row.(metric := Atoi(val).value) else row
    else if key == "track" then row.(track := val)
    else row
  }

  function WithKnobs(row: Row, words: seq<string>): Row
    decreases |words|
  {
    if |words| < 2 then row else WithKnobs(WithKnob(row, words[0], words[1]), words[2..])
  }

  predicate IsDistance(word: string) {
    Atoi(word).Some? && 1 <= Atoi(word).value <= 255
  }

  const PLAIN := Row(1, 0, "", 0, "")

  function OptionsOf(words: seq<string>): Row {
    if words != [] && IsDistance(words[0]) then WithKnobs(PLAIN.(distance := Atoi(words[0]).value), words[1..])
    else WithKnobs(PLAIN, words)
  }

  function AfterVrf(vrf: string, words: seq<string>): Option<Found> {
    if |words| < 2 then None else Some(Found(OptionsOf(words[2..]), vrf, words[0], words[1]))
  }

  function LineOf(words: seq<string>): Option<Found> {
    if |words| < 4 || words[0] != "ip" || words[1] != "route" then None
    else if words[2] == "vrf" then AfterVrf(words[3], words[4..])
    else AfterVrf("", words[2..])
  }

  method ParseStaticRouteLine(line: string) returns (found: Option<Found>)
    ensures found == LineOf(Fields(line))
  {
    var tokens := Fields(line);
    if |tokens| < 4 || tokens[0] != "ip" || tokens[1] != "route" {
      return None;
    }
    var idx := 2;
    var vrf := "";
    if tokens[idx] == "vrf" && idx + 1 < |tokens| {
      vrf := tokens[idx + 1];
      idx := idx + 2;
    }
    ghost var words := tokens[idx..];
    if idx + 1 >= |tokens| {
      return None;
    }
    var prefix, nextHop := tokens[idx], tokens[idx + 1];
    idx := idx + 2;
    assert words[2..] == tokens[idx..];
    var row := PLAIN;
    if idx < |tokens| {
      var n := Atoi(tokens[idx]);
      if n.Some? && 1 <= n.value <= 255 {
        row := row.(distance := n.value);
        assert tokens[idx..][1..] == tokens[idx + 1..];
        idx := idx + 1;
      }
    }
    row := ReadKnobs(row, tokens, idx);
    return Some(Found(row, vrf, prefix, nextHop));
  }

  method ReadKnobs(start: Row, tokens: seq<string>, first: nat) returns (row: Row)
    requires first <= |tokens|
    ensures row == WithKnobs(start, tokens[first..])
  {
    row := start;
    var idx := first;
    while idx < |tokens| - 1
      invariant first <= idx <= |tokens|
      invariant WithKnobs(row, tokens[idx..]) == WithKnobs(start, tokens[first..])
    {
      assert tokens[idx..][2..] == tokens[idx + 2..];
      var key, val := tokens[idx], tokens[idx + 1];
      match key {
        case "tag" =>
          var n := Atoi(val);
          if n.Some? {
            row := row.(tag := n.value);
          }
        case "name" => row := row.(name := val);
        case "metric" =>
          var n := Atoi(val);
          if n.Some? {
            row := row.(metric := n.value);
          }
        case "track" => row := row.(track := val);
        case _ =>
      }
      idx := idx + 2;
    }
  }

  // ---- the text ----------------------------------------------------------------------------

  /** The row a line holds for the wanted route. */
  function RowOn(line: string, args: Args): Option<Row> {
    if !HasPrefix(line, "ip route ") then None
    else
      match LineOf(Fields(line))
      case None => None
      case Some(f) =>
        if f.vrf == Deref(args.vrf) && f.prefix == args.prefix && f.nextHop == args.nextHop then Some(f.row) else None
  }

  function Lookup(lines: seq<string>, args: Args): Option<Row> {
    if lines == [] then None
    else if RowOn(lines[0], args).Some? then RowOn(lines[0], args)
    else Lookup(lines[1..], args)
  }

  method ParseStaticRouteLines(out: string, args: Args) returns (row: Option<Row>)
    ensures row == Lookup(TrimmedLines(out), args)
  {
    var wantVrf := "";
    if args.vrf.Some? && args.vrf.value != "" {
      wantVrf := args.vrf.value;
    }
    var raws := Split(out, '\n');
    ghost var lines := TrimmedLines(out);
    for i := 0 to |raws|
      invariant Lookup(lines, args) == Lookup(lines[i..], args)
    {
      var line := TrimSpace(raws[i]);
      assert line == lines[i..][0] && lines[i..][1..] == lines[i + 1..];
      if !HasPrefix(line, "ip route ") {
        continue;
      }
      var found := ParseStaticRouteLine(line);
      if found == None {
        continue;
      }
      var f := found.value;
      if f.vrf != wantVrf || f.prefix != args.prefix || f.nextHop != args.nextHop {
        continue;
      }
      return Some(f.row);
    }
    return None;
  }

  // ---- a rendered line --------------------------------------------------------------------

  /** What a rendered route reads as: distance 1 and tag 0 are the defaults. */
  function RowOf(args: Args): Row {
    Row(
      if args.distance.Some? then args.distance.value else 1,
      if args.tag.Some? then args.tag.value else 0,
      Deref(args.name),
      if args.metric.Some? then args.metric.value else 0,
      Deref(args.track))
  }

  /** The free texts of a route are single words. */
  predicate PlainWords(args: Args) {
    && (Deref(args.vrf) != "" ==> IsToken(args.vrf.value))
    && (Deref(args.name) != "" ==> IsToken(args.name.value))
    && (Deref(args.track) != "" ==> IsToken(args.track.value))
  }

  lemma KnobFirst(row: Row, key: string, val: string, rest: seq<string>)
    ensures WithKnobs(row, [key, val] + rest) == WithKnobs(WithKnob(row, key, val), rest)
    ensures WithKnobs(row, []) == row
  {
    assert ([key, val] + rest)[2..] == rest;
  }

  lemma TagKnob(args: Args, row: Row, rest: seq<string>)
    requires row.tag == 0
    ensures WithKnobs(row, TagWords(args) + rest)
         == WithKnobs(row.(tag := if args.tag.Some? then args.tag.value else 0), rest)
  {
    if TagWords(args) == [] {
      AppendEmpty(rest);
    } else {
      AtoiItoa(args.tag.value);
      KnobFirst(row, "tag", Itoa(args.tag.value), rest);
    }
  }

  lemma NameKnob(args: Args, row: Row, rest: seq<string>)
    requires row.name == ""
    ensures WithKnobs(row, NameWords(args) + rest) == WithKnobs(row.(name := Deref(args.name)), rest)
  {
    if NameWords(args) == [] {
      AppendEmpty(rest);
    } else {
      KnobFirst(row, "name", args.name.value, rest);
    }
  }

  lemma MetricKnob(args: Args, row: Row, rest: seq<string>)
    requires row.metric == 0 && (args.metric.Some? ==> args.metric.value > 0)
    ensures WithKnobs(row, MetricWords(args) + rest)
         == WithKnobs(row.(metric := if args.metric.Some? then args.metric.value else 0), rest)
  {
    if MetricWords(args) == [] {
      AppendEmpty(rest);
    } else {
      AtoiItoa(args.metric.value);
      KnobFirst(row, "metric", Itoa(args.metric.value), rest);
    }
  }

  lemma TrackKnob(args: Args, row: Row)
    requires row.track == ""
    ensures WithKnobs(row, TrackWords(args)) == row.(track := Deref(args.track))
  {
    if TrackWords(args) != [] {
      KnobFirst(row, "track", args.track.value, []);
      AppendEmpty(TrackWords(args));
    }
  }

  lemma OptionsRead(args: Args, row: Row)
    requires row == PLAIN.(distance := row.distance)
    requires args.metric.Some? ==> args.metric.value > 0
    ensures WithKnobs(row, OptionWords(args)) == RowOf(args).(distance := row.distance)
  {
    var t := row.(tag := if args.tag.Some? then args.tag.value else 0);
    var n := t.(name := Deref(args.name));
    var m := n.(metric := if args.metric.Some? then args.metric.value else 0);
    TagKnob(args, row, NameWords(args) + (MetricWords(args) + TrackWords(args)));
    NameKnob(args, t, MetricWords(args) + TrackWords(args));
    MetricKnob(args, n, TrackWords(args));
    TrackKnob(args, m);
    InnerFirst(TagWords(args), NameWords(args), MetricWords(args), TrackWords(args));
  }

  lemma InnerFirst<T>(a: seq<T>, b: seq<T>, c: seq<T>, d: seq<T>)
    ensures a + b + c + d == a + (b + (c + d))
  {
  }

  /** No option keyword is taken for a distance. */
  lemma KeywordsNoDistance(args: Args)
    ensures OptionWords(args) != [] ==> !IsDistance(OptionWords(args)[0])
  {
    FirstOption(args);
    if OptionWords(args) != [] {
      var word := OptionWords(args)[0];
      assert !IsDigit(word[0]) && word[0] != '-' && word[0] != '+';
    }
  }

  lemma FirstOption(args: Args)
    ensures OptionWords(args) != [] ==> OptionWords(args)[0] in {"tag", "name", "metric", "track"}
  {
    InnerFirst(TagWords(args), NameWords(args), MetricWords(args), TrackWords(args));
  }

  lemma DistanceRead(args: Args)
    requires args.distance.Some? ==> 1 <= args.distance.value <= 255
    requires args.metric.Some? ==> args.metric.value > 0
    ensures OptionsOf(DistanceWords(args) + OptionWords(args)) == RowOf(args)
  {
    var options := OptionWords(args);
    if DistanceWords(args) == [] {
      AppendEmpty(options);
      KeywordsNoDistance(args);
      OptionsRead(args, PLAIN);
    } else {
      AtoiItoa(args.distance.value);
      ConsParts(Itoa(args.distance.value), options);
      OptionsRead(args, PLAIN.(distance := args.distance.value));
    }
  }

  function LineFound(args: Args): Found {
    Found(RowOf(args), Deref(args.vrf), args.prefix, args.nextHop)
  }

  lemma RouteShape(args: Args)
    ensures RouteWords(args) + OptionWords(args)
         == ["ip", "route"] + (VrfWords(args) + ([args.prefix, args.nextHop]
           + (DistanceWords(args) + OptionWords(args))))
  {
    Nested(["ip", "route"], VrfWords(args), [args.prefix, args.nextHop], DistanceWords(args), OptionWords(args));
  }

  lemma Nested<T>(a: seq<T>, b: seq<T>, c: seq<T>, d: seq<T>, e: seq<T>)
    ensures a + b + c + d + e == a + (b + (c + (d + e)))
  {
  }

  lemma WordsRead(args: Args)
    requires ValidArgs(args)
    ensures LineOf(RouteWords(args) + OptionWords(args)) == Some(LineFound(args))
  {
    var tail := DistanceWords(args) + OptionWords(args);
    RouteShape(args);
    DistanceRead(args);
    Netip.PrefixToken(args.prefix);
    TailRead(args.vrf, args.prefix, args.nextHop, tail);
    VrfWordsAre(args);
  }

  lemma VrfWordsAre(args: Args)
    ensures VrfWords(args) == if Deref(args.vrf) != "" then ["vrf", args.vrf.value] else []
  {
  }

  /** The words of a line, with or without a VRF. */
  lemma TailRead(vrf: Option<string>, prefix: string, nextHop: string, tail: seq<string>)
    requires IsToken(prefix) && Netip.IsIPv4Char(prefix[0])
    ensures var vrfWords := if Deref(vrf) != "" then ["vrf", vrf.value] else [];
            LineOf(["ip", "route"] + (vrfWords + ([prefix, nextHop] + tail)))
            == Some(Found(OptionsOf(tail), Deref(vrf), prefix, nextHop))
  {
    HopsFirst(Deref(vrf), prefix, nextHop, tail);
    if Deref(vrf) == "" {
      AppendEmpty([prefix, nextHop] + tail);
      LineWithout("ip", "route", prefix, [nextHop] + tail);
      Associate([prefix], [nextHop], tail);
    } else {
      LineWith("ip", "route", "vrf", vrf.value, [prefix, nextHop] + tail);
    }
  }

  lemma HopsFirst(vrf: string, prefix: string, nextHop: string, tail: seq<string>)
    ensures AfterVrf(vrf, [prefix, nextHop] + tail) == Some(Found(OptionsOf(tail), vrf, prefix, nextHop))
  {
    assert ([prefix, nextHop] + tail)[2..] == tail;
  }

  lemma LineWith(ip: string, route: string, word: string, vrf: string, rest: seq<string>)
    requires ip == "ip" && route == "route" && word == "vrf" && |rest| >= 2
    ensures LineOf([ip, route] + ([word, vrf] + rest)) == AfterVrf(vrf, rest)
  {
    var words := [ip, route] + ([word, vrf] + rest);
    assert words[4..] == rest;
  }

  lemma LineWithout(ip: string, route: string, prefix: string, rest: seq<string>)
    requires ip == "ip" && route == "route" && prefix != "" && prefix[0] != 'v' && |rest| >= 1
    ensures LineOf([ip, route] + ([prefix] + rest)) == AfterVrf("", [prefix] + rest)
  {
    var words := [ip, route] + ([prefix] + rest);
    assert words[2..] == [prefix] + rest;
    assert words[2] == prefix;
  }

  lemma TwoTokens(key: string, val: string)
    requires IsToken(key) && IsToken(val)
    ensures AllTokens([key, val])
  {
  }

  lemma NumberTokens(args: Args)
    ensures AllTokens(TagWords(args)) && AllTokens(MetricWords(args))
  {
    if args.tag.Some? {
      ItoaToken(args.tag.value);
      TwoTokens("tag", Itoa(args.tag.value));
    }
    if args.metric.Some? {
      ItoaToken(args.metric.value);
      TwoTokens("metric", Itoa(args.metric.value));
    }
  }

  lemma TextTokens(args: Args)
    requires PlainWords(args)
    ensures AllTokens(NameWords(args)) && AllTokens(TrackWords(args))
  {
    if Deref(args.name) != "" {
      TwoTokens("name", args.name.value);
    }
    if Deref(args.track) != "" {
      TwoTokens("track", args.track.value);
    }
  }

  lemma OptionTokens(args: Args)
    requires PlainWords(args)
    ensures AllTokens(OptionWords(args))
  {
    NumberTokens(args);
    TextTokens(args);
    AppendTokens(TagWords(args), NameWords(args));
    AppendTokens(TagWords(args) + NameWords(args), MetricWords(args));
    AppendTokens(TagWords(args) + NameWords(args) + MetricWords(args), TrackWords(args));
  }

  lemma AppendTokens(a: seq<string>, b: seq<string>)
    requires AllTokens(a) && AllTokens(b)
    ensures AllTokens(a + b)
  {
  }

  lemma RouteTokens(args: Args)
    requires ValidArgs(args) && (Deref(args.vrf) != "" ==> IsToken(args.vrf.value))
    ensures AllTokens(RouteWords(args))
  {
    Netip.PrefixToken(args.prefix);
    NextHopToken(args.nextHop);
    TwoTokens("ip", "route");
    TwoTokens(args.prefix, args.nextHop);
    if Deref(args.vrf) != "" { TwoTokens("vrf", args.vrf.value); }
    if args.distance.Some? { ItoaToken(args.distance.value); }
    AppendTokens(["ip", "route"], VrfWords(args));
    AppendTokens(["ip", "route"] + VrfWords(args), [args.prefix, args.nextHop]);
    AppendTokens(["ip", "route"] + VrfWords(args) + [args.prefix, args.nextHop], DistanceWords(args));
  }

  /** Whatever a line says, its texts are single words. */
  predicate WordOrNothing(s: string) {
    s == "" || IsToken(s)
  }

  lemma {:induction false} KnobsAreWords(row: Row, words: seq<string>)
    requires AllTokens(words) && WordOrNothing(row.name) && WordOrNothing(row.track)
    ensures WordOrNothing(WithKnobs(row, words).name) && WordOrNothing(WithKnobs(row, words).track)
    decreases |words|
  {
    if |words| >= 2 {
      assert IsToken(words[1]);
      KnobsAreWords(WithKnob(row, words[0], words[1]), words[2..]);
    }
  }

  lemma AfterVrfIsWords(vrf: string, words: seq<string>)
    requires AllTokens(words) && WordOrNothing(vrf) && AfterVrf(vrf, words).Some?
    ensures var f := AfterVrf(vrf, words).value;
            WordOrNothing(f.vrf) && WordOrNothing(f.row.name) && WordOrNothing(f.row.track)
  {
    var options := words[2..];
    KnobsAreWords(PLAIN, options);
    if options != [] && IsDistance(options[0]) {
      KnobsAreWords(PLAIN.(distance := Atoi(options[0]).value), options[1..]);
    }
  }

  lemma LineIsWords(words: seq<string>)
    requires AllTokens(words) && LineOf(words).Some?
    ensures var f := LineOf(words).value;
            WordOrNothing(f.vrf) && WordOrNothing(f.row.name) && WordOrNothing(f.row.track)
  {
    if words[2] == "vrf" {
      AfterVrfIsWords(words[3], words[4..]);
    } else {
      AfterVrfIsWords("", words[2..]);
    }
  }

  /** Reading inverts rendering, with the defaults filled in, exactly when the VRF, the
      name and the track are single words. Validation asks less: it only keeps blanks
      and tabs out of two of them. */
  lemma LineReadExactly(args: Args)
    requires ValidArgs(args)
    ensures LineOf(Fields(RouteCmd(args))) == Some(LineFound(args)) <==> PlainWords(args)
  {
    if PlainWords(args) {
      RouteTokens(args);
      OptionTokens(args);
      AppendTokens(RouteWords(args), OptionWords(args));
      FieldsJoin(RouteWords(args) + OptionWords(args));
      WordsRead(args);
    }
    if LineOf(Fields(RouteCmd(args))) == Some(LineFound(args)) {
      LineIsWords(Fields(RouteCmd(args)));
    }
  }

  lemma CmdStart(args: Args)
    ensures HasPrefix(RouteCmd(args), "ip route ")
  {
    var rest := VrfWords(args) + ([args.prefix, args.nextHop] + (DistanceWords(args) + OptionWords(args)));
    RouteShape(args);
    JoinAppend(["ip", "route"], rest, " ");
    IpRoute("ip", "route");
    CutOwnPrefix("ip route ", Join(rest, " "));
  }

  lemma IpRoute(ip: string, route: string)
    requires ip == "ip" && route == "route"
    ensures Join([ip, route], " ") + " " == "ip route "
  {
    JoinCons(ip, [route], " ");
  }

  // ---- the text -----------------------------------------------------------------------------

  predicate SameKey(a: Args, b: Args) {
    Deref(a.vrf) == Deref(b.vrf) && a.prefix == b.prefix && a.nextHop == b.nextHop
  }

  lemma RenderedRow(route: Args, args: Args)
    requires ValidArgs(route) && PlainWords(route)
    ensures RowOn(RouteCmd(route), args) == if SameKey(route, args) then Some(RowOf(route)) else None
  {
    LineReadExactly(route);
    CmdStart(route);
  }

  predicate AllReadable(routes: seq<Args>) {
    forall i :: 0 <= i < |routes| ==> ValidArgs(routes[i]) && PlainWords(routes[i])
  }

  /** The `ip route` lines of the text are rendered routes; other lines are whatever
      the device prints. */
  ghost predicate Lists(lines: seq<string>, routes: seq<Args>) {
    forall i :: 0 <= i < |lines| && HasPrefix(lines[i], "ip route ") ==>
      exists j :: 0 <= j < |routes| && lines[i] == RouteCmd(routes[j])
  }

  lemma {:induction false} LookupAmong(lines: seq<string>, routes: seq<Args>, args: Args)
    requires AllReadable(routes) && Lists(lines, routes)
    ensures Lookup(lines, args).Some? ==>
              exists j :: 0 <= j < |routes| && SameKey(routes[j], args) && Lookup(lines, args) == Some(RowOf(routes[j]))
    ensures forall i, j ::
              0 <= i < |lines| && 0 <= j < |routes| && lines[i] == RouteCmd(routes[j]) && SameKey(routes[j], args)
              ==> Lookup(lines, args).Some?
  {
    if lines != [] {
      assert forall i :: 0 <= i < |lines[1..]| ==> lines[1..][i] == lines[i + 1];
      LookupAmong(lines[1..], routes, args);
      if HasPrefix(lines[0], "ip route ") {
        var j :| 0 <= j < |routes| && lines[0] == RouteCmd(routes[j]);
        RenderedRow(routes[j], args);
      }
      forall i, j | 0 <= i < |lines| && 0 <= j < |routes| && lines[i] == RouteCmd(routes[j]) && SameKey(routes[j], args)
        ensures Lookup(lines, args).Some?
      {
        if i == 0 {
          RenderedRow(routes[j], args);
        } else {
          assert lines[1..][i - 1] == lines[i];
        }
      }
    }
  }

  /** The round trip, with isolation: in any text whose `ip route` lines are rendered
      routes, in any order and between any other lines, looking a listed route up gives
      its own row when no other listed route shares VRF, prefix and next hop. */
  lemma ReadsBack(routes: seq<Args>, k: nat, text: string)
    requires k < |routes| && AllReadable(routes)
    requires forall i :: 0 <= i < |routes| && i != k ==> !SameKey(routes[i], routes[k])
    requires Lists(TrimmedLines(text), routes)
    requires RouteCmd(routes[k]) in TrimmedLines(text)
    ensures Lookup(TrimmedLines(text), routes[k]) == Some(RowOf(routes[k]))
  {
    var lines := TrimmedLines(text);
    LookupAmong(lines, routes, routes[k]);
    var i :| 0 <= i < |lines| && lines[i] == RouteCmd(routes[k]);
    assert Lookup(lines, routes[k]).Some?;
  }

  /** A route that is not listed is not found. */
  lemma AbsentNotFound(routes: seq<Args>, args: Args, text: string)
    requires AllReadable(routes) && Lists(TrimmedLines(text), routes)
    requires forall i :: 0 <= i < |routes| ==> !SameKey(routes[i], args)
    ensures Lookup(TrimmedLines(text), args) == None
  {
    LookupAmong(TrimmedLines(text), routes, args);
  }

  // ---- drift ---------------------------------------------------------------------------------

  function FillState(row: Row, state: Args): Args {
    state.(
      distance := if row.distance > 0 && row.distance != 1 then Some(row.distance) else state.distance,
      tag := if row.tag > 0 then Some(row.tag) else state.tag,
      name := if row.name != "" then Some(row.name) else state.name,
      metric := if row.metric > 0 then Some(row.metric) else state.metric,
      track := if row.track != "" then Some(row.track) else state.track)
  }

  /** A refresh leaves an applied route as it was declared. */
  lemma NoDrift(routes: seq<Args>, k: nat, text: string)
    requires k < |routes| && AllReadable(routes)
    requires forall i :: 0 <= i < |routes| && i != k ==> !SameKey(routes[i], routes[k])
    requires Lists(TrimmedLines(text), routes)
    requires RouteCmd(routes[k]) in TrimmedLines(text)
    ensures var row := Lookup(TrimmedLines(text), routes[k]);
            row.Some? && FillState(row.value, routes[k]) == routes[k]
  {
    ReadsBack(routes, k, text);
    assert ValidArgs(routes[k]);
  }

  /** A valid route of a VRF of two words, which does not read back. */
  lemma TwoWordVrfMissed() returns (args: Args)
    ensures args.vrf == Some("a b") && ValidArgs(args)
    ensures LineOf(Fields(RouteCmd(args))) != Some(LineFound(args))
  {
    var prefix := Netip.SomePrefix();
    var address := Netip.SomeAddress();
    args := Args(prefix, address, Some("a b"), None, None, None, None, None);
    TwoWordsText("a b");
    LineReadExactly(args);
  }
  /** What a refresh makes of stored arguments: what the live route has of tag, name,
      metric and track, and a distance other than 1, stands as the device has it; the rest
      as it was stored. */
  predicate Refreshed(live: Args, stored: Args, s: Args) {
    s == stored.(
    distance := if live.distance.Some? && live.distance != Some(1) then live.distance else stored.distance,
    tag := if live.tag.Some? && live.tag != Some(0) then live.tag else stored.tag,
    name := if live.name.Some? then live.name else stored.name,
    metric := if live.metric.Some? then live.metric else stored.metric,
    track := if live.track.Some? then live.track else stored.track)
  }

  lemma {:induction false} LookupByKey(lines: seq<string>, a: Args, b: Args)
    requires SameKey(a, b)
    ensures Lookup(lines, a) == Lookup(lines, b)
  {
    if lines != [] {
      LookupByKey(lines[1..], a, b);
    }
  }

  /** Drift is seen, whatever is stored for the route. */
  lemma DriftIsSeen(routes: seq<Args>, k: nat, text: string, stored: Args)
    requires k < |routes| && AllReadable(routes) && SameKey(stored, routes[k])
    requires forall i :: 0 <= i < |routes| && i != k ==> !SameKey(routes[i], routes[k])
    requires Lists(TrimmedLines(text), routes)
    requires RouteCmd(routes[k]) in TrimmedLines(text)
    ensures var row := Lookup(TrimmedLines(text), stored);
            row.Some? && Refreshed(routes[k], stored, FillState(row.value, stored))
  {
    ReadsBack(routes, k, text);
    LookupByKey(TrimmedLines(text), stored, routes[k]);
    assert ValidArgs(routes[k]);
  }
}
