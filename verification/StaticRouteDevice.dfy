/** What a staged route line does to a device's static routes, from any prior state: a
    reader of `ip route` commands, written from the CLI's point of view. */
module StaticRouteDevice {
  import opened Seqs
  import opened Text
  import opened Rendering
  import opened Eapi
  import opened Shell
  import opened StaticRoute
  import Netip
  import StaticRouteRead

  /** What tells routes apart. Without a VRF it is the default one, without a distance 1. */
  datatype Key = Key(vrf: string, prefix: string, nextHop: string, distance: int)

  /** What else a route has; 0 and "" when nothing is set. */
  datatype Options = Options(tag: int, name: string, metric: int, track: string)

  const NO_OPTIONS := Options(0, "", 0, "")

  type Routes = map<Key, Options>

  datatype Command = Install(key: Key, options: Options) | Withdraw(key: Key) | Unknown

  datatype Mode = Global

  // ---- reading a line -----------------------------------------------------------------------

  function WithOption(o: Options, word: string, val: string): Option<Options> {
    match word
    case "tag" => if Atoi(val).Some? then Some(o.(tag := Atoi(val).value)) else None
    case "name" => Some(o.(name := val))
    case "metric" => if Atoi(val).Some? then Some(o.(metric := Atoi(val).value)) else None
    case "track" => Some(o.(track := val))
    case _ => None
  }

  /** Options come in pairs; a line with anything else at its end is refused. */
  function OptionsFrom(o: Options, words: seq<string>): Option<Options>
    decreases |words|
  {
    if words == [] then Some(o)
    else if |words| == 1 then None
    else
      match WithOption(o, words[0], words[1])
      case Some(next) => OptionsFrom(next, words[2..])
      case None => None
  }

  datatype Target = Target(key: Key, rest: seq<string>)

  /** A prefix and a next hop, and a distance if a number comes next. */
  function HopFrom(vrf: string, words: seq<string>): Option<Target> {
    if |words| < 2 || Netip.PrefixBits(words[0]) == None || !IsNextHop(words[1]) then None
    else if |words| > 2 && Atoi(words[2]).Some?
      then Some(Target(Key(vrf, words[0], words[1], Atoi(words[2]).value), words[3..]))
    else Some(Target(Key(vrf, words[0], words[1], 1), words[2..]))
  }

  /** The words after `ip route`. */
  function TargetFrom(words: seq<string>): Option<Target> {
    if |words| >= 2 && words[0] == "vrf" then HopFrom(words[1], words[2..]) else HopFrom("default", words)
  }

  function CommandOfWords(words: seq<string>): Command {
    if |words| >= 2 && words[0] == "ip" && words[1] == "route" then
      match TargetFrom(words[2..])
      case None => Unknown
      case Some(t) =>
        match OptionsFrom(NO_OPTIONS, t.rest)
        case Some(o) => Install(t.key, o)
        case None => Unknown
    else if |words| >= 3 && words[0] == "no" && words[1] == "ip" && words[2] == "route" then
      match TargetFrom(words[3..])
      case None => Unknown
      case Some(t) => Withdraw(t.key)
    else Unknown
  }

  function CommandOf(line: string): Command {
    CommandOfWords(Fields(line))
  }

  /** A route is replaced as a whole; removing it needs none of its options. */
  function Execute(routes: Routes, cmd: Command): Routes {
    match cmd
    case Install(key, options) => routes[key := options]
    case Withdraw(key) => routes - {key}
    case Unknown => routes
  }

  const ROUTES: Shell<Routes, Mode> := Shell(
    Global,
    (routes: Routes, mode: Mode, line: string) => Execute(routes, CommandOf(line)),
    (mode: Mode, line: string) => Global,
    (mode: Mode) => false)

  // ---- what is declared -------------------------------------------------------------------------

  function KeyOf(args: Args): Key {
    Key(VrfOf(args), args.prefix, args.nextHop, DistanceOf(args))
  }

  function NumberOf(n: Option<Int>): int {
    if n.Some? then n.value else 0
  }

  function OptionsOf(args: Args): Options {
    Options(NumberOf(args.tag), Deref(args.name), NumberOf(args.metric), Deref(args.track))
  }

  predicate PlainVrf(args: Args) {
    Deref(args.vrf) != "" ==> IsToken(args.vrf.value)
  }

  // ---- the words are read as the route --------------------------------------------------------

  lemma OptionFirst(o: Options, word: string, val: string, rest: seq<string>)
    ensures OptionsFrom(o, [word, val] + rest) ==
            match WithOption(o, word, val) case Some(next) => OptionsFrom(next, rest) case None => None
  {
    assert ([word, val] + rest)[2..] == rest;
  }

  lemma TagOption(args: Args, o: Options, rest: seq<string>)
    requires o.tag == 0
    ensures OptionsFrom(o, TagWords(args) + rest) == OptionsFrom(o.(tag := NumberOf(args.tag)), rest)
  {
    if TagWords(args) == [] {
      AppendEmpty(rest);
    } else {
      AtoiItoa(args.tag.value);
      OptionFirst(o, "tag", Itoa(args.tag.value), rest);
    }
  }

  lemma NameOption(args: Args, o: Options, rest: seq<string>)
    requires o.name == ""
    ensures OptionsFrom(o, NameWords(args) + rest) == OptionsFrom(o.(name := Deref(args.name)), rest)
  {
    if NameWords(args) == [] {
      AppendEmpty(rest);
    } else {
      OptionFirst(o, "name", args.name.value, rest);
    }
  }

  lemma MetricOption(args: Args, o: Options, rest: seq<string>)
    requires o.metric == 0 && (args.metric.Some? ==> args.metric.value > 0)
    ensures OptionsFrom(o, MetricWords(args) + rest) == OptionsFrom(o.(metric := NumberOf(args.metric)), rest)
  {
    if MetricWords(args) == [] {
      AppendEmpty(rest);
    } else {
      AtoiItoa(args.metric.value);
      OptionFirst(o, "metric", Itoa(args.metric.value), rest);
    }
  }

  lemma TrackOption(args: Args, o: Options)
    requires o.track == ""
    ensures OptionsFrom(o, TrackWords(args)) == Some(o.(track := Deref(args.track)))
  {
    if TrackWords(args) != [] {
      OptionFirst(o, "track", args.track.value, []);
      AppendEmpty(TrackWords(args));
    }
  }

  lemma OptionsRead(args: Args)
    requires args.metric.Some? ==> args.metric.value > 0
    ensures OptionsFrom(NO_OPTIONS, OptionWords(args)) == Some(OptionsOf(args))
  {
    var t := NO_OPTIONS.(tag := NumberOf(args.tag));
    var n := t.(name := Deref(args.name));
    var m := n.(metric := NumberOf(args.metric));
    StaticRouteRead.InnerFirst(TagWords(args), NameWords(args), MetricWords(args), TrackWords(args));
    TagOption(args, NO_OPTIONS, NameWords(args) + (MetricWords(args) + TrackWords(args)));
    NameOption(args, t, MetricWords(args) + TrackWords(args));
    MetricOption(args, n, TrackWords(args));
    TrackOption(args, m);
  }

  lemma KeywordsNoNumber(args: Args)
    ensures OptionWords(args) != [] ==> Atoi(OptionWords(args)[0]) == None
  {
    StaticRouteRead.FirstOption(args);
    if OptionWords(args) != [] {
      var word := OptionWords(args)[0];
      assert !IsDigit(word[0]) && word[0] != '-' && word[0] != '+';
    }
  }

  lemma HopRead(args: Args, vrf: string, rest: seq<string>)
    requires ValidArgs(args) && (rest != [] ==> Atoi(rest[0]) == None)
    ensures HopFrom(vrf, [args.prefix, args.nextHop] + (DistanceWords(args) + rest))
         == Some(Target(Key(vrf, args.prefix, args.nextHop, DistanceOf(args)), rest))
  {
    var words := [args.prefix, args.nextHop] + (DistanceWords(args) + rest);
    if DistanceWords(args) == [] {
      AppendEmpty(rest);
      assert words[2..] == rest;
    } else {
      AtoiItoa(args.distance.value);
      assert words[3..] == rest;
    }
  }

  lemma TargetRead(args: Args, rest: seq<string>)
    requires ValidArgs(args) && (rest != [] ==> Atoi(rest[0]) == None)
    ensures TargetFrom(VrfWords(args) + ([args.prefix, args.nextHop] + (DistanceWords(args) + rest)))
         == Some(Target(KeyOf(args), rest))
  {
    var hop := [args.prefix, args.nextHop] + (DistanceWords(args) + rest);
    HopRead(args, VrfOf(args), rest);
    if Deref(args.vrf) == "" {
      AppendEmpty(hop);
      Netip.PrefixToken(args.prefix);
      assert args.prefix[0] != 'v';
    } else {
      assert (VrfWords(args) + hop)[2..] == hop;
    }
  }

  lemma RouteParts(args: Args, rest: seq<string>)
    ensures RouteWords(args) + rest
         == ["ip", "route"] + (VrfWords(args) + ([args.prefix, args.nextHop] + (DistanceWords(args) + rest)))
  {
    StaticRouteRead.Nested(["ip", "route"], VrfWords(args), [args.prefix, args.nextHop], DistanceWords(args), rest);
  }

  lemma IpRoute(words: seq<string>, rest: seq<string>)
    requires words == ["ip", "route"] + rest
    ensures |words| >= 2 && words[0] == "ip" && words[1] == "route" && words[2..] == rest
    ensures (["no"] + words)[0] == "no" && (["no"] + words)[1] == "ip" && (["no"] + words)[2] == "route"
    ensures (["no"] + words)[3..] == rest
  {
  }

  lemma InstallRead(args: Args)
    requires ValidArgs(args) && StaticRouteRead.PlainWords(args)
    ensures CommandOf(RouteCmd(args)) == Install(KeyOf(args), OptionsOf(args))
  {
    InstallFields(args);
    KeywordsNoNumber(args);
    TargetRead(args, OptionWords(args));
    RouteParts(args, OptionWords(args));
    OptionsRead(args);
    InstallWords(RouteWords(args) + OptionWords(args),
                 VrfWords(args) + ([args.prefix, args.nextHop] + (DistanceWords(args) + OptionWords(args))),
                 KeyOf(args), OptionWords(args), OptionsOf(args));
  }

  lemma InstallFields(args: Args)
    requires ValidArgs(args) && StaticRouteRead.PlainWords(args)
    ensures Fields(RouteCmd(args)) == RouteWords(args) + OptionWords(args)
  {
    StaticRouteRead.RouteTokens(args);
    StaticRouteRead.OptionTokens(args);
    StaticRouteRead.AppendTokens(RouteWords(args), OptionWords(args));
    FieldsJoin(RouteWords(args) + OptionWords(args));
  }

  lemma InstallWords(words: seq<string>, rest: seq<string>, key: Key, optionWords: seq<string>, options: Options)
    requires words == ["ip", "route"] + rest && TargetFrom(rest) == Some(Target(key, optionWords))
    requires OptionsFrom(NO_OPTIONS, optionWords) == Some(options)
    ensures CommandOfWords(words) == Install(key, options)
  {
    IpRoute(words, rest);
  }

  lemma NoWord(rest: string)
    ensures Fields("no " + rest) == ["no"] + Fields(rest)
  {
    FieldsWord("no", rest);
    assert "no " == "no" + " ";
  }

  lemma WithdrawRead(args: Args)
    requires ValidArgs(args) && PlainVrf(args)
    ensures CommandOf("no " + Join(RouteWords(args), " ")) == Withdraw(KeyOf(args))
  {
    WithdrawFields(args);
    TargetRead(args, []);
    RouteParts(args, []);
    AppendEmpty(RouteWords(args));
    WithdrawWords(RouteWords(args), VrfWords(args) + ([args.prefix, args.nextHop] + (DistanceWords(args) + [])),
                  KeyOf(args));
  }

  lemma WithdrawFields(args: Args)
    requires ValidArgs(args) && PlainVrf(args)
    ensures Fields("no " + Join(RouteWords(args), " ")) == ["no"] + RouteWords(args)
  {
    StaticRouteRead.RouteTokens(args);
    FieldsJoin(RouteWords(args));
    NoWord(Join(RouteWords(args), " "));
  }

  lemma WithdrawWords(words: seq<string>, rest: seq<string>, key: Key)
    requires words == ["ip", "route"] + rest && TargetFrom(rest) == Some(Target(key, []))
    ensures CommandOfWords(["no"] + words) == Withdraw(key)
  {
    IpRoute(words, rest);
  }

  // ---- convergence ----------------------------------------------------------------------------

  /** The routes with one replaced, or left out. */
  function HasRoute(routes: Routes, key: Key, options: Option<Options>): Routes {
    match options
    case None => routes - {key}
    case Some(o) => routes[key := o]
  }

  function Wanted(args: Args, remove: bool): Option<Options> {
    if remove then None else Some(OptionsOf(args))
  }

  /** From any prior routes, applying leaves exactly the declared route under its key, with
      the declared options and no others, and removing leaves out exactly that key,
      whatever options it had; every other route is as before. */
  lemma Converges(routes: Routes, args: Args, remove: bool)
    requires ValidArgs(args)
    requires if remove then PlainVrf(args) else StaticRouteRead.PlainWords(args)
    ensures Run(ROUTES, routes, StaticRoute.Staged(args, remove)) == HasRoute(routes, KeyOf(args), Wanted(args, remove))
  {
    OneLine(ROUTES, routes, Global, StaticRoute.Staged(args, remove)[0]);
    if remove {
      WithdrawRead(args);
    } else {
      InstallRead(args);
    }
  }
  /** Applying again changes nothing, and what was applied under the key before does not
      matter. */
  lemma AppliesWithoutHistory(routes: Routes, before: Args, beforeRemove: bool, args: Args, remove: bool)
    requires ValidArgs(before) && ValidArgs(args) && KeyOf(before) == KeyOf(args)
    requires if beforeRemove then PlainVrf(before) else StaticRouteRead.PlainWords(before)
    requires if remove then PlainVrf(args) else StaticRouteRead.PlainWords(args)
    ensures Run(ROUTES, Run(ROUTES, routes, StaticRoute.Staged(before, beforeRemove)), StaticRoute.Staged(args, remove))
         == Run(ROUTES, routes, StaticRoute.Staged(args, remove))
  {
    var earlier := HasRoute(routes, KeyOf(before), Wanted(before, beforeRemove));
    Converges(routes, before, beforeRemove);
    Converges(routes, args, remove);
    Converges(earlier, args, remove);
    HasRouteTwice(routes, KeyOf(args), Wanted(before, beforeRemove), Wanted(args, remove));
  }

  lemma HasRouteTwice(routes: Routes, key: Key, a: Option<Options>, b: Option<Options>)
    ensures HasRoute(HasRoute(routes, key, a), key, b) == HasRoute(routes, key, b)
  {
    if a.Some? && b.Some? {
      assert routes[key := a.value][key := b.value] == routes[key := b.value];
    } else if a.Some? {
      assert routes[key := a.value] - {key} == routes - {key};
    } else if b.Some? {
      assert (routes - {key})[key := b.value] == routes[key := b.value];
    } else {
      assert routes - {key} - {key} == routes - {key};
    }
  }

  /** Routes have one identifier exactly when they share a place on the device. */
  lemma IDIsPlace(a: Args, b: Args)
    requires ValidArgs(a) && ValidArgs(b)
    ensures StaticRouteID(a) == StaticRouteID(b) <==> KeyOf(a) == KeyOf(b)
  {
    IDInjective(a, b);
  }

  // ---- texts that are not one word --------------------------------------------------------------

  /** A device holds words. */
  ghost predicate Held(routes: Routes) {
    forall key :: key in routes ==>
      && IsToken(key.vrf)
      && StaticRouteRead.WordOrNothing(routes[key].name) && StaticRouteRead.WordOrNothing(routes[key].track)
  }

  predicate HeldCommand(cmd: Command) {
    match cmd
    case Install(key, o) =>
      IsToken(key.vrf) && StaticRouteRead.WordOrNothing(o.name) && StaticRouteRead.WordOrNothing(o.track)
    case Withdraw(key) => IsToken(key.vrf)
    case Unknown => true
  }

  lemma {:induction false} OptionsHeld(o: Options, words: seq<string>)
    requires AllTokens(words)
    requires StaticRouteRead.WordOrNothing(o.name) && StaticRouteRead.WordOrNothing(o.track)
    ensures var r := OptionsFrom(o, words);
            r.Some? ==> StaticRouteRead.WordOrNothing(r.value.name) && StaticRouteRead.WordOrNothing(r.value.track)
    decreases |words|
  {
    if |words| >= 2 {
      assert IsToken(words[1]);
      var next := WithOption(o, words[0], words[1]);
      if next.Some? {
        OptionsHeld(next.value, words[2..]);
      }
    }
  }

  lemma TargetHeld(words: seq<string>)
    requires AllTokens(words)
    ensures var t := TargetFrom(words); t.Some? ==> IsToken(t.value.key.vrf) && AllTokens(t.value.rest)
  {
    if |words| >= 2 && words[0] == "vrf" {
      assert IsToken(words[1]);
      HopHeld(words[1], words[2..]);
    } else {
      HopHeld("default", words);
    }
  }

  lemma HopHeld(vrf: string, words: seq<string>)
    requires AllTokens(words) && IsToken(vrf)
    ensures var t := HopFrom(vrf, words); t.Some? ==> t.value.key.vrf == vrf && AllTokens(t.value.rest)
  {
  }

  lemma CommandHeld(line: string)
    ensures HeldCommand(CommandOf(line))
  {
    var words := Fields(line);
    if |words| >= 2 {
      TargetHeld(words[2..]);
      var t := TargetFrom(words[2..]);
      if t.Some? {
        OptionsHeld(NO_OPTIONS, t.value.rest);
      }
    }
    if |words| >= 3 {
      TargetHeld(words[3..]);
    }
  }

  lemma {:induction false} RunHeld(routes: Routes, lines: seq<string>)
    requires Held(routes)
    ensures Held(Run(ROUTES, routes, lines))
  {
    if lines != [] {
      var n := |lines| - 1;
      RunHeld(routes, lines[..n]);
      CommandHeld(lines[n]);
    }
  }

  /** Validation lets a VRF of several words through, and a name or track with a line break
      or a no-break space in it. A device reaches the declared route if and only if all
      three are single words. */
  lemma ConvergesExactly(routes: Routes, args: Args)
    requires ValidArgs(args) && Held(routes)
    ensures Run(ROUTES, routes, StaticRoute.Staged(args, false)) == HasRoute(routes, KeyOf(args), Some(OptionsOf(args)))
       <==> StaticRouteRead.PlainWords(args)
  {
    var after := Run(ROUTES, routes, StaticRoute.Staged(args, false));
    if StaticRouteRead.PlainWords(args) {
      Converges(routes, args, false);
    }
    if after == HasRoute(routes, KeyOf(args), Some(OptionsOf(args))) {
      RunHeld(routes, StaticRoute.Staged(args, false));
      assert KeyOf(args) in after && after[KeyOf(args)] == OptionsOf(args);
    }
  }

  /** The route that a removal names, by the device's reading of its words. */
  function Named(args: Args): Option<Key> {
    match CommandOf(StaticRoute.Staged(args, true)[0])
    case Withdraw(key) => Some(key)
    case _ => None
  }

  lemma NamedGoes(routes: Routes, args: Args)
    ensures Run(ROUTES, routes, StaticRoute.Staged(args, true))
         == if Named(args) == None then routes else routes - {Named(args).value}
    ensures Named(args).Some? ==> IsToken(Named(args).value.vrf)
  {
    var line := StaticRoute.Staged(args, true)[0];
    OneLine(ROUTES, routes, Global, line);
    NoWord(Join(RouteWords(args), " "));
    CommandHeld(line);
  }

  /** A removal leaves out exactly its own route, unless its VRF is not one word and the
      words name another route that the device has: then it is that one that goes. */
  lemma RemovesExactly(routes: Routes, args: Args)
    requires ValidArgs(args) && Held(routes)
    ensures Run(ROUTES, routes, StaticRoute.Staged(args, true)) == routes - {KeyOf(args)}
       <==> (PlainVrf(args) || Named(args) == None || Named(args).value !in routes)
  {
    if PlainVrf(args) {
      Converges(routes, args, true);
    } else {
      NamedGoes(routes, args);
      Without(routes, KeyOf(args));
      if Named(args).Some? {
        Without(routes, Named(args).value);
      }
    }
  }

  lemma Without(routes: Routes, key: Key)
    ensures routes - {key} == routes <==> key !in routes
  {
    assert key !in routes - {key};
  }

  /** A VRF with blanks around it is read as the word alone. */
  lemma PaddedNamed(args: Args, word: string)
    requires ValidArgs(args) && Deref(args.vrf) != "" && Fields(args.vrf.value) == [word]
    ensures Named(args) == Some(KeyOf(args).(vrf := word))
  {
    var v, trimmed := args.vrf.value, args.(vrf := Some(word));
    assert AllTokens(Fields(v)) && Fields(v)[0] == word;
    var tail := [args.prefix, args.nextHop] + DistanceWords(args);
    RemovalWords(args, v, tail);
    RemovalWords(trimmed, word, tail);
    FieldsToken(word);
    WithdrawRead(trimmed);
    SameNamed(args, trimmed);
  }

  lemma SameNamed(a: Args, b: Args)
    requires Fields("no " + Join(RouteWords(a), " ")) == Fields("no " + Join(RouteWords(b), " "))
    requires CommandOf("no " + Join(RouteWords(b), " ")) == Withdraw(KeyOf(b))
    ensures Named(a) == Some(KeyOf(b))
  {
  }

  lemma RemovalWords(args: Args, v: string, tail: seq<string>)
    requires args.vrf == Some(v) && v != "" && tail == [args.prefix, args.nextHop] + DistanceWords(args)
    ensures Fields("no " + Join(RouteWords(args), " "))
         == ["no"] + (Fields(Join(["ip", "route", "vrf"], " ")) + (Fields(v) + Fields(Join(tail, " "))))
  {
    VrfParts(args, v, tail);
    PaddedWords(["ip", "route", "vrf"], v, tail);
    NoWord(Join(RouteWords(args), " "));
  }

  lemma VrfParts(args: Args, v: string, tail: seq<string>)
    requires args.vrf == Some(v) && v != "" && tail == [args.prefix, args.nextHop] + DistanceWords(args)
    ensures RouteWords(args) == ["ip", "route", "vrf"] + ([v] + tail)
  {
  }

  lemma PaddedWords(front: seq<string>, v: string, tail: seq<string>)
    requires front != [] && tail != []
    ensures Fields(Join(front + ([v] + tail), " "))
         == Fields(Join(front, " ")) + (Fields(v) + Fields(Join(tail, " ")))
  {
    JoinAppend(front, [v] + tail, " ");
    JoinCons(v, tail, " ");
    FieldsAppend(Join(front, " "), v + " " + Join(tail, " "));
    FieldsAppend(v, Join(tail, " "));
  }

  /** A valid route of VRF ` a`, whose removal takes out the route of VRF `a`. */
  lemma PaddedVrfRemoves(routes: Routes) returns (args: Args, key: Key)
    ensures ValidArgs(args) && args.vrf == Some(" a") && key == KeyOf(args).(vrf := "a")
    ensures Held(routes) && key in routes ==>
              Run(ROUTES, routes, StaticRoute.Staged(args, true)) != routes - {KeyOf(args)}
  {
    var prefix := Netip.SomePrefix();
    var address := Netip.SomeAddress();
    args := Args(prefix, address, Some(" a"), None, None, None, None, None);
    key := KeyOf(args).(vrf := "a");
    PaddedA(" a");
    PaddedNamed(args, "a");
    if Held(routes) && key in routes {
      RemovesExactly(routes, args);
    }
  }

  lemma PaddedA(s: string)
    requires s == " a"
    ensures Fields(s) == ["a"] && !IsToken(s)
  {
    assert s[1..] == "a";
    FieldsToken("a");
    assert IsSpace(s[0]);
  }

  // ---- one apply --------------------------------------------------------------------------------

  lemma StagedTyped(args: Args, remove: bool)
    requires ValidArgs(args)
    requires if remove then PlainVrf(args) else StaticRouteRead.PlainWords(args)
    ensures AllTyped(ROUTES, Global, StaticRoute.Staged(args, remove))
  {
    if remove {
      WithdrawRead(args);
    } else {
      InstallRead(args);
    }
    TypedOne(ROUTES, Global, StaticRoute.Staged(args, remove)[0]);
  }

  lemma StagedTakes(routes: Routes, args: Args, remove: bool)
    requires ValidArgs(args)
    requires if remove then PlainVrf(args) else StaticRouteRead.PlainWords(args)
    ensures Takes(ROUTES, routes, Global, StaticRoute.Staged(args, remove),
              HasRoute(routes, KeyOf(args), Wanted(args, remove)), Global)
  {
    StagedTyped(args, remove);
    Converges(routes, args, remove);
    OneLine(ROUTES, routes, Global, StaticRoute.Staged(args, remove)[0]);
  }

  /** One apply over a network that may break any call: the routes are as before, or the
      commit was reached and the route is exactly as declared, or gone. */
  lemma ApplyLeavesDeclared(show: Routes -> seq<string>, dev: Device<Routes>, session: string, args: Args,
                            remove: bool, nets: Nets)
    requires IsToken(session) && ValidArgs(args)
    requires if remove then PlainVrf(args) else StaticRouteRead.PlainWords(args)
    ensures var sem := SemanticsOf(ROUTES, show);
            AfterApply(sem, dev, session, StaticRoute.Staged(args, remove), nets).running ==
            if Commits(nets)
            then HasRoute(Replay(sem, dev.running, Batches(dev, session)), KeyOf(args), Wanted(args, remove))
            else dev.running
  {
    var before := Replay(SemanticsOf(ROUTES, show), dev.running, Batches(dev, session));
    StagedTakes(before, args, remove);
    ApplyTakes(ROUTES, show, dev, session, StaticRoute.Staged(args, remove), nets,
               HasRoute(before, KeyOf(args), Wanted(args, remove)), Global);
  }
}
