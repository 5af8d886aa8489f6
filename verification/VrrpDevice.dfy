/** What the staged VRRP lines do to a device, from any prior state: an interpreter for the
    groups of an interface, written from the CLI's point of view. */
module VrrpDevice {
  import opened Seqs
  import opened Text
  import opened Rendering
  import opened Scanner
  import opened Sorting
  import opened Eapi
  import opened Shell
  import Netip
  import Pbr
  import Vrrp

  datatype Reaction = Decrement(amount: int) | ShutDown

  /** A group, with nothing said about what is None, empty or false. */
  datatype Group = Group(
    primary: Option<string>,
    secondary: set<string>,
    ipv6: set<string>,
    priority: Option<int>,
    preempt: bool,
    preemptDelay: Option<int>,
    advertise: Option<int>,
    description: Option<string>,
    tracks: map<string, Reaction>,
    bfdPeer: Option<string>,
    disabled: bool)

  const EMPTY := Group(None, {}, {}, None, false, None, None, None, map[], None, false)

  datatype Key = Key(iface: string, vrid: int)

  type Config = map<Key, Group>

  datatype Mode = Global | InInterface(iface: string)

  datatype Saying =
    | Primary(address: string)
    | Secondary(address: string)
    | IPv6(address: string)
    | Priority(n: int)
    | Preempt
    | PreemptDelay(n: int)
    | Advertise(n: int)
    | Description(text: string)
    | Tracked(object_: string, reaction: Reaction)
    | BfdPeer(address: string)
    | Disabled

  datatype Command =
    | EnterInterface(iface: string)
    | Say(vrid: int, saying: Saying)
    | NoGroup(vrid: int)
    | Enable(vrid: int)
    | Unknown

  // ---- reading a line -----------------------------------------------------------------------

  function TrackedSaid(words: seq<string>): Option<Saying> {
    if |words| == 4 && words[2] == "decrement" && Atoi(words[3]).Some?
      then Some(Tracked(words[1], Decrement(Atoi(words[3]).value)))
    else if |words| == 3 && words[2] == "shutdown" then Some(Tracked(words[1], ShutDown))
    else None
  }

  /** What is said of a group; a description is the text as it stands. */
  function SayingOf(rest: string): Option<Saying> {
    var words := Fields(rest);
    if words == [] then None
    else
      match words[0]
      case "disabled" => if |words| == 1 then Some(Disabled) else None
      case "ipv4" =>
        if |words| == 2 then Some(Primary(words[1]))
        else if |words| == 3 && words[2] == "secondary" then Some(Secondary(words[1]))
        else None
      case "ipv6" => if |words| == 2 then Some(IPv6(words[1])) else None
      case "priority-level" =>
        if |words| == 2 && Atoi(words[1]).Some? then Some(Priority(Atoi(words[1]).value)) else None
      case "preempt" =>
        if |words| == 1 then Some(Preempt)
        else if |words| == 4 && words[1] == "delay" && words[2] == "minimum" && Atoi(words[3]).Some?
          then Some(PreemptDelay(Atoi(words[3]).value))
        else None
      case "advertisement" =>
        if |words| == 3 && words[1] == "interval" && Atoi(words[2]).Some?
          then Some(Advertise(Atoi(words[2]).value))
        else None
      case "session" =>
        (match CutPrefix(rest, "session description ")
         case Some(text) => Some(Description(text))
         case None => None)
      case "tracked-object" => TrackedSaid(words)
      case "bfd" => if |words| == 3 && words[1] == "ip" then Some(BfdPeer(words[2])) else None
      case _ => None
  }

  function SayCommand(line: string, words: seq<string>): Command
    requires |words| >= 2
  {
    match Atoi(words[1])
    case None => Unknown
    case Some(n) =>
      match CutPrefix(line, "vrrp " + words[1] + " ")
      case None => Unknown
      case Some(rest) =>
        match SayingOf(rest)
        case Some(saying) => Say(n, saying)
        case None => Unknown
  }

  function NoCommand(words: seq<string>): Command {
    if |words| == 2 && words[0] == "vrrp" && Atoi(words[1]).Some? then NoGroup(Atoi(words[1]).value)
    else if |words| == 3 && words[0] == "vrrp" && Atoi(words[1]).Some? && words[2] == "disabled"
      then Enable(Atoi(words[1]).value)
    else Unknown
  }

  function CommandOf(line: string): Command {
    var words := Fields(line);
    if |words| < 2 then Unknown
    else if words[0] == "vrrp" then SayCommand(line, words)
    else if words[0] == "interface" && |words| == 2 then EnterInterface(words[1])
    else if words[0] == "no" then NoCommand(words[1..])
    else Unknown
  }

  // ---- executing it ----------------------------------------------------------------------------

  function GroupOf(cfg: Config, key: Key): Group {
    if key in cfg then cfg[key] else EMPTY
  }

  /** Addresses add up, except that a group has one primary; the rest has one value. */
  function Heard(g: Group, saying: Saying): Group {
    match saying
    case Primary(a) => g.(primary := Some(a))
    case Secondary(a) => g.(secondary := g.secondary + {a})
    case IPv6(a) => g.(ipv6 := g.ipv6 + {a})
    case Priority(n) => g.(priority := Some(n))
    case Preempt => g.(preempt := true)
    case PreemptDelay(n) => g.(preemptDelay := Some(n))
    case Advertise(n) => g.(advertise := Some(n))
    case Description(text) => g.(description := Some(text))
    case Tracked(o, reaction) => g.(tracks := g.tracks[o := reaction])
    case BfdPeer(a) => g.(bfdPeer := Some(a))
    case Disabled => g.(disabled := true)
  }

  function Execute(cfg: Config, mode: Mode, cmd: Command): Config {
    if mode == Global then cfg
    else
      match cmd
      case Say(vrid, saying) =>
        var key := Key(mode.iface, vrid);
        cfg[key := Heard(GroupOf(cfg, key), saying)]
      case NoGroup(vrid) => cfg - {Key(mode.iface, vrid)}
      case Enable(vrid) =>
        var key := Key(mode.iface, vrid);
        if key in cfg then cfg[key := cfg[key].(disabled := false)] else cfg
      case _ => cfg
  }

  function NextMode(mode: Mode, cmd: Command): Mode {
    if cmd.EnterInterface? then InInterface(cmd.iface) else mode
  }

  const GROUPS: Shell<Config, Mode> := Shell(
    Global,
    (cfg: Config, mode: Mode, line: string) => Execute(cfg, mode, CommandOf(line)),
    (mode: Mode, line: string) => NextMode(mode, CommandOf(line)),
    (mode: Mode) => mode != Global)

  // ---- what is declared -------------------------------------------------------------------------

  function KeyOf(args: Vrrp.Args): Key {
    Key(args.iface, args.vrid)
  }

  /** The IPv4 addresses, in the declared order. */
  function IPv4s(addresses: seq<string>, isIPv6: string -> bool): seq<string> {
    if addresses == [] then []
    else
      var n := |addresses| - 1;
      IPv4s(addresses[..n], isIPv6) + if isIPv6(addresses[n]) then [] else [addresses[n]]
  }

  function SecondarySet(addresses: seq<string>, isIPv6: string -> bool): set<string> {
    var v4 := IPv4s(addresses, isIPv6);
    set i | 1 <= i < |v4| :: v4[i]
  }

  function IPv6Set(addresses: seq<string>, isIPv6: string -> bool): set<string> {
    set i | 0 <= i < |addresses| && isIPv6(addresses[i]) :: addresses[i]
  }

  function Placed(g: Group, v4: seq<string>, secondary: set<string>, v6: set<string>): Group {
    g.(primary := if v4 != [] then Some(v4[0]) else g.primary, secondary := g.secondary + secondary,
       ipv6 := g.ipv6 + v6)
  }

  function WithAddresses(g: Group, addresses: seq<string>, isIPv6: string -> bool): Group {
    Placed(g, IPv4s(addresses, isIPv6), SecondarySet(addresses, isIPv6), IPv6Set(addresses, isIPv6))
  }

  function WithPriority(g: Group, args: Vrrp.Args): Group {
    g.(priority := if args.priority.Some? then Some(args.priority.value) else g.priority)
  }

  function WithPreempt(g: Group, args: Vrrp.Args): Group {
    g.(preempt := args.preempt == Some(true) || g.preempt)
  }

  function WithDelay(g: Group, args: Vrrp.Args): Group {
    g.(preemptDelay := if args.preemptDelay.Some? then Some(args.preemptDelay.value) else g.preemptDelay)
  }

  function WithInterval(g: Group, args: Vrrp.Args): Group {
    g.(advertise := if args.advertise.Some? then Some(args.advertise.value) else g.advertise)
  }

  function WithDescription(g: Group, args: Vrrp.Args): Group {
    g.(description := if Given(args.description) then args.description else g.description)
  }

  function WithScalars(g: Group, args: Vrrp.Args): Group {
    WithDescription(WithInterval(WithDelay(WithPreempt(WithPriority(g, args), args), args), args), args)
  }

  function ReactionOf(t: Vrrp.Track): Reaction {
    if t.action == "decrement" then Decrement(if t.decrement.Some? then t.decrement.value else 0) else ShutDown
  }

  /** Of two tracks of one object the later one counts. */
  function Reactions(tracks: seq<Vrrp.Track>): map<string, Reaction> {
    if tracks == [] then map[]
    else
      var n := |tracks| - 1;
      Reactions(tracks[..n])[tracks[n].object_ := ReactionOf(tracks[n])]
  }

  function WithTracks(g: Group, reactions: map<string, Reaction>): Group {
    g.(tracks := g.tracks + reactions)
  }

  function WithBfd(g: Group, args: Vrrp.Args): Group {
    g.(bfdPeer := if Given(args.bfdPeer) then args.bfdPeer else g.bfdPeer)
  }

  function WithState(g: Group, args: Vrrp.Args): Group {
    g.(disabled := if args.shutdown.Some? then args.shutdown.value else g.disabled)
  }

  function WithPeers(g: Group, args: Vrrp.Args, isIPv6: string -> bool): Group {
    WithBfd(WithTracks(WithScalars(WithAddresses(g, args.addresses, isIPv6), args), Reactions(args.tracks)), args)
  }

  /** A group with the declared fields put over what it had. */
  function Overlay(g: Group, args: Vrrp.Args, isIPv6: string -> bool): Group {
    WithState(WithPeers(g, args, isIPv6), args)
  }

  function Declared(args: Vrrp.Args, isIPv6: string -> bool): Group {
    Overlay(EMPTY, args, isIPv6)
  }

  /** The addresses and the tracked objects are single words. */
  predicate WordsOnly(args: Vrrp.Args) {
    && AllTokens(args.addresses)
    && forall i :: 0 <= i < |args.tracks| ==> IsToken(args.tracks[i].object_)
  }

  // ---- the device's reading of each line --------------------------------------------------------

  lemma PrimaryRead(a: string)
    requires IsToken(a)
    ensures SayingOf("ipv4 " + a) == Some(Primary(a))
  {
    TwoWordLine("ipv4 ", "ipv4", a);
  }

  lemma SecondaryRead(a: string)
    requires IsToken(a)
    ensures SayingOf("ipv4 " + a + " secondary") == Some(Secondary(a))
  {
    SecondaryLine(a);
    Words3("ipv4", a, "secondary");
  }

  lemma SecondaryLine(a: string)
    ensures "ipv4 " + a + " secondary" == "ipv4" + " " + a + " " + "secondary"
  {
  }

  lemma IPv6Read(a: string)
    requires IsToken(a)
    ensures SayingOf("ipv6 " + a) == Some(IPv6(a))
  {
    TwoWordLine("ipv6 ", "ipv6", a);
  }

  // A number's digits are kept out of the way: each line is read for any word that is a number.

  lemma PriorityRead(word: string, n: Int)
    requires IsToken(word) && Atoi(word) == Some(n)
    ensures SayingOf("priority-level " + word) == Some(Priority(n))
  {
    TwoWordLine("priority-level ", "priority-level", word);
  }

  lemma PreemptRead()
    ensures SayingOf("preempt") == Some(Preempt)
  {
    FieldsToken("preempt");
  }

  lemma DelayLine(n: string)
    ensures "preempt delay minimum " + n == "preempt" + " " + "delay" + " " + "minimum" + " " + n
  {
  }

  lemma DelayRead(word: string, n: Int)
    requires IsToken(word) && Atoi(word) == Some(n)
    ensures SayingOf("preempt delay minimum " + word) == Some(PreemptDelay(n))
  {
    DelayLine(word);
    Words4("preempt", "delay", "minimum", word);
  }

  lemma IntervalLine(n: string)
    ensures "advertisement interval " + n == "advertisement" + " " + "interval" + " " + n
  {
  }

  lemma IntervalRead(word: string, n: Int)
    requires IsToken(word) && Atoi(word) == Some(n)
    ensures SayingOf("advertisement interval " + word) == Some(Advertise(n))
  {
    IntervalLine(word);
    Words3("advertisement", "interval", word);
  }

  lemma DescriptionLine(text: string)
    ensures "session description " + text == "session" + " " + ("description" + " " + text)
  {
  }

  lemma DescriptionRead(text: string)
    ensures SayingOf("session description " + text) == Some(Description(text))
  {
    DescriptionLine(text);
    FieldsWord("session", "description" + " " + text);
    CutOwnPrefix("session description ", text);
    DescriptionSaid("session description " + text, text);
  }

  lemma DescriptionSaid(rest: string, text: string)
    requires Fields(rest) != [] && Fields(rest)[0] == "session"
    requires CutPrefix(rest, "session description ") == Some(text)
    ensures SayingOf(rest) == Some(Description(text))
  {
  }

  lemma TrackLines(o: string, n: string)
    ensures "tracked-object " + o + " decrement " + n == "tracked-object" + " " + o + " " + "decrement" + " " + n
    ensures "tracked-object " + o + " shutdown" == "tracked-object" + " " + o + " " + "shutdown"
  {
  }

  lemma DecrementRead(o: string, word: string, n: Int)
    requires IsToken(o) && IsToken(word) && Atoi(word) == Some(n)
    ensures SayingOf("tracked-object " + o + " decrement " + word) == Some(Tracked(o, Decrement(n)))
  {
    TrackLines(o, word);
    Words4("tracked-object", o, "decrement", word);
  }

  lemma ShutDownRead(o: string)
    requires IsToken(o)
    ensures SayingOf("tracked-object " + o + " shutdown") == Some(Tracked(o, ShutDown))
  {
    TrackLines(o, "");
    Words3("tracked-object", o, "shutdown");
  }

  lemma BfdLine(a: string)
    ensures "bfd ip " + a == "bfd" + " " + "ip" + " " + a
  {
  }

  lemma BfdRead(a: string)
    requires IsToken(a)
    ensures SayingOf("bfd ip " + a) == Some(BfdPeer(a))
  {
    BfdLine(a);
    Words3("bfd", "ip", a);
  }

  lemma DisabledRead(word: string)
    requires word == "disabled"
    ensures SayingOf(word) == Some(Disabled)
  {
    FieldsToken(word);
  }
  // ---- a group hears what is said --------------------------------------------------------------

  const HEAR := (g: Group, rest: string) =>
    match SayingOf(rest) case Some(saying) => Heard(g, saying) case None => g

  predicate AllKnown(rests: seq<string>) {
    forall i :: 0 <= i < |rests| ==> SayingOf(rests[i]).Some?
  }

  /** A group that hears these, all of which it knows. */
  predicate Hears(g: Group, rests: seq<string>, after: Group) {
    AllKnown(rests) && Scan(g, rests, HEAR) == after
  }

  lemma HearsThen(g: Group, a: seq<string>, mid: Group, b: seq<string>, after: Group)
    requires Hears(g, a, mid) && Hears(mid, b, after)
    ensures Hears(g, a + b, after)
  {
    ScanAppend(g, a, b, HEAR);
  }

  lemma HearsOne(g: Group, rest: string, saying: Saying)
    requires SayingOf(rest) == Some(saying)
    ensures Hears(g, [rest], Heard(g, saying))
  {
    ScanOne(g, rest, HEAR);
  }

  lemma HearsThis(g: Group, rests: seq<string>, rest: string, saying: Saying)
    requires rests == [rest] && SayingOf(rest) == Some(saying)
    ensures Hears(g, rests, Heard(g, saying))
  {
    HearsOne(g, rest, saying);
  }

  lemma {:induction false} SeenFirst(addresses: seq<string>, isIPv6: string -> bool)
    requires forall i :: 0 <= i < |addresses| ==> Vrrp.IsAddress(addresses[i], isIPv6)
    ensures IPv4s(addresses, isIPv6) != [] <==> Vrrp.SeenIPv4(addresses, isIPv6)
  {
    if addresses != [] {
      var n := |addresses| - 1;
      assert forall i :: 0 <= i < n ==> addresses[..n][i] == addresses[i];
      SeenFirst(addresses[..n], isIPv6);
      TakeSnoc(addresses, n);
      TakeAll(addresses);
      Vrrp.SeenMore(addresses[..n], addresses[n], isIPv6);
    }
  }

  lemma SecondaryMore(v4: seq<string>, a: string)
    ensures (set i | 1 <= i < |v4 + [a]| :: (v4 + [a])[i])
         == (set i | 1 <= i < |v4| :: v4[i]) + if v4 != [] then {a} else {}
  {
    var all := v4 + [a];
    assert all[|v4|] == a;
    assert forall i :: 0 <= i < |v4| ==> all[i] == v4[i];
  }

  lemma IPv6More(addresses: seq<string>, isIPv6: string -> bool)
    requires addresses != []
    ensures var n := |addresses| - 1;
            IPv6Set(addresses, isIPv6)
            == IPv6Set(addresses[..n], isIPv6) + if isIPv6(addresses[n]) then {addresses[n]} else {}
  {
    var n := |addresses| - 1;
    assert forall i :: 0 <= i < n ==> addresses[..n][i] == addresses[i];
  }

  /** What the line of one more address is heard as. */
  function AddressSaying(before: seq<string>, a: string, isIPv6: string -> bool): Saying {
    if isIPv6(a) then IPv6(a) else if IPv4s(before, isIPv6) != [] then Secondary(a) else Primary(a)
  }

  lemma AddressGrows(g: Group, addresses: seq<string>, isIPv6: string -> bool)
    requires addresses != []
    ensures var n := |addresses| - 1;
            Heard(WithAddresses(g, addresses[..n], isIPv6), AddressSaying(addresses[..n], addresses[n], isIPv6))
            == WithAddresses(g, addresses, isIPv6)
  {
    var n := |addresses| - 1;
    IPv6More(addresses, isIPv6);
    SecondaryGrows(addresses, isIPv6);
    PlacedMore(g, IPv4s(addresses[..n], isIPv6), SecondarySet(addresses[..n], isIPv6),
               IPv6Set(addresses[..n], isIPv6), addresses[n]);
    SetNothing(IPv6Set(addresses[..n], isIPv6));
    SetNothing(SecondarySet(addresses[..n], isIPv6));
  }

  lemma SetNothing(s: set<string>)
    ensures s + {} == s
  {
  }

  /** One more address of each kind. */
  lemma PlacedMore(g: Group, v4: seq<string>, secondary: set<string>, v6: set<string>, a: string)
    ensures Heard(Placed(g, v4, secondary, v6), IPv6(a)) == Placed(g, v4, secondary, v6 + {a})
    ensures v4 != [] ==> Heard(Placed(g, v4, secondary, v6), Secondary(a)) == Placed(g, v4 + [a], secondary + {a}, v6)
    ensures v4 == [] ==> Heard(Placed(g, v4, secondary, v6), Primary(a)) == Placed(g, v4 + [a], secondary, v6)
  {
    assert g.secondary + secondary + {a} == g.secondary + (secondary + {a});
    assert g.ipv6 + v6 + {a} == g.ipv6 + (v6 + {a});
    assert (v4 + [a])[0] == if v4 != [] then v4[0] else a;
  }

  lemma SecondaryGrows(addresses: seq<string>, isIPv6: string -> bool)
    requires addresses != []
    ensures var n := |addresses| - 1;
            var before := IPv4s(addresses[..n], isIPv6);
            && (isIPv6(addresses[n]) ==>
                  IPv4s(addresses, isIPv6) == before
                  && SecondarySet(addresses, isIPv6) == SecondarySet(addresses[..n], isIPv6))
            && (!isIPv6(addresses[n]) ==>
                  IPv4s(addresses, isIPv6) == before + [addresses[n]]
                  && SecondarySet(addresses, isIPv6)
                     == SecondarySet(addresses[..n], isIPv6) + if before != [] then {addresses[n]} else {})
  {
    var n := |addresses| - 1;
    var before := IPv4s(addresses[..n], isIPv6);
    if isIPv6(addresses[n]) {
      AppendEmpty(before);
    } else {
      SecondaryMore(before, addresses[n]);
    }
  }

  lemma AddressRead(before: seq<string>, a: string, isIPv6: string -> bool)
    requires forall i :: 0 <= i < |before| ==> Vrrp.IsAddress(before[i], isIPv6)
    requires Vrrp.IsAddress(a, isIPv6) && IsToken(a)
    ensures |Vrrp.AddressRest(before, a, isIPv6)| == 1
    ensures SayingOf(Vrrp.AddressRest(before, a, isIPv6)[0]) == Some(AddressSaying(before, a, isIPv6))
  {
    SeenFirst(before, isIPv6);
    PrimaryRead(a);
    SecondaryRead(a);
    IPv6Read(a);
  }

  lemma {:induction false} AddressesHeard(g: Group, addresses: seq<string>, isIPv6: string -> bool)
    requires forall i :: 0 <= i < |addresses| ==> Vrrp.IsAddress(addresses[i], isIPv6)
    requires AllTokens(addresses)
    ensures Hears(g, Vrrp.AddressRests(addresses, isIPv6), WithAddresses(g, addresses, isIPv6))
  {
    if addresses == [] {
      NoAddresses(g, isIPv6);
    } else {
      var n := |addresses| - 1;
      var front, a := addresses[..n], addresses[n];
      assert forall i :: 0 <= i < n ==> front[i] == addresses[i];
      AddressesHeard(g, front, isIPv6);
      AddressRead(front, a, isIPv6);
      AddressGrows(g, addresses, isIPv6);
      var rest := Vrrp.AddressRest(front, a, isIPv6)[0];
      HearsOne(WithAddresses(g, front, isIPv6), rest, AddressSaying(front, a, isIPv6));
      HearsThen(g, Vrrp.AddressRests(front, isIPv6), WithAddresses(g, front, isIPv6), [rest],
                WithAddresses(g, addresses, isIPv6));
    }
  }

  lemma NoAddresses(g: Group, isIPv6: string -> bool)
    ensures WithAddresses(g, [], isIPv6) == g
  {
    assert g.secondary + {} == g.secondary && g.ipv6 + {} == g.ipv6;
    assert SecondarySet([], isIPv6) == {} && IPv6Set([], isIPv6) == {};
  }

  // ---- the scalars -----------------------------------------------------------------------------

  lemma PriorityHeard(g: Group, args: Vrrp.Args)
    ensures Hears(g, Numbered("priority-level ", args.priority), WithPriority(g, args))
  {
    if args.priority.Some? {
      var n := args.priority.value;
      AtoiItoa(n);
      ItoaToken(n);
      PriorityRead(Itoa(n), n);
      HearsOne(g, "priority-level " + Itoa(n), Priority(n));
    }
  }

  lemma PreemptHeard(g: Group, args: Vrrp.Args)
    ensures Hears(g, Vrrp.PreemptRests(args), WithPreempt(g, args))
  {
    PreemptRead();
    PreemptSaid(g, args.preempt == Some(true), Vrrp.PreemptRests(args), "preempt");
  }

  lemma PreemptSaid(g: Group, preempt: bool, rests: seq<string>, word: string)
    requires SayingOf(word) == Some(Preempt) && rests == if preempt then [word] else []
    ensures Hears(g, rests, if preempt then g.(preempt := true) else g)
  {
    if preempt {
      HearsThis(g, rests, word, Preempt);
    }
  }

  lemma DelayHeard(g: Group, args: Vrrp.Args)
    ensures Hears(g, Numbered("preempt delay minimum ", args.preemptDelay), WithDelay(g, args))
  {
    if args.preemptDelay.Some? {
      var n := args.preemptDelay.value;
      AtoiItoa(n);
      ItoaToken(n);
      DelayRead(Itoa(n), n);
      HearsOne(g, "preempt delay minimum " + Itoa(n), PreemptDelay(n));
    }
  }

  lemma IntervalHeard(g: Group, args: Vrrp.Args)
    ensures Hears(g, Numbered("advertisement interval ", args.advertise), WithInterval(g, args))
  {
    if args.advertise.Some? {
      var n := args.advertise.value;
      AtoiItoa(n);
      ItoaToken(n);
      IntervalRead(Itoa(n), n);
      HearsOne(g, "advertisement interval " + Itoa(n), Advertise(n));
    }
  }

  lemma DescriptionHeard(g: Group, args: Vrrp.Args)
    ensures Hears(g, Vrrp.DescriptionRests(args), WithDescription(g, args))
  {
    if Given(args.description) {
      DescriptionRead(args.description.value);
      HearsOne(g, "session description " + args.description.value, Description(args.description.value));
    }
  }

  lemma ScalarsHeard(g: Group, args: Vrrp.Args)
    ensures Hears(g, Vrrp.ScalarRests(args), WithScalars(g, args))
  {
    var g1 := WithPriority(g, args);
    var g2 := WithPreempt(g1, args);
    var g3 := WithDelay(g2, args);
    var g4 := WithInterval(g3, args);
    PriorityHeard(g, args);
    PreemptHeard(g1, args);
    DelayHeard(g2, args);
    IntervalHeard(g3, args);
    DescriptionHeard(g4, args);
    HearsFive(g, Numbered("priority-level ", args.priority), g1, Vrrp.PreemptRests(args), g2,
              Numbered("preempt delay minimum ", args.preemptDelay), g3,
              Numbered("advertisement interval ", args.advertise), g4, Vrrp.DescriptionRests(args),
              WithScalars(g, args));
  }

  lemma HearsFive(g: Group, a: seq<string>, g1: Group, b: seq<string>, g2: Group, c: seq<string>, g3: Group,
                  d: seq<string>, g4: Group, e: seq<string>, after: Group)
    requires Hears(g, a, g1) && Hears(g1, b, g2) && Hears(g2, c, g3) && Hears(g3, d, g4) && Hears(g4, e, after)
    ensures Hears(g, a + b + c + d + e, after)
  {
    HearsThen(g, a, g1, b, g2);
    HearsThen(g, a + b, g2, c, g3);
    HearsThen(g, a + b + c, g3, d, g4);
    HearsThen(g, a + b + c + d, g4, e, after);
  }

  // ---- tracks, the BFD peer, and the state --------------------------------------------------------

  lemma TrackRead(t: Vrrp.Track)
    requires Vrrp.ValidTrack(t) && IsToken(t.object_)
    ensures |Vrrp.TrackRest(t)| == 1
    ensures SayingOf(Vrrp.TrackRest(t)[0]) == Some(Tracked(t.object_, ReactionOf(t)))
  {
    if t.action == "decrement" {
      var n := t.decrement.value;
      AtoiItoa(n);
      ItoaToken(n);
      DecrementRead(t.object_, Itoa(n), n);
    } else {
      ShutDownRead(t.object_);
    }
  }

  lemma {:induction false} TracksHeard(g: Group, tracks: seq<Vrrp.Track>)
    requires forall i :: 0 <= i < |tracks| ==> Vrrp.ValidTrack(tracks[i]) && IsToken(tracks[i].object_)
    ensures Hears(g, Collect(tracks, Vrrp.TrackRests), WithTracks(g, Reactions(tracks)))
  {
    if tracks == [] {
      assert g.tracks + map[] == g.tracks;
    } else {
      var n := |tracks| - 1;
      var front, t := tracks[..n], tracks[n];
      assert forall i :: 0 <= i < n ==> front[i] == tracks[i];
      TracksHeard(g, front);
      TrackHeard(WithTracks(g, Reactions(front)), t);
      TracksGrow(g, tracks);
      HearsThen(g, Collect(front, Vrrp.TrackRests), WithTracks(g, Reactions(front)), Vrrp.TrackRest(t),
                WithTracks(g, Reactions(tracks)));
    }
  }

  lemma TrackHeard(g: Group, t: Vrrp.Track)
    requires Vrrp.ValidTrack(t) && IsToken(t.object_)
    ensures Hears(g, Vrrp.TrackRest(t), Heard(g, Tracked(t.object_, ReactionOf(t))))
  {
    TrackRead(t);
    HearsOne(g, Vrrp.TrackRest(t)[0], Tracked(t.object_, ReactionOf(t)));
  }

  lemma TracksGrow(g: Group, tracks: seq<Vrrp.Track>)
    requires tracks != []
    ensures var n := |tracks| - 1;
            Heard(WithTracks(g, Reactions(tracks[..n])), Tracked(tracks[n].object_, ReactionOf(tracks[n])))
            == WithTracks(g, Reactions(tracks))
  {
    var n := |tracks| - 1;
    MapGrows(g.tracks, Reactions(tracks[..n]), tracks[n].object_, ReactionOf(tracks[n]));
  }

  lemma MapGrows(a: map<string, Reaction>, b: map<string, Reaction>, k: string, v: Reaction)
    ensures (a + b)[k := v] == a + b[k := v]
  {
  }

  lemma BfdHeard(g: Group, args: Vrrp.Args)
    requires Given(args.bfdPeer) ==> Netip.IsIPv4(args.bfdPeer.value)
    ensures Hears(g, Vrrp.BfdRests(args), WithBfd(g, args))
  {
    if Given(args.bfdPeer) {
      Netip.IPv4Token(args.bfdPeer.value);
      BfdRead(args.bfdPeer.value);
      HearsOne(g, "bfd ip " + args.bfdPeer.value, BfdPeer(args.bfdPeer.value));
    }
  }

  function WithDisabled(g: Group, args: Vrrp.Args): Group {
    g.(disabled := args.shutdown == Some(true) || g.disabled)
  }

  lemma DisabledHeard(g: Group, args: Vrrp.Args)
    ensures Hears(g, Vrrp.DisabledRests(args), WithDisabled(g, args))
  {
    if args.shutdown == Some(true) {
      DisabledSaid(g, Vrrp.DisabledRests(args));
    }
  }

  lemma DisabledSaid(g: Group, rests: seq<string>)
    requires rests == ["disabled"]
    ensures Hears(g, rests, Heard(g, Disabled))
  {
    DisabledRead("disabled");
    HearsThis(g, rests, rests[0], Disabled);
  }

  /** What the group's own lines make of it; enabling it is said in another way. */
  function Told(g: Group, args: Vrrp.Args, isIPv6: string -> bool): Group {
    WithDisabled(WithPeers(g, args, isIPv6), args)
  }

  lemma GroupHeard(g: Group, args: Vrrp.Args, isIPv6: string -> bool)
    requires Vrrp.ValidArgs(args, isIPv6) && WordsOnly(args)
    ensures Hears(g, Vrrp.Says(args, isIPv6), Told(g, args, isIPv6))
  {
    var g1 := WithAddresses(g, args.addresses, isIPv6);
    var g2 := WithScalars(g1, args);
    var g3 := WithTracks(g2, Reactions(args.tracks));
    var g4 := WithBfd(g3, args);
    AddressesHeard(g, args.addresses, isIPv6);
    ScalarsHeard(g1, args);
    TracksHeard(g2, args.tracks);
    BfdHeard(g3, args);
    DisabledHeard(g4, args);
    HearsFive(g, Vrrp.AddressRests(args.addresses, isIPv6), g1, Vrrp.ScalarRests(args), g2,
              Collect(args.tracks, Vrrp.TrackRests), g3, Vrrp.BfdRests(args), g4, Vrrp.DisabledRests(args),
              Told(g, args, isIPv6));
  }
  // ---- the group's lines -----------------------------------------------------------------------

  lemma SayRead(vrid: Int, rest: string)
    ensures CommandOf(Vrrp.Head(vrid) + rest)
         == match SayingOf(rest) case Some(saying) => Say(vrid, saying) case None => Unknown
  {
    var n := Itoa(vrid);
    AtoiItoa(vrid);
    ItoaToken(vrid);
    HeadWords(n, rest);
    SayWords(Vrrp.Head(vrid) + rest, n, vrid, rest);
  }

  lemma HeadWords(n: string, rest: string)
    requires IsToken(n)
    ensures var line := "vrrp " + n + " " + rest;
            Fields(line) == ["vrrp", n] + Fields(rest) && CutPrefix(line, "vrrp " + n + " ") == Some(rest)
  {
    HeadLine(n, rest);
    FieldsWord("vrrp", n + " " + rest);
    FieldsWord(n, rest);
    Pair("vrrp", n, Fields(rest));
    CutOwnPrefix("vrrp " + n + " ", rest);
  }

  lemma HeadLine(n: string, rest: string)
    ensures "vrrp " + n + " " + rest == "vrrp" + " " + (n + " " + rest)
  {
  }

  lemma SayWords(line: string, n: string, vrid: Int, rest: string)
    requires Fields(line) == ["vrrp", n] + Fields(rest) && Atoi(n) == Some(vrid)
    requires CutPrefix(line, "vrrp " + n + " ") == Some(rest)
    ensures CommandOf(line) == match SayingOf(rest) case Some(saying) => Say(vrid, saying) case None => Unknown
  {
    assert Fields(line)[0] == "vrrp" && Fields(line)[1] == n;
  }

  lemma IfaceRead(iface: string)
    requires IsToken(iface)
    ensures CommandOf("interface " + iface) == EnterInterface(iface)
  {
    TwoWordLine("interface ", "interface", iface);
  }

  lemma NoVrrpLine(n: string)
    ensures "no vrrp " + n == "no" + " " + "vrrp" + " " + n
    ensures "no " + ("vrrp " + n + " ") + "disabled" == "no" + " " + "vrrp" + " " + n + " " + "disabled"
  {
  }

  lemma NoVrrpRead(word: string, n: Int)
    requires IsToken(word) && Atoi(word) == Some(n)
    ensures CommandOf("no vrrp " + word) == NoGroup(n)
    ensures CommandOf("no " + ("vrrp " + word + " ") + "disabled") == Enable(n)
  {
    NoVrrpLine(word);
    Words3("no", "vrrp", word);
    Words4("no", "vrrp", word, "disabled");
    assert ["no", "vrrp", word][1..] == ["vrrp", word];
    assert ["no", "vrrp", word, "disabled"][1..] == ["vrrp", word, "disabled"];
  }

  lemma KnownTyped(mode: Mode, line: string)
    requires !CommandOf(line).Unknown?
    ensures IsTyped(GROUPS, mode, line)
  {
  }

  lemma LineRuns(cfg: Config, mode: Mode, line: string)
    requires !CommandOf(line).Unknown?
    ensures Takes(GROUPS, cfg, mode, [line], Execute(cfg, mode, CommandOf(line)), NextMode(mode, CommandOf(line)))
  {
    KnownTyped(mode, line);
    TakesOne(GROUPS, cfg, mode, line);
  }

  function WithGroup(cfg: Config, key: Key, g: Group): Config {
    cfg[key := g]
  }

  /** The device once the group was told these: it is there as soon as one was. */
  function Spoken(cfg: Config, key: Key, rests: seq<string>): Config {
    if rests == [] then cfg else WithGroup(cfg, key, Scan(GroupOf(cfg, key), rests, HEAR))
  }

  lemma SpokenMore(cfg: Config, key: Key, rests: seq<string>, saying: Saying)
    requires rests != [] && SayingOf(rests[|rests| - 1]) == Some(saying)
    ensures var mid := Spoken(cfg, key, rests[..|rests| - 1]);
            WithGroup(mid, key, Heard(GroupOf(mid, key), saying)) == Spoken(cfg, key, rests)
  {
    var front := rests[..|rests| - 1];
    var g := Scan(GroupOf(cfg, key), front, HEAR);
    if front == [] {
      assert g == GroupOf(cfg, key);
    } else {
      assert cfg[key := g][key := Heard(g, saying)] == cfg[key := Heard(g, saying)];
    }
  }

  lemma SayRuns(cfg: Config, iface: string, vrid: Int, rest: string, saying: Saying)
    requires SayingOf(rest) == Some(saying)
    ensures var key := Key(iface, vrid);
            Takes(GROUPS, cfg, InInterface(iface), [Vrrp.Head(vrid) + rest],
              WithGroup(cfg, key, Heard(GroupOf(cfg, key), saying)), InInterface(iface))
  {
    SayRead(vrid, rest);
    LineRuns(cfg, InInterface(iface), Vrrp.Head(vrid) + rest);
  }

  lemma LinesSnoc(vrid: Int, rests: seq<string>)
    requires rests != []
    ensures var n := |rests| - 1;
            Vrrp.Lines(vrid, rests) == Vrrp.Lines(vrid, rests[..n]) + [Vrrp.Head(vrid) + rests[n]]
  {
  }

  lemma {:induction false} LinesRun(cfg: Config, iface: string, vrid: Int, rests: seq<string>)
    requires AllKnown(rests)
    ensures Takes(GROUPS, cfg, InInterface(iface), Vrrp.Lines(vrid, rests), Spoken(cfg, Key(iface, vrid), rests),
              InInterface(iface))
  {
    if rests == [] {
      TakesNone(GROUPS, cfg, InInterface(iface));
    } else {
      var n := |rests| - 1;
      var key, mid := Key(iface, vrid), Spoken(cfg, Key(iface, vrid), rests[..n]);
      var line := Vrrp.Head(vrid) + rests[n];
      LinesRun(cfg, iface, vrid, rests[..n]);
      SayRuns(mid, iface, vrid, rests[n], SayingOf(rests[n]).value);
      SpokenMore(cfg, key, rests, SayingOf(rests[n]).value);
      LinesSnoc(vrid, rests);
      TakesThen(GROUPS, cfg, InInterface(iface), Vrrp.Lines(vrid, rests[..n]), mid, InInterface(iface), [line],
                Spoken(cfg, key, rests), InInterface(iface));
    }
  }

  // ---- convergence ----------------------------------------------------------------------------

  /** What applying leaves: a group of which something is said has the declared fields over
      what it had; of a group without any line only the state can change. */
  function Applied(cfg: Config, args: Vrrp.Args, isIPv6: string -> bool): Config {
    var key := KeyOf(args);
    if Vrrp.Says(args, isIPv6) != [] then WithGroup(cfg, key, Overlay(GroupOf(cfg, key), args, isIPv6))
    else if key in cfg then WithGroup(cfg, key, WithState(cfg[key], args))
    else cfg
  }

  lemma EnableRuns(cfg: Config, args: Vrrp.Args)
    ensures Takes(GROUPS, cfg, InInterface(args.iface), Vrrp.EnableLines(args), Enabled(cfg, args),
              InInterface(args.iface))
  {
    if args.shutdown == Some(false) {
      var line := Vrrp.EnableLines(args)[0];
      AtoiItoa(args.vrid);
      ItoaToken(args.vrid);
      NoVrrpRead(Itoa(args.vrid), args.vrid);
      LineRuns(cfg, InInterface(args.iface), line);
    } else {
      TakesNone(GROUPS, cfg, InInterface(args.iface));
    }
  }

  function Enabled(cfg: Config, args: Vrrp.Args): Config {
    var key := KeyOf(args);
    if args.shutdown == Some(false) && key in cfg then WithGroup(cfg, key, cfg[key].(disabled := false)) else cfg
  }

  lemma TwiceWith(cfg: Config, key: Key, a: Group, b: Group)
    ensures WithGroup(WithGroup(cfg, key, a), key, b) == WithGroup(cfg, key, b)
  {
  }

  lemma SpokenThenEnabled(cfg: Config, args: Vrrp.Args, isIPv6: string -> bool)
    requires Vrrp.ValidArgs(args, isIPv6) && WordsOnly(args)
    ensures Enabled(Spoken(cfg, KeyOf(args), Vrrp.Says(args, isIPv6)), args) == Applied(cfg, args, isIPv6)
  {
    var key, rests := KeyOf(args), Vrrp.Says(args, isIPv6);
    if rests != [] {
      var g := GroupOf(cfg, key);
      var told := Told(g, args, isIPv6);
      GroupHeard(g, args, isIPv6);
      TellAll(cfg, key, rests, told);
      TwiceWith(cfg, key, told, told.(disabled := false));
      ToldEnabled(g, args, isIPv6);
    } else {
      NothingSaid(args, isIPv6);
      StateOnly(cfg, args);
    }
  }

  lemma TellAll(cfg: Config, key: Key, rests: seq<string>, told: Group)
    requires rests != [] && Hears(GroupOf(cfg, key), rests, told)
    ensures Spoken(cfg, key, rests) == WithGroup(cfg, key, told)
  {
  }

  lemma ToldEnabled(g: Group, args: Vrrp.Args, isIPv6: string -> bool)
    ensures var told := Told(g, args, isIPv6);
            (if args.shutdown == Some(false) then told.(disabled := false) else told) == Overlay(g, args, isIPv6)
  {
    var peers := WithPeers(g, args, isIPv6);
  }

  lemma StateOnly(cfg: Config, args: Vrrp.Args)
    requires args.shutdown != Some(true)
    ensures Enabled(cfg, args)
         == if KeyOf(args) in cfg then WithGroup(cfg, KeyOf(args), WithState(cfg[KeyOf(args)], args)) else cfg
  {
    var key := KeyOf(args);
    if key in cfg && args.shutdown == None {
      assert cfg[key := cfg[key]] == cfg;
    }
  }

  lemma NothingSaid(args: Vrrp.Args, isIPv6: string -> bool)
    ensures args.shutdown == Some(true) ==> Vrrp.Says(args, isIPv6) != []
  {
    if args.shutdown == Some(true) {
      assert |Vrrp.DisabledRests(args)| == 1;
    }
  }

  lemma EnterRuns(cfg: Config, iface: string)
    requires Pbr.IsInterface(iface)
    ensures Takes(GROUPS, cfg, Global, ["interface " + iface], cfg, InInterface(iface))
  {
    Pbr.InterfaceToken(iface);
    IfaceRead(iface);
    LineRuns(cfg, Global, "interface " + iface);
  }

  function Left(cfg: Config, args: Vrrp.Args, isIPv6: string -> bool, remove: bool): Config {
    if remove then cfg - {KeyOf(args)} else Applied(cfg, args, isIPv6)
  }

  lemma RemovalRuns(cfg: Config, args: Vrrp.Args)
    requires Pbr.IsInterface(args.iface)
    ensures Takes(GROUPS, cfg, Global, ["interface " + args.iface, "no vrrp " + Itoa(args.vrid)], cfg - {KeyOf(args)},
              InInterface(args.iface))
  {
    EnterRuns(cfg, args.iface);
    AtoiItoa(args.vrid);
    ItoaToken(args.vrid);
    NoVrrpRead(Itoa(args.vrid), args.vrid);
    LineRuns(cfg, InInterface(args.iface), "no vrrp " + Itoa(args.vrid));
    TakesThen(GROUPS, cfg, Global, ["interface " + args.iface], cfg, InInterface(args.iface),
              ["no vrrp " + Itoa(args.vrid)], cfg - {KeyOf(args)}, InInterface(args.iface));
  }

  lemma ApplyRuns(cfg: Config, args: Vrrp.Args, isIPv6: string -> bool)
    requires Vrrp.ValidArgs(args, isIPv6) && WordsOnly(args)
    ensures Takes(GROUPS, cfg, Global, ["interface " + args.iface] + Vrrp.GroupLines(args, isIPv6),
              Applied(cfg, args, isIPv6), InInterface(args.iface))
  {
    var mode, rests := InInterface(args.iface), Vrrp.Says(args, isIPv6);
    var told := Spoken(cfg, KeyOf(args), rests);
    EnterRuns(cfg, args.iface);
    GroupHeard(GroupOf(cfg, KeyOf(args)), args, isIPv6);
    LinesRun(cfg, args.iface, args.vrid, rests);
    EnableRuns(told, args);
    SpokenThenEnabled(cfg, args, isIPv6);
    TakesThen(GROUPS, cfg, mode, Vrrp.Lines(args.vrid, rests), told, mode, Vrrp.EnableLines(args),
              Applied(cfg, args, isIPv6), mode);
    TakesThen(GROUPS, cfg, Global, ["interface " + args.iface], cfg, mode, Vrrp.GroupLines(args, isIPv6),
              Applied(cfg, args, isIPv6), mode);
  }

  lemma StagedRuns(cfg: Config, args: Vrrp.Args, isIPv6: string -> bool, remove: bool)
    requires Vrrp.ValidArgs(args, isIPv6) && (!remove ==> WordsOnly(args))
    ensures Takes(GROUPS, cfg, Global, Vrrp.Staged(args, isIPv6, remove), Left(cfg, args, isIPv6, remove),
              InInterface(args.iface))
  {
    if remove {
      RemovalRuns(cfg, args);
    } else {
      ApplyRuns(cfg, args, isIPv6);
    }
  }

  /** From any prior state: applying puts the declared fields over what the group had, and
      removing leaves out exactly that group; every other group, of this interface or
      another, is as before. */
  lemma Converges(cfg: Config, args: Vrrp.Args, isIPv6: string -> bool, remove: bool)
    requires Vrrp.ValidArgs(args, isIPv6) && (!remove ==> WordsOnly(args))
    ensures Run(GROUPS, cfg, Vrrp.Staged(args, isIPv6, remove)) == Left(cfg, args, isIPv6, remove)
  {
    StagedRuns(cfg, args, isIPv6, remove);
  }
  // ---- the declared group ------------------------------------------------------------------------

  lemma {:induction false} InOrder(addresses: seq<string>, isIPv6: string -> bool)
    ensures forall i :: 0 <= i < |addresses| && !isIPv6(addresses[i]) ==> addresses[i] in IPv4s(addresses, isIPv6)
    ensures forall a :: a in IPv4s(addresses, isIPv6) ==> a in addresses && !isIPv6(a)
  {
    if addresses != [] {
      var n := |addresses| - 1;
      assert forall i :: 0 <= i < n ==> addresses[..n][i] == addresses[i];
      InOrder(addresses[..n], isIPv6);
    }
  }

  /** A declared group has exactly the declared addresses: the IPv6 ones as such, the first
      IPv4 one as its primary, the others as secondaries. */
  lemma DeclaredAddresses(args: Vrrp.Args, isIPv6: string -> bool)
    ensures var g, v4 := Declared(args, isIPv6), IPv4s(args.addresses, isIPv6);
            && (forall a :: a in g.ipv6 <==> a in args.addresses && isIPv6(a))
            && (g.primary == if v4 != [] then Some(v4[0]) else None)
            && (forall a :: a in args.addresses && !isIPv6(a) ==> g.primary == Some(a) || a in g.secondary)
            && (forall a :: a in g.secondary ==> a in args.addresses && !isIPv6(a))
  {
    InOrder(args.addresses, isIPv6);
    var v4 := IPv4s(args.addresses, isIPv6);
    forall a | a in args.addresses && !isIPv6(a)
      ensures Declared(args, isIPv6).primary == Some(a) || a in SecondarySet(args.addresses, isIPv6)
    {
      var i :| 0 <= i < |v4| && v4[i] == a;
    }
  }

  lemma {:induction false} ReactionKeys(tracks: seq<Vrrp.Track>)
    ensures forall i :: 0 <= i < |tracks| ==> tracks[i].object_ in Reactions(tracks)
  {
    if tracks != [] {
      var n := |tracks| - 1;
      assert forall i :: 0 <= i < n ==> tracks[..n][i] == tracks[i];
      ReactionKeys(tracks[..n]);
    }
  }

  /** The group has nothing that the arguments leave out. */
  predicate NothingStale(g: Group, args: Vrrp.Args, isIPv6: string -> bool) {
    NoStaleAddress(g, args.addresses, isIPv6) && NoStaleScalar(g, args) && NoStalePeer(g, args)
  }

  predicate NoStaleAddress(g: Group, addresses: seq<string>, isIPv6: string -> bool) {
    && (g.primary.Some? ==> IPv4s(addresses, isIPv6) != [])
    && g.secondary <= SecondarySet(addresses, isIPv6)
    && g.ipv6 <= IPv6Set(addresses, isIPv6)
  }

  predicate NoStaleScalar(g: Group, args: Vrrp.Args) {
    && (g.priority.Some? ==> args.priority.Some?)
    && (g.preempt ==> args.preempt == Some(true))
    && (g.preemptDelay.Some? ==> args.preemptDelay.Some?)
    && (g.advertise.Some? ==> args.advertise.Some?)
    && (g.description.Some? ==> Given(args.description))
  }

  predicate NoStalePeer(g: Group, args: Vrrp.Args) {
    && g.tracks.Keys <= Reactions(args.tracks).Keys
    && (g.bfdPeer.Some? ==> Given(args.bfdPeer))
    && (g.disabled ==> args.shutdown.Some?)
  }

  lemma SetOver<T>(a: set<T>, b: set<T>)
    ensures a + b == {} + b <==> a <= b
  {
  }

  lemma MapOver(a: map<string, Reaction>, b: map<string, Reaction>)
    ensures a + b == map[] + b <==> a.Keys <= b.Keys
  {
    if a + b == map[] + b {
      assert forall k :: k in a ==> k in a + b;
    }
  }

  lemma AddressesStale(g: Group, addresses: seq<string>, isIPv6: string -> bool)
    ensures var over, fresh_ := WithAddresses(g, addresses, isIPv6), WithAddresses(EMPTY, addresses, isIPv6);
            (over.primary == fresh_.primary && over.secondary == fresh_.secondary && over.ipv6 == fresh_.ipv6)
            <==> NoStaleAddress(g, addresses, isIPv6)
  {
    SetOver(g.secondary, SecondarySet(addresses, isIPv6));
    SetOver(g.ipv6, IPv6Set(addresses, isIPv6));
  }

  lemma ScalarsStale(g: Group, h: Group, args: Vrrp.Args)
    requires NoScalars(h)
    ensures var over, fresh_ := WithScalars(g, args), WithScalars(h, args);
            (over.priority == fresh_.priority && over.preempt == fresh_.preempt
             && over.preemptDelay == fresh_.preemptDelay && over.advertise == fresh_.advertise
             && over.description == fresh_.description)
            <==> NoStaleScalar(g, args)
  {
  }

  predicate NoScalars(g: Group) {
    g.priority == None && !g.preempt && g.preemptDelay == None && g.advertise == None && g.description == None
  }

  lemma PeersStale(g: Group, args: Vrrp.Args)
    ensures (g.tracks + Reactions(args.tracks) == map[] + Reactions(args.tracks)
             && (Given(args.bfdPeer) || g.bfdPeer == None) && (args.shutdown.Some? || !g.disabled))
       <==> NoStalePeer(g, args)
  {
    MapOver(g.tracks, Reactions(args.tracks));
  }

  /** What applying leaves of a group is the declared group exactly when it had nothing that
      the arguments leave out. */
  lemma StaleExactly(g: Group, args: Vrrp.Args, isIPv6: string -> bool)
    ensures Overlay(g, args, isIPv6) == Declared(args, isIPv6) <==> NothingStale(g, args, isIPv6)
  {
    AddressesStale(g, args.addresses, isIPv6);
    ScalarsStale(WithAddresses(g, args.addresses, isIPv6), WithAddresses(EMPTY, args.addresses, isIPv6), args);
    PeersStale(g, args);
  }
  // ---- when the declared group is reached ----------------------------------------------------------

  ghost predicate HeldGroup(g: Group) {
    && (g.primary.Some? ==> IsToken(g.primary.value))
    && (forall a :: a in g.secondary ==> IsToken(a))
    && (forall a :: a in g.ipv6 ==> IsToken(a))
    && (forall o :: o in g.tracks ==> IsToken(o))
  }

  /** A device holds words. */
  ghost predicate Held(cfg: Config) {
    forall key :: key in cfg ==> HeldGroup(cfg[key])
  }

  predicate HeldSaying(s: Saying) {
    match s
    case Primary(a) => IsToken(a)
    case Secondary(a) => IsToken(a)
    case IPv6(a) => IsToken(a)
    case Tracked(o, _) => IsToken(o)
    case _ => true
  }

  lemma SayingHeld(rest: string)
    ensures SayingOf(rest).Some? ==> HeldSaying(SayingOf(rest).value)
  {
    var words := Fields(rest);
    if |words| >= 2 {
      assert IsToken(words[1]);
    }
  }

  lemma CommandHeld(line: string)
    ensures CommandOf(line).Say? ==> HeldSaying(CommandOf(line).saying)
  {
    var words := Fields(line);
    if |words| >= 2 && CutPrefix(line, "vrrp " + words[1] + " ").Some? {
      SayingHeld(CutPrefix(line, "vrrp " + words[1] + " ").value);
    }
  }

  lemma HeardHeld(g: Group, s: Saying)
    requires HeldGroup(g) && HeldSaying(s)
    ensures HeldGroup(Heard(g, s))
  {
  }

  lemma ExecuteHeld(cfg: Config, mode: Mode, cmd: Command)
    requires Held(cfg) && (cmd.Say? ==> HeldSaying(cmd.saying))
    ensures Held(Execute(cfg, mode, cmd))
  {
    if mode != Global && cmd.Say? {
      var key := Key(mode.iface, cmd.vrid);
      assert HeldGroup(GroupOf(cfg, key));
      HeardHeld(GroupOf(cfg, key), cmd.saying);
    }
  }

  /** Whatever is typed, a device keeps holding words only. */
  lemma {:induction false} RunHeld(cfg: Config, mode: Mode, lines: seq<string>)
    requires Held(cfg)
    ensures Held(Effect(GROUPS, cfg, mode, lines))
  {
    if lines != [] {
      var n := |lines| - 1;
      RunHeld(cfg, mode, lines[..n]);
      CommandHeld(lines[n]);
      ExecuteHeld(Effect(GROUPS, cfg, mode, lines[..n]), ModeFrom(GROUPS, mode, lines[..n]), CommandOf(lines[n]));
    }
  }

  lemma DeclaredHeld(args: Vrrp.Args, isIPv6: string -> bool)
    requires HeldGroup(Declared(args, isIPv6))
    ensures WordsOnly(args)
  {
    var g := Declared(args, isIPv6);
    DeclaredAddresses(args, isIPv6);
    forall i | 0 <= i < |args.addresses| ensures IsToken(args.addresses[i]) {
      assert args.addresses[i] in args.addresses;
    }
    ReactionKeys(args.tracks);
    TracksOver(args.tracks);
    forall i | 0 <= i < |args.tracks| ensures IsToken(args.tracks[i].object_) {
      assert args.tracks[i].object_ in g.tracks;
    }
  }

  lemma TracksOver(tracks: seq<Vrrp.Track>)
    ensures EMPTY.tracks + Reactions(tracks) == Reactions(tracks)
  {
  }

  /** An apply does not take anything away. A device reaches the declared group if and only if
      the group had nothing that the arguments leave out, and the addresses and tracked
      objects are single words, which validation does not ask of IPv6 zones and objects. */
  lemma ConvergesExactly(cfg: Config, args: Vrrp.Args, isIPv6: string -> bool)
    requires Vrrp.ValidArgs(args, isIPv6) && Vrrp.Says(args, isIPv6) != [] && Held(cfg)
    ensures Run(GROUPS, cfg, Vrrp.Staged(args, isIPv6, false)) == WithGroup(cfg, KeyOf(args), Declared(args, isIPv6))
       <==> WordsOnly(args) && NothingStale(GroupOf(cfg, KeyOf(args)), args, isIPv6)
  {
    var key, after := KeyOf(args), Run(GROUPS, cfg, Vrrp.Staged(args, isIPv6, false));
    if WordsOnly(args) {
      Converges(cfg, args, isIPv6, false);
      StaleExactly(GroupOf(cfg, key), args, isIPv6);
      assert after[key] == Overlay(GroupOf(cfg, key), args, isIPv6);
    } else if after == WithGroup(cfg, key, Declared(args, isIPv6)) {
      RunHeld(cfg, Global, Vrrp.Staged(args, isIPv6, false));
      assert HeldGroup(after[key]);
      DeclaredHeld(args, isIPv6);
    }
  }

  /** An address that an update no longer lists stays on the device. */
  lemma StaleAddressStays(cfg: Config, args: Vrrp.Args, isIPv6: string -> bool, address: string)
    requires Vrrp.ValidArgs(args, isIPv6) && WordsOnly(args) && Vrrp.Says(args, isIPv6) != []
    requires KeyOf(args) in cfg && address in cfg[KeyOf(args)].secondary && address !in args.addresses
    ensures var after := Run(GROUPS, cfg, Vrrp.Staged(args, isIPv6, false));
            KeyOf(args) in after && address in after[KeyOf(args)].secondary
  {
    Converges(cfg, args, isIPv6, false);
  }

  /** Applying again changes nothing. */
  lemma AppliesIdempotently(cfg: Config, args: Vrrp.Args, isIPv6: string -> bool)
    requires Vrrp.ValidArgs(args, isIPv6) && WordsOnly(args)
    ensures var after := Run(GROUPS, cfg, Vrrp.Staged(args, isIPv6, false));
            Run(GROUPS, after, Vrrp.Staged(args, isIPv6, false)) == after
  {
    var key, after := KeyOf(args), Applied(cfg, args, isIPv6);
    Converges(cfg, args, isIPv6, false);
    Converges(after, args, isIPv6, false);
    OverlayTwice(GroupOf(cfg, key), args, isIPv6);
    if Vrrp.Says(args, isIPv6) != [] {
      TwiceWith(cfg, key, Overlay(GroupOf(cfg, key), args, isIPv6), Overlay(GroupOf(cfg, key), args, isIPv6));
    } else if key in cfg {
      TwiceWith(cfg, key, WithState(cfg[key], args), WithState(cfg[key], args));
    }
  }

  lemma OverlayTwice(g: Group, args: Vrrp.Args, isIPv6: string -> bool)
    ensures Overlay(Overlay(g, args, isIPv6), args, isIPv6) == Overlay(g, args, isIPv6)
  {
    var s, v6, t := SecondarySet(args.addresses, isIPv6), IPv6Set(args.addresses, isIPv6), Reactions(args.tracks);
    assert g.secondary + s + s == g.secondary + s && g.ipv6 + v6 + v6 == g.ipv6 + v6;
    assert g.tracks + t + t == g.tracks + t;
  }

  /** One apply over a network that may break any call: the groups are as before, or the
      commit was reached and the group has the declared fields, or is gone. */
  lemma ApplyLeavesDeclared(show: Config -> seq<string>, dev: Device<Config>, session: string, args: Vrrp.Args,
                            isIPv6: string -> bool, remove: bool, nets: Nets)
    requires IsToken(session) && Vrrp.ValidArgs(args, isIPv6) && (!remove ==> WordsOnly(args))
    ensures var sem := SemanticsOf(GROUPS, show);
            AfterApply(sem, dev, session, Vrrp.Staged(args, isIPv6, remove), nets).running ==
            if Commits(nets)
            then Left(Replay(sem, dev.running, Batches(dev, session)), args, isIPv6, remove)
            else dev.running
  {
    var before := Replay(SemanticsOf(GROUPS, show), dev.running, Batches(dev, session));
    StagedRuns(before, args, isIPv6, remove);
    ApplyTakes(GROUPS, show, dev, session, Vrrp.Staged(args, isIPv6, remove), nets,
               Left(before, args, isIPv6, remove), InInterface(args.iface));
  }

  const BARE := Vrrp.Args("Vlan10", 1, Some("x"), None, None, None, None, [], [], None, None)

  lemma BareIsValid(args: Vrrp.Args, isIPv6: string -> bool)
    requires args == BARE.(priority := args.priority, preempt := args.preempt)
    requires args.priority.Some? ==> 1 <= args.priority.value <= 254
    ensures Vrrp.ValidArgs(args, isIPv6) && WordsOnly(args) && Vrrp.Says(args, isIPv6) != []
    ensures KeyOf(args) == KeyOf(BARE)
  {
    BareInterface(args.iface);
    assert Vrrp.DescriptionRests(args) != [] && Vrrp.ScalarRests(args) != [];
  }

  lemma BareInterface(name: string)
    requires name == "Vlan10"
    ensures Pbr.IsInterface(name) && TrimSpace(name) != ""
  {
    assert name[|"Vlan"|..] == "10";
    assert Pbr.AfterKind(name, "Vlan");
  }

  /** A group that was declared with a priority and preemption, and is then declared without
      a priority and with preemption off: it keeps both. */
  lemma StaleFieldsStay(cfg: Config, isIPv6: string -> bool) returns (before: Vrrp.Args, args: Vrrp.Args)
    ensures Vrrp.ValidArgs(before, isIPv6) && Vrrp.ValidArgs(args, isIPv6) && KeyOf(before) == KeyOf(args)
    ensures before.priority == Some(200) && before.preempt == Some(true)
    ensures args == before.(priority := None, preempt := Some(false))
    ensures var first := Run(GROUPS, cfg, Vrrp.Staged(before, isIPv6, false));
            var after := Run(GROUPS, first, Vrrp.Staged(args, isIPv6, false));
            KeyOf(args) in after && after[KeyOf(args)].priority == Some(200) && after[KeyOf(args)].preempt
  {
    before := BARE.(priority := Some(200), preempt := Some(true));
    args := before.(priority := None, preempt := Some(false));
    BareIsValid(before, isIPv6);
    BareIsValid(args, isIPv6);
    Converges(cfg, before, isIPv6, false);
    Converges(Run(GROUPS, cfg, Vrrp.Staged(before, isIPv6, false)), args, isIPv6, false);
  }
}
