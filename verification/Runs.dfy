/** Whole runs of Create, Update and Delete on several prefix-lists and
    route-maps, over a network that may break any call, and over sessions that
    broken applies have left behind on the device. */
module Runs {
  import opened Text
  import opened Seqs
  import Netip
  import opened Eapi
  import opened Eos
  import PrefixList
  import PrefixListDevice
  import RouteMap
  import RouteMapDevice

  /** What an apply is about. */
  datatype Key = ListKey(name: string) | MapKey(name: string)

  /** One apply: Create and Update declare the list or the map, Delete removes it. */
  datatype Event =
    | ListEvent(list: PrefixList.Args, remove: bool, nets: Nets)
    | MapEvent(rmap: RouteMap.Args, remove: bool, nets: Nets)

  function KeyOf(ev: Event): Key {
    match ev
    case ListEvent(args, _, _) => ListKey(args.name)
    case MapEvent(args, _, _) => MapKey(args.name)
  }

  function CmdsOf(ev: Event): seq<string> {
    match ev
    case ListEvent(args, remove, _) => PrefixList.Rendered(args, remove)
    case MapEvent(args, remove, _) => RouteMap.Rendered(args, remove)
  }

  ghost predicate ValidEvent(ev: Event) {
    match ev
    case ListEvent(args, remove, _) =>
      IsToken(args.name) && (!remove ==> PrefixList.ValidArgs(args))
    case MapEvent(args, remove, _) =>
      IsToken(args.name) && (!remove ==> RouteMap.ValidArgs(args) && RouteMapDevice.AllWordsOnly(args.entries))
  }

  function SessionName(sessionPrefix: string, key: Key): string {
    sessionPrefix + (if key.ListKey? then "pfxlist-" else "rmap-") + SessionSlug(key.name)
  }

  function AfterEvent(sem: Semantics<Config>, dev: Device<Config>, sessionPrefix: string, ev: Event): Device<Config> {
    AfterApply(sem, dev, SessionName(sessionPrefix, KeyOf(ev)), CmdsOf(ev), ev.nets)
  }

  function AfterRun(sem: Semantics<Config>, dev: Device<Config>, sessionPrefix: string,
                    evs: seq<Event>): Device<Config> {
    if evs == [] then dev
    else AfterEvent(sem, AfterRun(sem, dev, sessionPrefix, evs[..|evs| - 1]), sessionPrefix, evs[|evs| - 1])
  }

  // ---- what a run should leave ------------------------------------------------------------

  /** What a configuration holds of a list or a map. */
  datatype State = Absent | ListState(list: PrefixListConfig) | MapState(blocks: map<int, Block>)

  function At(cfg: Config, key: Key): State {
    match key
    case ListKey(name) => if name in cfg.prefixLists then ListState(cfg.prefixLists[name]) else Absent
    case MapKey(name) => if name in cfg.routeMaps then MapState(cfg.routeMaps[name]) else Absent
  }

  function Target(ev: Event): State {
    if ev.remove then Absent
    else
      match ev
      case ListEvent(args, _, _) => ListState(PrefixListDevice.Declared(args))
      case MapEvent(args, _, _) => MapState(RouteMapDevice.Declared(args))
  }

  /** The last event of a list or map whose commit reached the device. */
  function LastCommit(evs: seq<Event>, key: Key): Option<Event> {
    if evs == [] then None
    else
      var last := evs[|evs| - 1];
      if KeyOf(last) == key && Commits(last.nets) then Some(last) else LastCommit(evs[..|evs| - 1], key)
  }

  lemma {:induction false} LastCommitIsEvent(evs: seq<Event>, key: Key)
    ensures var last := LastCommit(evs, key);
            last.Some? ==> last.value in evs && KeyOf(last.value) == key
  {
    if evs != [] {
      LastCommitIsEvent(evs[..|evs| - 1], key);
    }
  }

  function Expected(before: Config, evs: seq<Event>, key: Key): State {
    match LastCommit(evs, key)
    case None => At(before, key)
    case Some(ev) => Target(ev)
  }

  /** Every list and every map is what its last effective commit declared, absent
      after a removal, and as it was before the run if there was none. */
  ghost predicate Safe(before: Config, evs: seq<Event>, after: Config) {
    forall key :: At(after, key) == Expected(before, evs, key)
  }

  /** Nothing but this list or map differs. */
  ghost predicate SameBut(a: Config, b: Config, key: Key) {
    forall k :: k != key ==> At(a, k) == At(b, k)
  }

  lemma SafeExtends(before: Config, evs: seq<Event>, mid: Config, after: Config, ev: Event)
    requires Safe(before, evs, mid)
    requires Commits(ev.nets) ==> SameBut(after, mid, KeyOf(ev)) && At(after, KeyOf(ev)) == Target(ev)
    requires !Commits(ev.nets) ==> after == mid
    ensures Safe(before, evs + [ev], after)
  {
    assert (evs + [ev])[..|evs|] == evs;
    forall key ensures At(after, key) == Expected(before, evs + [ev], key) {
      assert At(mid, key) == Expected(before, evs, key);
    }
  }

  // ---- one event on a configuration -----------------------------------------------------------

  lemma ListHeld(cfg: Config, name: string, list: Option<PrefixListConfig>)
    ensures var next := HasList(cfg, name, list);
            && SameBut(next, cfg, ListKey(name))
            && At(next, ListKey(name)) == if list == None then Absent else ListState(list.value)
  {
  }

  lemma MapHeld(cfg: Config, name: string, blocks: Option<map<int, Block>>)
    ensures var next := RouteMapDevice.HasMap(cfg, name, blocks);
            && SameBut(next, cfg, MapKey(name))
            && At(next, MapKey(name)) == if blocks == None then Absent else MapState(blocks.value)
  {
  }

  lemma ListConverges(cfg: Config, args: PrefixList.Args, remove: bool)
    requires IsToken(args.name) && (!remove ==> PrefixList.ValidArgs(args))
    ensures var next := Run(cfg, PrefixList.Rendered(args, remove));
            && SameBut(next, cfg, ListKey(args.name))
            && At(next, ListKey(args.name)) == if remove then Absent else ListState(PrefixListDevice.Declared(args))
  {
    PrefixListDevice.Converges(cfg, args, remove);
    ListHeld(cfg, args.name, if remove then None else Some(PrefixListDevice.Declared(args)));
  }

  lemma MapConverges(cfg: Config, args: RouteMap.Args, remove: bool)
    requires IsToken(args.name)
    requires !remove ==> RouteMap.ValidArgs(args) && RouteMapDevice.AllWordsOnly(args.entries)
    ensures var next := Run(cfg, RouteMap.Rendered(args, remove));
            && SameBut(next, cfg, MapKey(args.name))
            && At(next, MapKey(args.name)) == if remove then Absent else MapState(RouteMapDevice.Declared(args))
  {
    RouteMapDevice.Converges(cfg, args, remove);
    MapHeld(cfg, args.name, if remove then None else Some(RouteMapDevice.Declared(args)));
  }

  lemma EventConverges(cfg: Config, ev: Event)
    requires ValidEvent(ev)
    ensures SameBut(Run(cfg, CmdsOf(ev)), cfg, KeyOf(ev)) && At(Run(cfg, CmdsOf(ev)), KeyOf(ev)) == Target(ev)
  {
    match ev
    case ListEvent(args, remove, _) => ListConverges(cfg, args, remove);
    case MapEvent(args, remove, _) => MapConverges(cfg, args, remove);
  }

  // ---- leftovers of the same list or map --------------------------------------------------------

  predicate IsAbout(line: string, key: Key) {
    match key
    case ListKey(name) => PrefixListDevice.IsOwn(line, name)
    case MapKey(name) => RouteMapDevice.IsOwn(line, name)
  }

  predicate Concerns(batch: seq<string>, key: Key) {
    forall i :: 0 <= i < |batch| ==> IsAbout(batch[i], key)
  }

  predicate AllConcern(batches: seq<seq<string>>, key: Key) {
    forall i :: 0 <= i < |batches| ==> Concerns(batches[i], key)
  }

  lemma EventConcerns(ev: Event)
    requires ValidEvent(ev)
    ensures CmdsOf(ev) != [] && Concerns(CmdsOf(ev), KeyOf(ev)) && PlainBody(EOS_CLI, CmdsOf(ev))
  {
    match ev
    case ListEvent(args, remove, _) => PrefixListDevice.RenderedOwn(args, remove);
    case MapEvent(args, remove, _) => RouteMapDevice.RenderedOwn(args, remove);
  }

  /** Outside every block, or in a block of this map. */
  predicate Inside(mode: Mode, key: Key) {
    mode.Global? || key == MapKey(mode.name)
  }

  lemma AboutOneKey(cfg: Config, mode: Mode, line: string, key: Key)
    requires IsAbout(line, key) && Inside(mode, key)
    ensures var (next, nextMode) := Execute(cfg, mode, CommandOf(line));
            SameBut(next, cfg, key) && Inside(nextMode, key)
  {
  }

  lemma {:induction false} ConcernsRun(cfg: Config, batch: seq<string>, key: Key)
    requires Concerns(batch, key)
    ensures SameBut(RunLines(cfg, Global, batch).0, cfg, key) && Inside(RunLines(cfg, Global, batch).1, key)
  {
    if batch != [] {
      var n := |batch| - 1;
      ConcernsRun(cfg, batch[..n], key);
      var (next, mode) := RunLines(cfg, Global, batch[..n]);
      AboutOneKey(next, mode, batch[n], key);
    }
  }

  lemma {:induction false} ConcernsReplay(show: Config -> seq<string>, cfg: Config, batches: seq<seq<string>>, key: Key)
    requires AllConcern(batches, key)
    ensures SameBut(Replay(SemanticsOf(show), cfg, batches), cfg, key)
  {
    if batches != [] {
      var n := |batches| - 1;
      ConcernsReplay(show, cfg, batches[..n], key);
      ConcernsRun(Replay(SemanticsOf(show), cfg, batches[..n]), batches[n], key);
    }
  }

  /** Resuming a leftover session of the same list or map and committing gives what
      is declared all the same: the negation comes first. */
  lemma ResumedCommit(show: Config -> seq<string>, cfg: Config, leftovers: seq<seq<string>>, ev: Event)
    requires ValidEvent(ev) && AllConcern(leftovers, KeyOf(ev))
    ensures var after := Replay(SemanticsOf(show), cfg, leftovers + [[], CmdsOf(ev)]);
            SameBut(after, cfg, KeyOf(ev)) && At(after, KeyOf(ev)) == Target(ev)
  {
    EventConcerns(ev);
    ReplayEndsWith(SemanticsOf(show), cfg, leftovers, CmdsOf(ev));
    ConcernsReplay(show, cfg, leftovers, KeyOf(ev));
    EventConverges(Replay(SemanticsOf(show), cfg, leftovers), ev);
  }

  // ---- whole runs ---------------------------------------------------------------------------------

  /** Leftover sessions hold lines of their own list or map only. */
  predicate OwnLeftovers(dev: Device<Config>, sessionPrefix: string, keys: set<Key>) {
    forall key :: key in keys ==> AllConcern(Batches(dev, SessionName(sessionPrefix, key)), key)
  }

  predicate SessionsApart(sessionPrefix: string, keys: set<Key>) {
    forall m, n :: m in keys && n in keys && m != n ==>
      SessionName(sessionPrefix, m) != SessionName(sessionPrefix, n)
  }

  lemma SessionToken(sessionPrefix: string, key: Key)
    requires IsToken(sessionPrefix) && IsToken(key.name)
    ensures IsToken(SessionName(sessionPrefix, key))
  {
    assert IsToken(SessionSlug(key.name));
  }

  lemma BeginningConcerns(batch: seq<string>, part: seq<string>, key: Key)
    requires Concerns(batch, key) && part <= batch
    ensures Concerns(part, key)
  {
    assert forall i :: 0 <= i < |part| ==> part[i] == batch[i];
  }

  lemma LeftoversConcern(cmds: seq<string>, before: seq<seq<string>>, after: seq<seq<string>>, key: Key)
    requires Concerns(cmds, key) && AllConcern(before, key) && LeftBy(cmds, before, after)
    ensures AllConcern(after, key)
  {
    forall i | 0 <= i < |after| ensures Concerns(after[i], key) {
      if after[i] in before {
        var j :| 0 <= j < |before| && before[j] == after[i];
      } else {
        BeginningConcerns(cmds, after[i], key);
      }
    }
  }

  lemma EventEffect(show: Config -> seq<string>, dev: Device<Config>, sessionPrefix: string, ev: Event, keys: set<Key>)
    requires IsToken(sessionPrefix) && ValidEvent(ev) && KeyOf(ev) in keys
    requires SessionsApart(sessionPrefix, keys) && OwnLeftovers(dev, sessionPrefix, keys)
    ensures var after := AfterEvent(SemanticsOf(show), dev, sessionPrefix, ev);
            && (Commits(ev.nets) ==>
                  SameBut(after.running, dev.running, KeyOf(ev)) && At(after.running, KeyOf(ev)) == Target(ev))
            && (!Commits(ev.nets) ==> after.running == dev.running)
            && OwnLeftovers(after, sessionPrefix, keys)
  {
    var sem, key, cmds := SemanticsOf(show), KeyOf(ev), CmdsOf(ev);
    var session := SessionName(sessionPrefix, key);
    var after := AfterEvent(sem, dev, sessionPrefix, ev);
    SessionToken(sessionPrefix, key);
    EventConcerns(ev);
    ApplyRunning(sem, dev, session, cmds, ev.nets);
    ApplyPending(sem, dev, session, cmds, ev.nets);
    ResumedCommit(show, dev.running, Batches(dev, session), ev);
    LeftoversConcern(cmds, Batches(dev, session), Batches(after, session), key);
    forall other | other in keys
      ensures AllConcern(Batches(after, SessionName(sessionPrefix, other)), other)
    {
      if other != key {
        assert SessionName(sessionPrefix, other) != session;
        assert Batches(after, SessionName(sessionPrefix, other)) == Batches(dev, SessionName(sessionPrefix, other));
      }
    }
  }

  ghost predicate RunOver(evs: seq<Event>, keys: set<Key>) {
    forall i :: 0 <= i < |evs| ==> ValidEvent(evs[i]) && KeyOf(evs[i]) in keys
  }

  /** Safety over whole runs, for lists and maps whose session names differ. */
  lemma {:induction false} RunsAreSafe(show: Config -> seq<string>, dev: Device<Config>, sessionPrefix: string,
                                       evs: seq<Event>, keys: set<Key>)
    requires IsToken(sessionPrefix) && RunOver(evs, keys)
    requires SessionsApart(sessionPrefix, keys) && OwnLeftovers(dev, sessionPrefix, keys)
    ensures Safe(dev.running, evs, AfterRun(SemanticsOf(show), dev, sessionPrefix, evs).running)
    ensures OwnLeftovers(AfterRun(SemanticsOf(show), dev, sessionPrefix, evs), sessionPrefix, keys)
  {
    if evs != [] {
      var n := |evs| - 1;
      Snoc(evs);
      var mid := AfterRun(SemanticsOf(show), dev, sessionPrefix, evs[..n]);
      RunsAreSafe(show, dev, sessionPrefix, evs[..n], keys);
      EventEffect(show, mid, sessionPrefix, evs[n], keys);
      SafeExtends(dev.running, evs[..n], mid.running,
        AfterEvent(SemanticsOf(show), mid, sessionPrefix, evs[n]).running, evs[n]);
    }
  }

  // ---- and only for those ----------------------------------------------------------------------------

  const ALL_DELIVERED := Nets(Delivered, Delivered, Delivered, Delivered)
  const COMMIT_LOST := Nets(Delivered, Delivered, Delivered, Broken(0))

  /** An apply whose commit never arrives leaves its whole command list pending. */
  lemma LostCommitLeavesAll(show: Config -> seq<string>, dev: Device<Config>, sessionPrefix: string, ev: Event)
    requires IsToken(sessionPrefix) && ValidEvent(ev) && ev.nets == COMMIT_LOST
    ensures var after := AfterEvent(SemanticsOf(show), dev, sessionPrefix, ev);
            var session := SessionName(sessionPrefix, KeyOf(ev));
            && after.running == dev.running
            && Batches(after, session) == Batches(dev, session) + [[], CmdsOf(ev)]
  {
    var session, cmds := SessionName(sessionPrefix, KeyOf(ev)), CmdsOf(ev);
    SessionToken(sessionPrefix, KeyOf(ev));
    EventConcerns(ev);
    ApplyCases(SemanticsOf(show), dev, session, cmds, COMMIT_LOST);
    StagedCompletely(dev, session, cmds, Delivered);
    StagedElsewhere(dev, session, cmds, Delivered);
  }

  /** A later apply of another list or map with the same session name commits them
      too. */
  lemma ForeignLeftoversCommit(show: Config -> seq<string>, dev: Device<Config>, sessionPrefix: string, a: Event,
                               b: Event)
    requires IsToken(sessionPrefix) && ValidEvent(a) && ValidEvent(b) && b.nets == ALL_DELIVERED
    requires KeyOf(a) != KeyOf(b)
    requires Batches(dev, SessionName(sessionPrefix, KeyOf(b))) == [[], CmdsOf(a)]
    ensures At(AfterEvent(SemanticsOf(show), dev, sessionPrefix, b).running, KeyOf(a)) == Target(a)
  {
    var sem, session := SemanticsOf(show), SessionName(sessionPrefix, KeyOf(b));
    SessionToken(sessionPrefix, KeyOf(b));
    EventConcerns(a);
    EventConcerns(b);
    ApplyRunning(sem, dev, session, CmdsOf(b), ALL_DELIVERED);
    ReplayTwo(sem, dev.running, CmdsOf(a), CmdsOf(b));
    EventConverges(dev.running, a);
    EventConverges(Run(dev.running, CmdsOf(a)), b);
  }

  lemma RunOfTwo(sem: Semantics<Config>, dev: Device<Config>, sessionPrefix: string, first: Event, second: Event)
    ensures AfterRun(sem, dev, sessionPrefix, [first, second])
         == AfterEvent(sem, AfterEvent(sem, dev, sessionPrefix, first), sessionPrefix, second)
  {
    assert [first, second][..1] == [first] && [first][..0] == [];
    assert AfterRun(sem, dev, sessionPrefix, [first]) == AfterEvent(sem, dev, sessionPrefix, first);
  }

  lemma NoLastCommit(first: Event, second: Event, key: Key)
    requires !Commits(first.nets) && KeyOf(second) != key
    ensures LastCommit([first, second], key) == None
  {
    assert [first, second][..1] == [first] && [first][..0] == [];
    assert LastCommit([first], key) == None;
  }

  /** Two lists, or two maps, that share a session name: a lost commit of one is
      carried out by the next apply of the other, against what both declare to be
      committed. */
  lemma SharedSessionIsUnsafe(show: Config -> seq<string>, dev: Device<Config>, sessionPrefix: string, a: Event,
                              b: Event)
    requires IsToken(sessionPrefix) && ValidEvent(a) && ValidEvent(b)
    requires a.nets == COMMIT_LOST && b.nets == ALL_DELIVERED
    requires KeyOf(a) != KeyOf(b) && SessionName(sessionPrefix, KeyOf(a)) == SessionName(sessionPrefix, KeyOf(b))
    requires Batches(dev, SessionName(sessionPrefix, KeyOf(a))) == []
    requires At(dev.running, KeyOf(a)) != Target(a)
    ensures !Safe(dev.running, [a, b], AfterRun(SemanticsOf(show), dev, sessionPrefix, [a, b]).running)
  {
    var sem := SemanticsOf(show);
    LostCommitLeavesAll(show, dev, sessionPrefix, a);
    var mid := AfterEvent(sem, dev, sessionPrefix, a);
    AppendEmpty([[], CmdsOf(a)]);
    ForeignLeftoversCommit(show, mid, sessionPrefix, a, b);
    RunOfTwo(sem, dev, sessionPrefix, a, b);
    NoLastCommit(a, b, KeyOf(a));
    assert At(AfterRun(sem, dev, sessionPrefix, [a, b]).running, KeyOf(a)) != Expected(dev.running, [a, b], KeyOf(a));
  }

  /** A small valid apply of any list or map. */
  lemma Sample(key: Key, nets: Nets) returns (ev: Event)
    requires IsToken(key.name)
    ensures KeyOf(ev) == key && ValidEvent(ev) && ev.nets == nets && Target(ev) != Absent
  {
    match key
    case ListKey(name) =>
      var prefix := Netip.SomePrefix();
      ev := ListEvent(PrefixList.Args(name, None, [PrefixList.Entry(10, "permit", prefix, None, None, None)]), false,
        nets);
    case MapKey(name) =>
      var e := RouteMap.Entry(10, "permit", None, None, None);
      assert RouteMapDevice.WordsOnly(e);
      ev := MapEvent(RouteMap.Args(name, [e]), false, nets);
  }

  lemma UnsafeRun(show: Config -> seq<string>, sessionPrefix: string, m: Key, n: Key)
    returns (dev: Device<Config>, evs: seq<Event>)
    requires IsToken(sessionPrefix) && IsToken(m.name) && IsToken(n.name) && m != n
    requires SessionName(sessionPrefix, m) == SessionName(sessionPrefix, n)
    ensures RunOver(evs, {m, n}) && OwnLeftovers(dev, sessionPrefix, {m, n})
    ensures !Safe(dev.running, evs, AfterRun(SemanticsOf(show), dev, sessionPrefix, evs).running)
  {
    var a := Sample(m, COMMIT_LOST);
    var b := Sample(n, ALL_DELIVERED);
    dev := Device(Config(map[], map[]), map[], None);
    evs := [a, b];
    TwoEvents(a, b, {m, n});
    assert OwnLeftovers(dev, sessionPrefix, {m, n});
    SharedSessionIsUnsafe(show, dev, sessionPrefix, a, b);
  }

  lemma TwoEvents(first: Event, second: Event, keys: set<Key>)
    requires ValidEvent(first) && ValidEvent(second)
    requires KeyOf(first) in keys && KeyOf(second) in keys
    ensures RunOver([first, second], keys)
  {
  }

  ghost predicate AllRunsSafe(show: Config -> seq<string>, sessionPrefix: string, keys: set<Key>) {
    forall dev: Device<Config>, evs: seq<Event> ::
      RunOver(evs, keys) && OwnLeftovers(dev, sessionPrefix, keys) ==>
        Safe(dev.running, evs, AfterRun(SemanticsOf(show), dev, sessionPrefix, evs).running)
  }

  /** Every run over two of them is safe exactly when their session names differ:
      `a.b` and `a-b`, for one pair of lists or of maps, are not safe together. */
  lemma SafeExactlyWhenSessionsApart(show: Config -> seq<string>, sessionPrefix: string, m: Key, n: Key)
    requires IsToken(sessionPrefix) && IsToken(m.name) && IsToken(n.name) && m != n
    ensures AllRunsSafe(show, sessionPrefix, {m, n}) <==> SessionName(sessionPrefix, m) != SessionName(sessionPrefix, n)
  {
    if SessionName(sessionPrefix, m) != SessionName(sessionPrefix, n) {
      forall dev: Device<Config>, evs: seq<Event> | RunOver(evs, {m, n}) && OwnLeftovers(dev, sessionPrefix, {m, n})
        ensures Safe(dev.running, evs, AfterRun(SemanticsOf(show), dev, sessionPrefix, evs).running)
      {
        RunsAreSafe(show, dev, sessionPrefix, evs, {m, n});
      }
    } else {
      var dev, evs := UnsafeRun(show, sessionPrefix, m, n);
    }
  }

  // ---- when session names agree ----------------------------------------------------------------------

  predicate SameSlug(m: string, n: string) {
    |m| == |n| && forall i :: 0 <= i < |m| ==>
      m[i] == n[i] || ((NeedsHyphen(m[i]) || m[i] == '-') && (NeedsHyphen(n[i]) || n[i] == '-'))
  }

  lemma SlugsAgree(m: string, n: string)
    ensures SessionSlug(m) == SessionSlug(n) <==> SameSlug(m, n)
  {
    if |m| == |n| && SessionSlug(m) == SessionSlug(n) {
      forall i | 0 <= i < |m|
        ensures m[i] == n[i] || ((NeedsHyphen(m[i]) || m[i] == '-') && (NeedsHyphen(n[i]) || n[i] == '-'))
      {
        assert SessionSlug(m)[i] == SessionSlug(n)[i];
      }
    }
  }

  lemma PrefixedAgree(head: string, a: string, b: string)
    ensures head + a == head + b <==> a == b
  {
    assert (head + a)[|head|..] == a && (head + b)[|head|..] == b;
  }

  lemma KindsApart(sessionPrefix: string, m: Key, n: Key)
    requires m.ListKey? != n.ListKey?
    ensures SessionName(sessionPrefix, m) != SessionName(sessionPrefix, n)
  {
    var k := |sessionPrefix|;
    assert SessionName(sessionPrefix, m)[k] == if m.ListKey? then 'p' else 'r';
    assert SessionName(sessionPrefix, n)[k] == if n.ListKey? then 'p' else 'r';
  }

  /** Two applies share a session exactly when they are of one kind and their names
      differ only in the characters that are replaced. */
  lemma SameSessionExactly(sessionPrefix: string, m: Key, n: Key)
    ensures SessionName(sessionPrefix, m) == SessionName(sessionPrefix, n)
            <==> m.ListKey? == n.ListKey? && SameSlug(m.name, n.name)
  {
    if m.ListKey? == n.ListKey? {
      SlugsAgree(m.name, n.name);
      PrefixedAgree(sessionPrefix + (if m.ListKey? then "pfxlist-" else "rmap-"), SessionSlug(m.name),
        SessionSlug(n.name));
    } else {
      KindsApart(sessionPrefix, m, n);
    }
  }
}
