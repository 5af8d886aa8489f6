/** Applies that run side by side: every apply has a client of its own, so the calls of
    several applies reach the one device in any order. */
module Interleavings {
  import opened Text
  import opened Seqs
  import opened Eapi
  import opened Eos
  import opened Runs

  // ---- the steps ------------------------------------------------------------------------

  /** The call an apply makes next. */
  datatype Phase = ToOpen | ToStage | ToCommit | ToAbort

  datatype Flight = Flight(ev: Event, phase: Phase)

  /** The device, the applies in flight, one at most for each list or map, and the applies
      whose commit reached the device, in that order. */
  datatype World = World(dev: Device<Config>, flights: map<Key, Flight>, log: seq<Event>)

  /** An apply begins, makes its next call, or is given up by a provider that is killed. */
  datatype Step = Begin(ev: Event) | Call(key: Key, net: Net) | Abandon(key: Key)

  ghost predicate Enabled(w: World, step: Step) {
    match step
    case Begin(ev) => ValidEvent(ev) && KeyOf(ev) !in w.flights
    case Call(key, _) => key in w.flights
    case Abandon(key) => key in w.flights
  }

  function RequestOf(session: string, f: Flight): seq<string> {
    match f.phase
    case ToOpen => OpenRequest(session)
    case ToStage => StageRequest(session, CmdsOf(f.ev))
    case ToCommit => CommitRequest(session)
    case ToAbort => AbortRequest(session)
  }

  /** What follows a call: nothing after a failed open, a commit or an abort. */
  function PhaseAfter(phase: Phase, net: Net): Option<Phase> {
    match phase
    case ToOpen => if net.Broken? then None else Some(ToStage)
    case ToStage => if net.Broken? then Some(ToAbort) else Some(ToCommit)
    case _ => None
  }

  function Land(flights: map<Key, Flight>, key: Key, ev: Event, phase: Option<Phase>): map<Key, Flight> {
    match phase
    case None => flights - {key}
    case Some(p) => flights[key := Flight(ev, p)]
  }

  /** The commit call reaches the device. */
  predicate Lands(f: Flight, net: Net) {
    f.phase.ToCommit? && Executed(net, 1) == 1
  }

  /** The event as one whose calls all got through. */
  function Done(ev: Event): Event {
    ev.(nets := ALL_DELIVERED)
  }

  ghost function Next(sem: Semantics<Config>, sessionPrefix: string, w: World, step: Step): World
    requires Enabled(w, step)
  {
    match step
    case Begin(ev) => w.(flights := w.flights[KeyOf(ev) := Flight(ev, ToOpen)])
    case Abandon(key) => w.(flights := w.flights - {key})
    case Call(key, net) =>
      var f := w.flights[key];
      World(
        Deliver(sem, w.dev, RequestOf(SessionName(sessionPrefix, key), f), net),
        Land(w.flights, key, f.ev, PhaseAfter(f.phase, net)),
        w.log + if Lands(f, net) then [Done(f.ev)] else [])
  }

  // ---- the invariant ----------------------------------------------------------------------

  /** An apply about to commit finds its whole command list last in its session. */
  predicate Ready(session: string, dev: Device<Config>, f: Flight) {
    f.phase.ToCommit? ==>
      var batches := Batches(dev, session);
      batches != [] && batches[|batches| - 1] == CmdsOf(f.ev)
  }

  ghost predicate FlightsReady(sessionPrefix: string, keys: set<Key>, w: World) {
    forall key :: key in w.flights ==>
      var f := w.flights[key];
      key in keys && ValidEvent(f.ev) && KeyOf(f.ev) == key && Ready(SessionName(sessionPrefix, key), w.dev, f)
  }

  ghost predicate Inv(before: Config, sessionPrefix: string, keys: set<Key>, w: World) {
    && OwnLeftovers(w.dev, sessionPrefix, keys)
    && FlightsReady(sessionPrefix, keys, w)
    && Safe(before, w.log, w.dev.running)
  }

  // ---- what one call does --------------------------------------------------------------------

  /** Other sessions keep what they hold. */
  ghost predicate OnlySession(a: Device<Config>, b: Device<Config>, session: string) {
    forall other :: other != session ==> Batches(a, other) == Batches(b, other)
  }

  /** Committing a session whose last batch is the command list, on top of leftovers of the
      same list or map. */
  lemma CommitOutcome(show: Config -> seq<string>, cfg: Config, batches: seq<seq<string>>, ev: Event)
    requires ValidEvent(ev) && AllConcern(batches, KeyOf(ev))
    requires batches != [] && batches[|batches| - 1] == CmdsOf(ev)
    ensures var after := Replay(SemanticsOf(show), cfg, batches);
            SameBut(after, cfg, KeyOf(ev)) && At(after, KeyOf(ev)) == Target(ev)
  {
    var sem, front := SemanticsOf(show), batches[..|batches| - 1];
    EventConcerns(ev);
    Snoc(batches);
    ReplayAppend(sem, cfg, front, CmdsOf(ev));
    ConcernsReplay(show, cfg, front, KeyOf(ev));
    EventConverges(Replay(sem, cfg, front), ev);
  }

  lemma MoreConcerns(batches: seq<seq<string>>, batch: seq<string>, key: Key)
    requires AllConcern(batches, key) && Concerns(batch, key)
    ensures AllConcern(batches + [batch], key)
  {
  }

  /** One call: its own session holds lines of its own list or map as before, other sessions
      are left alone, and running-config changes only by a commit, to what is declared. */
  ghost predicate CallLeaves(sem: Semantics<Config>, session: string, dev: Device<Config>, f: Flight, net: Net) {
    var key := KeyOf(f.ev);
    var after := Deliver(sem, dev, RequestOf(session, f), net);
    && OnlySession(after, dev, session)
    && AllConcern(Batches(after, session), key)
    && (if Lands(f, net) then SameBut(after.running, dev.running, key) && At(after.running, key) == Target(f.ev)
        else after.running == dev.running)
    && (var phase := PhaseAfter(f.phase, net);
        phase.Some? ==> Ready(session, after, Flight(f.ev, phase.value)))
  }

  lemma OpenCall(show: Config -> seq<string>, session: string, dev: Device<Config>, f: Flight, net: Net)
    requires IsToken(session) && f.phase.ToOpen?
    requires AllConcern(Batches(dev, session), KeyOf(f.ev))
    ensures CallLeaves(SemanticsOf(show), session, dev, f, net)
  {
    OpenEffect(SemanticsOf(show), dev, session, net);
    MoreConcerns(Batches(dev, session), [], KeyOf(f.ev));
  }

  lemma StageLeaves(dev: Device<Config>, session: string, cmds: seq<string>, part: seq<string>, key: Key)
    requires AllConcern(Batches(dev, session), key) && Concerns(cmds, key) && part <= cmds
    ensures var after := WithBatch(dev, session, part);
            && OnlySession(after, dev, session) && AllConcern(Batches(after, session), key)
            && Batches(after, session) != [] && Batches(after, session)[|Batches(after, session)| - 1] == part
  {
    BeginningConcerns(cmds, part, key);
    MoreConcerns(Batches(dev, session), part, key);
    SnocParts(Batches(dev, session), part);
  }

  lemma StageCallLeaves(sem: Semantics<Config>, session: string, dev: Device<Config>, f: Flight, cmds: seq<string>,
                        net: Net)
    requires IsToken(session) && f.phase.ToStage? && cmds == CmdsOf(f.ev)
    requires PlainBody(sem.cli, cmds) && Concerns(cmds, KeyOf(f.ev)) && AllConcern(Batches(dev, session), KeyOf(f.ev))
    ensures CallLeaves(sem, session, dev, f, net)
  {
    StageEffect(sem, dev, session, cmds, net);
    var k := Executed(net, |cmds| + 2);
    if k > 0 {
      TakeAll(cmds);
      StageLeaves(dev, session, cmds, cmds[..Min(k - 1, |cmds|)], KeyOf(f.ev));
    }
  }

  lemma StageCall(show: Config -> seq<string>, session: string, dev: Device<Config>, f: Flight, net: Net)
    requires IsToken(session) && ValidEvent(f.ev) && f.phase.ToStage?
    requires AllConcern(Batches(dev, session), KeyOf(f.ev))
    ensures CallLeaves(SemanticsOf(show), session, dev, f, net)
  {
    EventConcerns(f.ev);
    StageCallLeaves(SemanticsOf(show), session, dev, f, CmdsOf(f.ev), net);
  }

  lemma AbortCall(show: Config -> seq<string>, session: string, dev: Device<Config>, f: Flight, net: Net)
    requires IsToken(session) && f.phase.ToAbort?
    requires AllConcern(Batches(dev, session), KeyOf(f.ev))
    ensures CallLeaves(SemanticsOf(show), session, dev, f, net)
  {
    AbortEffect(SemanticsOf(show), dev, session, net);
  }

  lemma CommitLeaves(sem: Semantics<Config>, session: string, dev: Device<Config>, f: Flight, net: Net)
    requires IsToken(session) && f.phase.ToCommit? && AllConcern(Batches(dev, session), KeyOf(f.ev))
    requires SameBut(Candidate(sem, dev, session), dev.running, KeyOf(f.ev))
    requires At(Candidate(sem, dev, session), KeyOf(f.ev)) == Target(f.ev)
    ensures CallLeaves(sem, session, dev, f, net)
  {
    CommitEffect(sem, dev, session, net);
  }

  lemma CommitCall(show: Config -> seq<string>, session: string, dev: Device<Config>, f: Flight, net: Net)
    requires IsToken(session) && ValidEvent(f.ev) && f.phase.ToCommit?
    requires AllConcern(Batches(dev, session), KeyOf(f.ev)) && Ready(session, dev, f)
    ensures CallLeaves(SemanticsOf(show), session, dev, f, net)
  {
    CommitOutcome(show, dev.running, Batches(dev, session), f.ev);
    CommitLeaves(SemanticsOf(show), session, dev, f, net);
  }

  lemma CallEffect(show: Config -> seq<string>, session: string, dev: Device<Config>, f: Flight, net: Net)
    requires IsToken(session) && ValidEvent(f.ev) && Ready(session, dev, f)
    requires AllConcern(Batches(dev, session), KeyOf(f.ev))
    ensures CallLeaves(SemanticsOf(show), session, dev, f, net)
  {
    match f.phase
    case ToOpen => OpenCall(show, session, dev, f, net);
    case ToStage => StageCall(show, session, dev, f, net);
    case ToCommit => CommitCall(show, session, dev, f, net);
    case ToAbort => AbortCall(show, session, dev, f, net);
  }

  // ---- every step keeps it ----------------------------------------------------------------------

  lemma OthersReady(sessionPrefix: string, keys: set<Key>, w: World, dev: Device<Config>, key: Key, other: Key)
    requires SessionsApart(sessionPrefix, keys) && key in keys && other in keys && other != key
    requires OnlySession(dev, w.dev, SessionName(sessionPrefix, key))
    requires other in w.flights && Ready(SessionName(sessionPrefix, other), w.dev, w.flights[other])
    ensures Ready(SessionName(sessionPrefix, other), dev, w.flights[other])
  {
    assert SessionName(sessionPrefix, other) != SessionName(sessionPrefix, key);
  }

  lemma OthersConcern(sessionPrefix: string, keys: set<Key>, before: Device<Config>, after: Device<Config>, key: Key)
    requires SessionsApart(sessionPrefix, keys) && key in keys && OwnLeftovers(before, sessionPrefix, keys)
    requires OnlySession(after, before, SessionName(sessionPrefix, key))
    requires AllConcern(Batches(after, SessionName(sessionPrefix, key)), key)
    ensures OwnLeftovers(after, sessionPrefix, keys)
  {
    forall other | other in keys ensures AllConcern(Batches(after, SessionName(sessionPrefix, other)), other) {
      if other != key {
        assert SessionName(sessionPrefix, other) != SessionName(sessionPrefix, key);
      }
    }
  }

  lemma StillReady(sessionPrefix: string, keys: set<Key>, w: World, dev: Device<Config>, key: Key, phase: Option<Phase>,
                   log: seq<Event>)
    requires SessionsApart(sessionPrefix, keys) && FlightsReady(sessionPrefix, keys, w) && key in w.flights
    requires OnlySession(dev, w.dev, SessionName(sessionPrefix, key))
    requires phase.Some? ==> Ready(SessionName(sessionPrefix, key), dev, Flight(w.flights[key].ev, phase.value))
    ensures FlightsReady(sessionPrefix, keys, World(dev, Land(w.flights, key, w.flights[key].ev, phase), log))
  {
    var flights := Land(w.flights, key, w.flights[key].ev, phase);
    forall other | other in flights
      ensures var g := flights[other];
              && other in keys && ValidEvent(g.ev) && KeyOf(g.ev) == other
              && Ready(SessionName(sessionPrefix, other), dev, g)
    {
      if other != key {
        OthersReady(sessionPrefix, keys, w, dev, key, other);
      }
    }
  }

  lemma LogKeepsSafe(before: Config, log: seq<Event>, mid: Config, after: Config, f: Flight, net: Net)
    requires Safe(before, log, mid)
    requires if Lands(f, net) then SameBut(after, mid, KeyOf(f.ev)) && At(after, KeyOf(f.ev)) == Target(f.ev)
             else after == mid
    ensures Safe(before, log + if Lands(f, net) then [Done(f.ev)] else [], after)
  {
    if Lands(f, net) {
      SafeExtends(before, log, mid, after, Done(f.ev));
    } else {
      AppendEmpty(log);
    }
  }

  lemma CallKeepsInv(show: Config -> seq<string>, before: Config, sessionPrefix: string, keys: set<Key>, w: World,
                     key: Key, net: Net)
    requires IsToken(sessionPrefix) && SessionsApart(sessionPrefix, keys) && Inv(before, sessionPrefix, keys, w)
    requires key in w.flights
    ensures Inv(before, sessionPrefix, keys, Next(SemanticsOf(show), sessionPrefix, w, Call(key, net)))
  {
    var f := w.flights[key];
    var next := Next(SemanticsOf(show), sessionPrefix, w, Call(key, net));
    SessionToken(sessionPrefix, key);
    CallEffect(show, SessionName(sessionPrefix, key), w.dev, f, net);
    OthersConcern(sessionPrefix, keys, w.dev, next.dev, key);
    StillReady(sessionPrefix, keys, w, next.dev, key, PhaseAfter(f.phase, net), next.log);
    LogKeepsSafe(before, w.log, w.dev.running, next.dev.running, f, net);
  }

  lemma StepKeepsInv(show: Config -> seq<string>, before: Config, sessionPrefix: string, keys: set<Key>, w: World,
                     step: Step)
    requires IsToken(sessionPrefix) && SessionsApart(sessionPrefix, keys) && Inv(before, sessionPrefix, keys, w)
    requires Enabled(w, step) && (step.Begin? ==> KeyOf(step.ev) in keys)
    ensures Inv(before, sessionPrefix, keys, Next(SemanticsOf(show), sessionPrefix, w, step))
  {
    if step.Call? {
      CallKeepsInv(show, before, sessionPrefix, keys, w, step.key, step.net);
    }
  }

  // ---- every interleaving ------------------------------------------------------------------------

  /** Steps that are possible one after another, by applies of these lists and maps. */
  ghost predicate Possible(sem: Semantics<Config>, sessionPrefix: string, keys: set<Key>, w: World, steps: seq<Step>)
    decreases |steps|
  {
    steps != [] ==>
      && Enabled(w, steps[0]) && (steps[0].Begin? ==> KeyOf(steps[0].ev) in keys)
      && Possible(sem, sessionPrefix, keys, Next(sem, sessionPrefix, w, steps[0]), steps[1..])
  }

  ghost function After(sem: Semantics<Config>, sessionPrefix: string, keys: set<Key>, w: World, steps: seq<Step>): World
    requires Possible(sem, sessionPrefix, keys, w, steps)
    decreases |steps|
  {
    if steps == [] then w
    else After(sem, sessionPrefix, keys, Next(sem, sessionPrefix, w, steps[0]), steps[1..])
  }

  lemma {:induction false} InvAfter(show: Config -> seq<string>, before: Config, sessionPrefix: string, keys: set<Key>,
                                    w: World, steps: seq<Step>)
    requires IsToken(sessionPrefix) && SessionsApart(sessionPrefix, keys) && Inv(before, sessionPrefix, keys, w)
    requires Possible(SemanticsOf(show), sessionPrefix, keys, w, steps)
    ensures Inv(before, sessionPrefix, keys, After(SemanticsOf(show), sessionPrefix, keys, w, steps))
    decreases |steps|
  {
    if steps != [] {
      StepKeepsInv(show, before, sessionPrefix, keys, w, steps[0]);
      InvAfter(show, before, sessionPrefix, keys, Next(SemanticsOf(show), sessionPrefix, w, steps[0]), steps[1..]);
    }
  }

  function Idle(dev: Device<Config>): World {
    World(dev, map[], [])
  }

  /** Safety over every interleaving: whatever the order in which the calls of side-by-side
      applies reach the device, whichever of them break and whichever applies are given up
      on the way, every list and every map is what the last of its commits to reach the
      device declared, and everything else is as before. */
  lemma InterleavingsAreSafe(show: Config -> seq<string>, dev: Device<Config>, sessionPrefix: string, keys: set<Key>,
                             steps: seq<Step>)
    requires IsToken(sessionPrefix) && SessionsApart(sessionPrefix, keys) && OwnLeftovers(dev, sessionPrefix, keys)
    requires Possible(SemanticsOf(show), sessionPrefix, keys, Idle(dev), steps)
    ensures var w := After(SemanticsOf(show), sessionPrefix, keys, Idle(dev), steps);
            Safe(dev.running, w.log, w.dev.running)
  {
    assert Safe(dev.running, [], dev.running);
    InvAfter(show, dev.running, sessionPrefix, keys, Idle(dev), steps);
  }

  // ---- and only for sessions apart ------------------------------------------------------------------

  lemma FirstStep(sem: Semantics<Config>, sessionPrefix: string, keys: set<Key>, w: World, step: Step, rest: seq<Step>)
    requires Enabled(w, step) && (step.Begin? ==> KeyOf(step.ev) in keys)
    requires Possible(sem, sessionPrefix, keys, Next(sem, sessionPrefix, w, step), rest)
    ensures Possible(sem, sessionPrefix, keys, w, [step] + rest)
    ensures After(sem, sessionPrefix, keys, w, [step] + rest)
         == After(sem, sessionPrefix, keys, Next(sem, sessionPrefix, w, step), rest)
  {
    ConsParts(step, rest);
  }

  /** An apply that begins on an idle device and stages everything. */
  function Half(ev: Event): seq<Step> {
    [Begin(ev)] + ([Call(KeyOf(ev), Delivered)] + [Call(KeyOf(ev), Delivered)])
  }

  function StagedWorld(session: string, dev: Device<Config>, ev: Event, log: seq<Event>): World {
    World(WithBatch(WithBatch(dev, session, []), session, CmdsOf(ev)), map[KeyOf(ev) := Flight(ev, ToCommit)], log)
  }

  lemma OpenStep(sem: Semantics<Config>, sessionPrefix: string, session: string, dev: Device<Config>, key: Key,
                 ev: Event)
    requires session == SessionName(sessionPrefix, key) && IsToken(session)
    ensures Next(sem, sessionPrefix, World(dev, map[key := Flight(ev, ToOpen)], []), Call(key, Delivered))
         == World(WithBatch(dev, session, []), map[key := Flight(ev, ToStage)], [])
  {
    OpenEffect(sem, dev, session, Delivered);
    assert map[key := Flight(ev, ToOpen)][key := Flight(ev, ToStage)] == map[key := Flight(ev, ToStage)];
  }

  lemma StagedWhole<C>(sem: Semantics<C>, dev: Device<C>, session: string, cmds: seq<string>)
    requires IsToken(session) && PlainBody(sem.cli, cmds)
    ensures Deliver(sem, dev, StageRequest(session, cmds), Delivered) == WithBatch(dev, session, cmds)
  {
    StageEffect(sem, dev, session, cmds, Delivered);
    TakeAll(cmds);
  }

  lemma StageStep(sem: Semantics<Config>, sessionPrefix: string, session: string, dev: Device<Config>, key: Key,
                  ev: Event)
    requires session == SessionName(sessionPrefix, key) && IsToken(session) && PlainBody(sem.cli, CmdsOf(ev))
    ensures Next(sem, sessionPrefix, World(dev, map[key := Flight(ev, ToStage)], []), Call(key, Delivered))
         == World(WithBatch(dev, session, CmdsOf(ev)), map[key := Flight(ev, ToCommit)], [])
  {
    StagedWhole(sem, dev, session, CmdsOf(ev));
    assert map[key := Flight(ev, ToStage)][key := Flight(ev, ToCommit)] == map[key := Flight(ev, ToCommit)];
  }

  lemma CommitStep(sem: Semantics<Config>, sessionPrefix: string, session: string, dev: Device<Config>, key: Key,
                   ev: Event)
    requires session == SessionName(sessionPrefix, key) && IsToken(session)
    ensures var done := Next(sem, sessionPrefix, World(dev, map[key := Flight(ev, ToCommit)], []),
            Call(key, Delivered));
            done.log == [Done(ev)] && done.dev == Committed(sem, dev, session)
  {
    CommitEffect(sem, dev, session, Delivered);
  }

  lemma HalfDone(show: Config -> seq<string>, sessionPrefix: string, session: string, keys: set<Key>,
                 dev: Device<Config>, ev: Event, last: Step)
    requires session == SessionName(sessionPrefix, KeyOf(ev)) && IsToken(session) && ValidEvent(ev) && KeyOf(ev) in keys
    requires last == Abandon(KeyOf(ev)) || last == Call(KeyOf(ev), Delivered)
    ensures var sem, steps := SemanticsOf(show), Half(ev) + [last];
            && Possible(sem, sessionPrefix, keys, Idle(dev), steps)
            && After(sem, sessionPrefix, keys, Idle(dev), steps)
               == Next(sem, sessionPrefix, StagedWorld(session, dev, ev, []), last)
  {
    var sem, key := SemanticsOf(show), KeyOf(ev);
    var call := Call(key, Delivered);
    var w1 := World(dev, map[key := Flight(ev, ToOpen)], []);
    var w2 := World(WithBatch(dev, session, []), map[key := Flight(ev, ToStage)], []);
    var w3 := StagedWorld(session, dev, ev, []);
    assert Next(sem, sessionPrefix, Idle(dev), Begin(ev)) == w1;
    EventConcerns(ev);
    OpenStep(sem, sessionPrefix, session, dev, key, ev);
    StageStep(sem, sessionPrefix, session, WithBatch(dev, session, []), key, ev);
    FourPossible(sem, sessionPrefix, keys, Idle(dev), w1, w2, w3, Begin(ev), call, last);
    FourSteps(Begin(ev), call, last);
  }

  lemma FourPossible(sem: Semantics<Config>, sessionPrefix: string, keys: set<Key>,
                     w0: World, w1: World, w2: World, w3: World, begin: Step, call: Step, last: Step)
    requires Enabled(w0, begin) && (begin.Begin? ==> KeyOf(begin.ev) in keys)
            && Next(sem, sessionPrefix, w0, begin) == w1
    requires call.Call? && Enabled(w1, call) && Next(sem, sessionPrefix, w1, call) == w2
    requires Enabled(w2, call) && Next(sem, sessionPrefix, w2, call) == w3
    requires !last.Begin? && Enabled(w3, last)
    ensures var steps := [begin] + ([call] + ([call] + [last]));
            && Possible(sem, sessionPrefix, keys, w0, steps)
            && After(sem, sessionPrefix, keys, w0, steps) == Next(sem, sessionPrefix, w3, last)
  {
    assert Possible(sem, sessionPrefix, keys, Next(sem, sessionPrefix, w3, last), []);
    FirstStep(sem, sessionPrefix, keys, w3, last, []);
    AppendEmpty([last]);
    FirstStep(sem, sessionPrefix, keys, w2, call, [last]);
    FirstStep(sem, sessionPrefix, keys, w1, call, [call] + [last]);
    FirstStep(sem, sessionPrefix, keys, w0, begin, [call] + ([call] + [last]));
  }

  lemma FourSteps<T>(a: T, b: T, c: T)
    ensures [a] + ([b] + [b]) + [c] == [a] + ([b] + ([b] + [c]))
  {
  }

  lemma {:induction false} StepsAppend(sem: Semantics<Config>, sessionPrefix: string, keys: set<Key>, w: World,
                                       a: seq<Step>, b: seq<Step>)
    requires Possible(sem, sessionPrefix, keys, w, a)
    requires Possible(sem, sessionPrefix, keys, After(sem, sessionPrefix, keys, w, a), b)
    ensures Possible(sem, sessionPrefix, keys, w, a + b)
    ensures After(sem, sessionPrefix, keys, w, a + b)
         == After(sem, sessionPrefix, keys, After(sem, sessionPrefix, keys, w, a), b)
    decreases |a|
  {
    if a == [] {
      AppendEmpty(b);
    } else {
      var next := Next(sem, sessionPrefix, w, a[0]);
      StepsAppend(sem, sessionPrefix, keys, next, a[1..], b);
      FirstStep(sem, sessionPrefix, keys, w, a[0], a[1..] + b);
      Cons(a);
      Associate([a[0]], a[1..], b);
    }
  }

  /** One apply is given up after staging; the next one of a list or map with the same session
      name commits what it left. */
  lemma AbandonedIsCommitted(show: Config -> seq<string>, sessionPrefix: string, session: string, dev: Device<Config>,
                             a: Event, b: Event)
    requires session == SessionName(sessionPrefix, KeyOf(b)) && IsToken(session)
    requires ValidEvent(a) && ValidEvent(b) && KeyOf(a) != KeyOf(b) && Batches(dev, session) == []
    ensures var left := WithBatch(WithBatch(dev, session, []), session, CmdsOf(a));
            var done := Next(SemanticsOf(show), sessionPrefix, StagedWorld(session, left, b, []),
              Call(KeyOf(b), Delivered));
            done.log == [Done(b)] && At(done.dev.running, KeyOf(a)) == Target(a)
  {
    var left := WithBatch(WithBatch(dev, session, []), session, CmdsOf(a));
    CommitStep(SemanticsOf(show), sessionPrefix, session, StagedWorld(session, left, b, []).dev, KeyOf(b), b);
    BothPending(dev, session, CmdsOf(a), CmdsOf(b));
    BothReplayed(show, dev.running, a, b);
  }

  lemma BothPending(dev: Device<Config>, session: string, a: seq<string>, b: seq<string>)
    requires Batches(dev, session) == []
    ensures var left := WithBatch(WithBatch(dev, session, []), session, a);
            var staged := WithBatch(WithBatch(left, session, []), session, b);
            staged.running == dev.running && Batches(staged, session) == [[], a] + [[], b]
  {
    FourBatches(a, b);
  }

  lemma BothReplayed(show: Config -> seq<string>, cfg: Config, a: Event, b: Event)
    requires ValidEvent(a) && ValidEvent(b) && KeyOf(a) != KeyOf(b)
    ensures At(Replay(SemanticsOf(show), cfg, [[], CmdsOf(a)] + [[], CmdsOf(b)]), KeyOf(a)) == Target(a)
  {
    EventConcerns(a);
    EventConcerns(b);
    ReplayTwo(SemanticsOf(show), cfg, CmdsOf(a), CmdsOf(b));
    EventConverges(cfg, a);
    EventConverges(Run(cfg, CmdsOf(a)), b);
  }

  lemma FourBatches<T>(a: seq<T>, b: seq<T>)
    ensures [[]] + [a] + [[]] + [b] == [[], a] + [[], b]
  {
  }

  lemma UnsafeSteps(show: Config -> seq<string>, sessionPrefix: string, m: Key, n: Key)
    returns (dev: Device<Config>, steps: seq<Step>)
    requires IsToken(sessionPrefix) && IsToken(m.name) && IsToken(n.name) && m != n
    requires SessionName(sessionPrefix, m) == SessionName(sessionPrefix, n)
    ensures OwnLeftovers(dev, sessionPrefix, {m, n})
    ensures Possible(SemanticsOf(show), sessionPrefix, {m, n}, Idle(dev), steps)
    ensures var w := After(SemanticsOf(show), sessionPrefix, {m, n}, Idle(dev), steps);
            !Safe(dev.running, w.log, w.dev.running)
  {
    var sem := SemanticsOf(show);
    var a := Sample(m, ALL_DELIVERED);
    var b := Sample(n, ALL_DELIVERED);
    dev := Device(Config(map[], map[]), map[], None);
    var session := SessionName(sessionPrefix, m);
    SessionToken(sessionPrefix, m);
    var left := WithBatch(WithBatch(dev, session, []), session, CmdsOf(a));
    var first, second := Half(a) + [Abandon(m)], Half(b) + [Call(n, Delivered)];
    HalfDone(show, sessionPrefix, session, {m, n}, dev, a, Abandon(m));
    assert map[m := Flight(a, ToCommit)] - {m} == map[];
    assert After(sem, sessionPrefix, {m, n}, Idle(dev), first) == Idle(left);
    HalfDone(show, sessionPrefix, session, {m, n}, left, b, Call(n, Delivered));
    StepsAppend(sem, sessionPrefix, {m, n}, Idle(dev), first, second);
    AbandonedIsCommitted(show, sessionPrefix, session, dev, a, b);
    steps := first + second;
    NotExpected(dev.running, a, b);
  }

  lemma NotExpected(before: Config, a: Event, b: Event)
    requires KeyOf(a) != KeyOf(b)
    ensures Expected(before, [Done(b)], KeyOf(a)) == At(before, KeyOf(a))
  {
    assert [Done(b)][..0] == [];
    assert LastCommit([], KeyOf(a)) == None;
  }

  ghost predicate AllInterleavingsSafe(show: Config -> seq<string>, sessionPrefix: string, keys: set<Key>) {
    forall dev: Device<Config>, steps: seq<Step> ::
      OwnLeftovers(dev, sessionPrefix, keys) && Possible(SemanticsOf(show), sessionPrefix, keys, Idle(dev), steps) ==>
        var w := After(SemanticsOf(show), sessionPrefix, keys, Idle(dev), steps);
        Safe(dev.running, w.log, w.dev.running)
  }

  /** Side-by-side applies of two lists or maps are safe in every interleaving exactly when
      their session names differ. */
  lemma SafeTogetherExactly(show: Config -> seq<string>, sessionPrefix: string, m: Key, n: Key)
    requires IsToken(sessionPrefix) && IsToken(m.name) && IsToken(n.name) && m != n
    ensures AllInterleavingsSafe(show, sessionPrefix, {m, n})
            <==> SessionName(sessionPrefix, m) != SessionName(sessionPrefix, n)
  {
    if SessionName(sessionPrefix, m) != SessionName(sessionPrefix, n) {
      forall dev: Device<Config>, steps: seq<Step>
        | OwnLeftovers(dev, sessionPrefix, {m, n})
          && Possible(SemanticsOf(show), sessionPrefix, {m, n}, Idle(dev), steps)
        ensures var w := After(SemanticsOf(show), sessionPrefix, {m, n}, Idle(dev), steps);
                Safe(dev.running, w.log, w.dev.running)
      {
        InterleavingsAreSafe(show, dev, sessionPrefix, {m, n}, steps);
      }
    } else {
      var dev, steps := UnsafeSteps(show, sessionPrefix, m, n);
    }
  }
}
