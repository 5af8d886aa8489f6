/** The eAPI client: named configuration sessions over a device that may fail at
    any call.

    The device is abstract in what its configuration is (`C`) and in what
    configuration lines do to it (`Semantics`), and concrete in how it handles
    named sessions: `configure session NAME` creates the session or resumes the
    pending one, staged lines wait there, and a commit replays them on
    running-config. */
module Eapi {
  import opened Seqs
  import opened Text
  import ConfigDiff

  /** Where the CLI stands: in exec mode, in a named session with the lines typed
      since it was entered, or in configuration mode proper, where what is typed is
      in force at once. */
  datatype Place = Exec | InSession(name: string, typed: seq<string>) | InConfig(typed: seq<string>)

  /** What a line is taken for: a word to the session machinery, a configuration
      line (`Type`), a line that changes no configuration (`Nothing`), or any other
      command (`Do`). */
  datatype Verb =
    | Enter(name: string)
    | Commit(name: string)
    | CommitTimer(name: string, seconds: nat)
    | Drop(name: string)
    | ShowDiffs(name: string)
    | Configure
    | EndHere | ExitHere | CommitHere | AbortHere
    | Type
    | Nothing
    | Do

  /** What the session commands leave open in a CLI: whether lines, typed one after
      another, end inside a sub-mode, and what a line is taken for that does not
      spell one of those commands out: an abbreviation, an alias, a configuration
      line, an exec command typed in a session. */
  datatype Cli = Cli(inside: seq<string> -> bool, otherInExec: string -> Verb, otherInConfig: string -> Verb)

  /** `run` is the effect of a batch of lines entered from global configuration
      mode; `show` is the listing that diffs are taken of; `direct` is what a line
      does at once that is neither typed into a session nor a session command. */
  datatype Semantics<!C> = Semantics(
    cli: Cli,
    run: (C, seq<string>) -> C,
    show: C -> seq<string>,
    direct: (C, Place, string) -> C)

  datatype Saved<C> = Saved(name: string, seconds: nat, running: C)

  /** `pending` holds what was entered in each open session, one batch for each
      time the session was entered; `rollback` is a commit that still waits for
      its confirmation, for so many seconds. */
  datatype Device<C> = Device(
    running: C,
    pending: map<string, seq<seq<string>>>,
    rollback: Option<Saved<C>>)

  /** What the network does to one eAPI call: answer it, answer without text, or
      report an error after the device has executed some of the lines. */
  datatype Net = Delivered | Mute | Broken(executed: nat)

  datatype Error =
    | SessionNameRequired
    | SessionClosed
    | ContextDone
    | Rpc
    | Joined(first: Error, second: Error)

  // ---- the device ---------------------------------------------------------------

  function Replay<C>(sem: Semantics<C>, c: C, batches: seq<seq<string>>): C {
    if batches == [] then c
    else
      var n := |batches| - 1;
      var before := Replay(sem, c, batches[..n]);
      if batches[n] == [] then before else sem.run(before, batches[n])
  }

  function Batches<C>(dev: Device<C>, name: string): seq<seq<string>> {
    if name in dev.pending then dev.pending[name] else []
  }

  /** The configuration that committing the session now would give. */
  function Candidate<C>(sem: Semantics<C>, dev: Device<C>, name: string): C {
    Replay(sem, dev.running, Batches(dev, name))
  }

  function Entered<C>(dev: Device<C>, name: string): Device<C> {
    dev.(pending := dev.pending[name := Batches(dev, name) + [[]]])
  }

  function Dropped<C>(dev: Device<C>, name: string): Device<C> {
    dev.(pending := dev.pending - {name})
  }

  function Committed<C>(sem: Semantics<C>, dev: Device<C>, name: string): Device<C> {
    var confirms := dev.rollback.Some? && dev.rollback.value.name == name;
    Dropped(dev, name).(
      running := Candidate(sem, dev, name),
      rollback := if confirms then None else dev.rollback)
  }

  function TimedCommitted<C>(sem: Semantics<C>, dev: Device<C>, name: string, seconds: nat): Device<C> {
    dev.(
    running := Candidate(sem, dev, name),
    pending := dev.pending[name := []],
    rollback := Some(Saved(name, seconds, dev.running)))
  }

  /** The commit timer runs out. */
  function TimerExpired<C>(dev: Device<C>): Device<C> {
    match dev.rollback
    case None => dev
    case Some(saved) => dev.(running := saved.running, rollback := None)
  }

  function Typed<C>(dev: Device<C>, name: string, line: string): Device<C> {
    var batches := Batches(dev, name);
    if batches == [] then dev.(pending := dev.pending[name := [[line]]])
    else
      var n := |batches| - 1;
      dev.(pending := dev.pending[name := batches[..n] + [batches[n] + [line]]])
  }

  // ---- what a line does -----------------------------------------------------------

  predicate IsCount(word: string) {
    word != "" && AllDigits(word)
  }

  /** The seconds of `hours:minutes:seconds`. */
  function ClockSeconds(word: string): Option<nat> {
    SecondsOf(Split(word, ':'))
  }

  function SecondsOf(parts: seq<string>): Option<nat> {
    if |parts| == 3 && IsCount(parts[0]) && IsCount(parts[1]) && IsCount(parts[2])
      && DecValue(parts[1]) < 60 && DecValue(parts[2]) < 60
    then Some((DecValue(parts[0]) * 60 + DecValue(parts[1])) * 60 + DecValue(parts[2]))
    else None
  }

  function ExecVerb(cli: Cli, line: string): Verb {
    var words := Fields(line);
    if words == ["end"] || words == ["exit"] then Nothing
    else if words == ["configure"] || words == ["configure", "terminal"] then Configure
    else if |words| == 3 && words[0] == "configure" && words[1] == "session" then Enter(words[2])
    else if |words| == 4 && words[0] == "configure" && words[1] == "session" && words[3] == "commit"
      then Commit(words[2])
    else if |words| == 6 && words[0] == "configure" && words[1] == "session" && words[3] == "commit"
      && words[4] == "timer" && ClockSeconds(words[5]).Some?
      then CommitTimer(words[2], ClockSeconds(words[5]).value)
    else if |words| == 4 && words[0] == "no" && words[1] == "configure" && words[2] == "session" then Drop(words[3])
    else if |words| == 5 && words[0] == "show" && words[1] == "session-config" && words[2] == "named"
      && words[4] == "diffs"
      then ShowDiffs(words[3])
    else if |words| > 0 && words[0] == "show" then Nothing
    else cli.otherInExec(line)
  }

  function ConfigVerb(cli: Cli, line: string): Verb {
    var words := Fields(line);
    if words == ["end"] then EndHere
    else if words == ["exit"] then ExitHere
    else if words == ["commit"] then CommitHere
    else if words == ["abort"] then AbortHere
    else cli.otherInConfig(line)
  }

  /** A line that is typed into the session, after these: a configuration line, or an
      `exit` that only leaves a sub-mode. */
  predicate Stays(cli: Cli, typed: seq<string>, line: string) {
    var verb := ConfigVerb(cli, line);
    verb.Type? || (verb.ExitHere? && cli.inside(typed))
  }

  /** The effect of a line: on a session, or (`Direct`) possibly on running-config
      itself. */
  datatype Act =
    | Idle
    | Enters(name: string)
    | Types(name: string)
    | Installs(name: string)
    | InstallsForNow(name: string, seconds: nat)
    | Drops(name: string)
    | Direct

  /** An exec command, and where the CLI stands afterwards. */
  function ExecStep(verb: Verb, place: Place): (Act, Place) {
    match verb
    case Enter(name) => (Enters(name), InSession(name, []))
    case Commit(name) => (Installs(name), place)
    case CommitTimer(name, seconds) => (InstallsForNow(name, seconds), place)
    case Drop(name) => (Drops(name), place)
    case ShowDiffs(_) => (Idle, place)
    case Nothing => (Idle, place)
    case Configure => (Idle, InConfig([]))
    case _ => (Direct, place)
  }

  /** A line that is not typed into the session: it leaves it, or is an exec command
      that the CLI takes here too. */
  function LeaveStep(verb: Verb, name: string, typed: seq<string>): (Act, Place) {
    match verb
    case EndHere => (Idle, Exec)
    case ExitHere => (Idle, Exec)
    case CommitHere => (Installs(name), Exec)
    case AbortHere => (Drops(name), Exec)
    case Commit(n) => (Installs(n), if n == name then Exec else InSession(name, typed))
    case CommitTimer(n, seconds) => (InstallsForNow(n, seconds), if n == name then Exec else InSession(name, typed))
    case Drop(n) => (Drops(n), if n == name then Exec else InSession(name, typed))
    case _ => ExecStep(verb, InSession(name, typed))
  }

  function ConfigStep(verb: Verb, typed: seq<string>, line: string): (Act, Place) {
    match verb
    case EndHere => (Idle, Exec)
    case ExitHere => (Idle, Exec)
    case ShowDiffs(_) => (Idle, InConfig(typed))
    case Nothing => (Idle, InConfig(typed))
    case _ => (Direct, InConfig(typed + [line]))
  }

  function StepOf(cli: Cli, place: Place, line: string): (Act, Place) {
    match place
    case Exec => ExecStep(ExecVerb(cli, line), Exec)
    case InSession(name, typed) =>
      if Stays(cli, typed, line) then (Types(name), InSession(name, typed + [line]))
      else LeaveStep(ConfigVerb(cli, line), name, typed)
    case InConfig(typed) =>
      if Stays(cli, typed, line) then (Direct, InConfig(typed + [line]))
      else ConfigStep(ConfigVerb(cli, line), typed, line)
  }

  function Perform<C>(sem: Semantics<C>, dev: Device<C>, act: Act, place: Place, line: string): Device<C> {
    match act
    case Idle => dev
    case Enters(name) => Entered(dev, name)
    case Types(name) => Typed(dev, name, line)
    case Installs(name) => Committed(sem, dev, name)
    case InstallsForNow(name, seconds) => TimedCommitted(sem, dev, name, seconds)
    case Drops(name) => Dropped(dev, name)
    case Direct => dev.(running := sem.direct(dev.running, place, line))
  }

  function ExecLine<C>(sem: Semantics<C>, dev: Device<C>, place: Place, line: string): (Device<C>, Place) {
    var (act, next) := StepOf(sem.cli, place, line);
    (Perform(sem, dev, act, place, line), next)
  }

  function ExecLines<C>(sem: Semantics<C>, dev: Device<C>, place: Place, lines: seq<string>): (Device<C>, Place)
    decreases |lines|
  {
    if lines == [] then (dev, place)
    else
      var (dev', place') := ExecLine(sem, dev, place, lines[0]);
      ExecLines(sem, dev', place', lines[1..])
  }

  /** One eAPI call: the lines run from exec mode, all of them or, when the call
      breaks, the first few. */
  function Deliver<C>(sem: Semantics<C>, dev: Device<C>, lines: seq<string>, net: Net): Device<C> {
    var n := if net.Broken? && net.executed < |lines| then net.executed else |lines|;
    ExecLines(sem, dev, Exec, lines[..n]).0
  }

  function DiffOf<C>(sem: Semantics<C>, dev: Device<C>, name: string): string {
    ConfigDiff.Print(sem.show(dev.running), sem.show(Candidate(sem, dev, name)))
  }

  /** The text a `show session-config` call is answered with. */
  function TextOutput<C>(sem: Semantics<C>, dev: Device<C>, lines: seq<string>): Option<string> {
    if |lines| != 1 then None
    else
      match ExecVerb(sem.cli, lines[0])
      case ShowDiffs(name) => Some(DiffOf(sem, dev, name))
      case _ => None
  }

  // ---- the requests the client sends -----------------------------------------------

  function OpenRequest(name: string): seq<string> {
    ["configure session " + name, "end"]
  }

  function StageRequest(name: string, cmds: seq<string>): seq<string> {
    ["configure session " + name] + cmds + ["end"]
  }

  function DiffRequest(name: string): seq<string> {
    ["show session-config named " + name + " diffs"]
  }

  function CommitRequest(name: string): seq<string> {
    ["configure session " + name + " commit"]
  }

  function AbortRequest(name: string): seq<string> {
    ["no configure session " + name]
  }

  const SECOND := 1_000_000_000
  const DEFAULT_COMMIT_TIMER := 300 * SECOND

  /** `%02d` of a number below 100. */
  function TwoDigits(n: nat): (s: string)
    ensures IsToken(s)
  {
    ItoaToken(n);
    if n < 10 then "0" + Itoa(n) else Itoa(n)
  }

  lemma ColonToken(a: string, b: string, c: string)
    requires IsToken(a) && IsToken(b) && IsToken(c)
    ensures IsToken(a + ":" + b + ":" + c)
  {
  }

  /** A rollback window in nanoseconds as hours, minutes and seconds. */
  function HoursMinutesSeconds(timeout: int): (hms: (nat, nat, nat))
    requires timeout > 0
    ensures hms.1 < 60 && hms.2 < 60
    ensures (hms.0 * 60 + hms.1) * 60 + hms.2 == timeout / SECOND
  {
    var seconds := timeout / SECOND;
    var hh := seconds / 3600;
    var mm := seconds / 60 - hh * 60;
    (hh, mm, seconds - hh * 3600 - mm * 60)
  }

  /** The rollback window asked for: the default when none is. */
  function Window(timeout: int): (window: int)
    ensures window > 0
  {
    if timeout <= 0 then DEFAULT_COMMIT_TIMER else timeout
  }

  /** The rollback window as it is written for the CLI. */
  function Clock(timeout: int): (clock: string)
    ensures IsToken(clock)
  {
    var (hh, mm, ss) := HoursMinutesSeconds(Window(timeout));
    ItoaToken(hh);
    ColonToken(Itoa(hh), TwoDigits(mm), TwoDigits(ss));
    Itoa(hh) + ":" + TwoDigits(mm) + ":" + TwoDigits(ss)
  }

  lemma TwoDigitsRead(n: nat)
    requires n < 100
    ensures IsCount(TwoDigits(n)) && DecValue(TwoDigits(n)) == n && ':' !in TwoDigits(n)
  {
    if n < 10 {
      var s := TwoDigits(n);
      assert s[..1] == "0" && "0"[..0] == "" && DecValue("0") == 0;
      assert NatToDec(n)[..0] == "";
      assert s[1] == NatToDec(n)[0];
    }
  }

  lemma CountRead(n: nat)
    ensures IsCount(Itoa(n)) && DecValue(Itoa(n)) == n && ':' !in Itoa(n)
  {
  }

  lemma ClockOf(a: string, b: string, c: string)
    requires IsCount(a) && IsCount(b) && IsCount(c) && ':' !in a && ':' !in b && ':' !in c
    requires DecValue(b) < 60 && DecValue(c) < 60
    ensures ClockSeconds(a + ":" + b + ":" + c)
         == Some((DecValue(a) * 60 + DecValue(b)) * 60 + DecValue(c))
  {
    ClockParts(a, b, c, ":");
    SecondsRead(a, b, c);
  }

  lemma SecondsRead(a: string, b: string, c: string)
    requires IsCount(a) && IsCount(b) && IsCount(c) && DecValue(b) < 60 && DecValue(c) < 60
    ensures SecondsOf([a, b, c]) == Some((DecValue(a) * 60 + DecValue(b)) * 60 + DecValue(c))
  {
  }

  lemma ClockParts(a: string, b: string, c: string, colon: string)
    requires colon == [':'] && ':' !in a && ':' !in b && ':' !in c
    ensures Split(a + colon + b + colon + c, ':') == [a, b, c]
  {
    SplitNone(c, ':');
    SplitAt(b, ':', c);
    SplitAt(a, ':', b + colon + c);
    ThreeParts(a + colon, b, colon, c);
    assert [a] + ([b] + [c]) == [a, b, c];
  }

  /** The clock is read as the window in whole seconds. */
  lemma ClockRead(timeout: int)
    ensures ClockSeconds(Clock(timeout)) == Some(Window(timeout) / SECOND)
  {
    var (hh, mm, ss) := HoursMinutesSeconds(Window(timeout));
    CountRead(hh);
    TwoDigitsRead(mm);
    TwoDigitsRead(ss);
    ClockOf(Itoa(hh), TwoDigits(mm), TwoDigits(ss));
  }

  function CommitTimerRequest(name: string, timeout: int): seq<string> {
    ["configure session " + name + " commit timer " + Clock(timeout)]
  }

  // ---- the client ---------------------------------------------------------------

  class Node<!C> {
    const sem: Semantics<C>
    var dev: Device<C>

    constructor (sem: Semantics<C>, dev: Device<C>)
      ensures this.sem == sem && this.dev == dev
    {
      this.sem, this.dev := sem, dev;
    }

    method RunCmds(lines: seq<string>, net: Net) returns (err: bool, output: Option<string>)
      modifies this
      ensures dev == Deliver(sem, old(dev), lines, net)
      ensures err == net.Broken?
      ensures output == if net.Delivered? then TextOutput(sem, old(dev), lines) else None
    {
      output := if net.Delivered? then TextOutput(sem, dev, lines) else None;
      dev := Deliver(sem, dev, lines, net);
      err := net.Broken?;
    }
  }

  /** `slot` counts the values in the one-slot channel. */
  class Client<!C> {
    const node: Node<C>
    var slot: nat

    constructor (node: Node<C>)
      ensures this.node == node && slot == 0
    {
      this.node, slot := node, 0;
    }

    /** When the slot is taken the caller waits until its context ends: with one
        caller nobody else can free it. */
    method OpenSession(name: string, net: Net) returns (sess: Session?<C>, err: Option<Error>)
      requires slot <= 1
      modifies this, node
      ensures name == "" ==> err == Some(SessionNameRequired)
      ensures name != "" && old(slot) == 1 ==> err == Some(ContextDone)
      ensures name == "" || old(slot) == 1 ==> sess == null && slot == old(slot) && node.dev == old(node.dev)
      ensures name != "" && old(slot) == 0 ==>
                && node.dev == Deliver(node.sem, old(node.dev), OpenRequest(name), net)
                && err == (if net.Broken? then Some(Rpc) else None)
                && slot == (if net.Broken? then 0 else 1)
                && (sess == null <==> net.Broken?)
      ensures sess != null ==> fresh(sess) && sess.open && sess.parent == this && sess.name == name
    {
      sess := null;
      if name == "" {
        return null, Some(SessionNameRequired);
      }
      if slot == 1 {
        return null, Some(ContextDone);
      }
      slot := slot + 1;
      var failed, _ := node.RunCmds(["configure session " + name, "end"], net);
      if failed {
        slot := slot - 1;
        return null, Some(Rpc);
      }
      sess := new Session(this, name);
      err := None;
    }
  }

  class Session<!C> {
    const parent: Client<C>
    const name: string
    var open: bool

    constructor (parent: Client<C>, name: string)
      ensures this.parent == parent && this.name == name && open
    {
      this.parent, this.name, open := parent, name, true;
    }

    method Stage(cmds: seq<string>, net: Net) returns (err: Option<Error>)
      modifies parent.node
      ensures !open ==> err == Some(SessionClosed) && parent.node.dev == old(parent.node.dev)
      ensures open ==>
                && parent.node.dev == Deliver(parent.node.sem, old(parent.node.dev), StageRequest(name, cmds), net)
                && err == (if net.Broken? then Some(Rpc) else None)
    {
      if !open {
        return Some(SessionClosed);
      }
      var staged := ["configure session " + name];
      staged := staged + cmds;
      staged := staged + ["end"];
      var failed, _ := parent.node.RunCmds(staged, net);
      err := if failed then Some(Rpc) else None;
    }

    method Diff(net: Net) returns (diff: string, err: Option<Error>)
      modifies parent.node
      ensures !open ==> err == Some(SessionClosed) && diff == "" && parent.node.dev == old(parent.node.dev)
      ensures open ==>
                && parent.node.dev == Deliver(parent.node.sem, old(parent.node.dev), DiffRequest(name), net)
                && err == (if net.Broken? then Some(Rpc) else None)
                && diff == (match (if net.Delivered?
                                   then TextOutput(parent.node.sem, old(parent.node.dev), DiffRequest(name))
                                   else None)
                            case Some(text) => text
                            case None => "")
    {
      if !open {
        return "", Some(SessionClosed);
      }
      var failed, output := parent.node.RunCmds(["show session-config named " + name + " diffs"], net);
      if failed {
        return "", Some(Rpc);
      }
      diff := if output.Some? then output.value else "";
      err := None;
    }

    method CommitTimer(timeout: int, net: Net) returns (err: Option<Error>)
      modifies parent.node
      ensures !open ==> err == Some(SessionClosed) && parent.node.dev == old(parent.node.dev)
      ensures open ==>
                && parent.node.dev
                   == Deliver(parent.node.sem, old(parent.node.dev), CommitTimerRequest(name, timeout), net)
                && err == (if net.Broken? then Some(Rpc) else None)
    {
      if !open {
        return Some(SessionClosed);
      }
      var window := timeout;
      if timeout <= 0 {
        window := DEFAULT_COMMIT_TIMER;
      }
      var (hh, mm, ss) := HoursMinutesSeconds(window);
      var cmd := "configure session " + name + " commit timer "
        + (Itoa(hh) + ":" + TwoDigits(mm) + ":" + TwoDigits(ss));
      var failed, _ := parent.node.RunCmds([cmd], net);
      err := if failed then Some(Rpc) else None;
    }

    method Commit(net: Net) returns (err: Option<Error>)
      modifies this, parent, parent.node
      ensures !open
      ensures !old(open) ==>
                err == Some(SessionClosed) && parent.slot == old(parent.slot) && parent.node.dev == old(parent.node.dev)
      ensures old(open) ==>
                && parent.node.dev == Deliver(parent.node.sem, old(parent.node.dev), CommitRequest(name), net)
                && err == (if net.Broken? then Some(Rpc) else None)
                && parent.slot == (if old(parent.slot) == 0 then 0 else old(parent.slot) - 1)
    {
      if !open {
        return Some(SessionClosed);
      }
      var failed, _ := parent.node.RunCmds(["configure session " + name + " commit"], net);
      open := false;
      ReleaseSlot();
      err := if failed then Some(Rpc) else None;
    }

    method Abort(net: Net) returns (err: Option<Error>)
      modifies this, parent, parent.node
      ensures !open
      ensures !old(open) ==> err == None && parent.slot == old(parent.slot) && parent.node.dev == old(parent.node.dev)
      ensures old(open) ==>
                && parent.node.dev == Deliver(parent.node.sem, old(parent.node.dev), AbortRequest(name), net)
                && err == (if net.Broken? then Some(Rpc) else None)
                && parent.slot == (if old(parent.slot) == 0 then 0 else old(parent.slot) - 1)
    {
      if !open {
        return None;
      }
      var failed, _ := parent.node.RunCmds(["no configure session " + name], net);
      open := false;
      ReleaseSlot();
      err := if failed then Some(Rpc) else None;
    }

    /** A drain that does not block on an empty channel. */
    method ReleaseSlot()
      modifies parent
      ensures parent.slot == if old(parent.slot) == 0 then 0 else old(parent.slot) - 1
    {
      if parent.slot > 0 {
        parent.slot := parent.slot - 1;
      }
    }
  }

  // ---- what the requests do to the device -----------------------------------------------

  /** A body whose every line is typed into the session. */
  predicate PlainBody(cli: Cli, cmds: seq<string>) {
    forall i :: 0 <= i < |cmds| ==> Stays(cli, cmds[..i], cmds[i])
  }

  lemma PlainPart(cli: Cli, cmds: seq<string>, n: nat)
    requires PlainBody(cli, cmds) && n <= |cmds|
    ensures PlainBody(cli, cmds[..n])
  {
    assert forall i :: 0 <= i < n ==> cmds[..n][..i] == cmds[..i];
  }

  lemma EnterVerb(cli: Cli, name: string)
    requires IsToken(name)
    ensures ExecVerb(cli, "configure session " + name) == Enter(name)
  {
    EnterLine(name);
    Words3("configure", "session", name);
    EnterWords(cli, "configure session " + name, name);
  }

  lemma EnterWords(cli: Cli, line: string, name: string)
    requires Fields(line) == ["configure", "session", name]
    ensures ExecVerb(cli, line) == Enter(name)
  {
  }

  lemma EnterLine(name: string)
    ensures "configure session " + name == "configure" + " " + "session" + " " + name
  {
  }

  lemma EndVerb(cli: Cli)
    ensures ConfigVerb(cli, "end") == EndHere && ExecVerb(cli, "end") == Nothing
  {
    FieldsToken("end");
  }

  lemma CommitVerb(cli: Cli, name: string)
    requires IsToken(name)
    ensures ExecVerb(cli, "configure session " + name + " commit") == Commit(name)
  {
    CommitLine(name);
    Words4("configure", "session", name, "commit");
  }

  lemma CommitLine(name: string)
    ensures "configure session " + name + " commit" == "configure" + " " + "session" + " " + name + " " + "commit"
  {
  }

  lemma DropVerb(cli: Cli, name: string)
    requires IsToken(name)
    ensures ExecVerb(cli, "no configure session " + name) == Drop(name)
  {
    DropLine(name);
    Words4("no", "configure", "session", name);
  }

  lemma DropLine(name: string)
    ensures "no configure session " + name == "no" + " " + "configure" + " " + "session" + " " + name
  {
  }

  lemma ShowDiffsVerb(cli: Cli, name: string)
    requires IsToken(name)
    ensures ExecVerb(cli, "show session-config named " + name + " diffs") == ShowDiffs(name)
  {
    ShowDiffsLine(name);
    Words5("show", "session-config", "named", name, "diffs");
  }

  lemma ShowDiffsLine(name: string)
    ensures "show session-config named " + name + " diffs"
         == "show" + " " + "session-config" + " " + "named" + " " + name + " " + "diffs"
  {
  }

  lemma CommitTimerVerb(cli: Cli, name: string, clock: string, seconds: nat)
    requires IsToken(name) && IsToken(clock) && ClockSeconds(clock) == Some(seconds)
    ensures ExecVerb(cli, "configure session " + name + " commit timer " + clock) == CommitTimer(name, seconds)
  {
    CommitTimerLine(name, clock);
    Words6("configure", "session", name, "commit", "timer", clock);
  }

  lemma CommitTimerLine(name: string, clock: string)
    ensures "configure session " + name + " commit timer " + clock
         == "configure" + " " + "session" + " " + name + " " + "commit" + " " + "timer" + " " + clock
  {
  }

  /** A one-line call runs its line or, when it breaks at once, nothing. */
  lemma DeliverOne<C>(sem: Semantics<C>, dev: Device<C>, line: string, net: Net)
    ensures Deliver(sem, dev, [line], net)
         == if Executed(net, 1) == 0 then dev else ExecLine(sem, dev, Exec, line).0
  {
    assert [line][..1] == [line] && [line][..0] == [] && [line][1..] == [];
    var (dev', place') := ExecLine(sem, dev, Exec, line);
    assert ExecLines(sem, dev', place', []) == (dev', place');
    assert ExecLines(sem, dev, Exec, [line]) == (dev', place');
  }

  lemma ExecLinesOne<C>(sem: Semantics<C>, dev: Device<C>, place: Place, line: string)
    ensures ExecLines(sem, dev, place, [line]) == ExecLine(sem, dev, place, line)
  {
    var (dev', place') := ExecLine(sem, dev, place, line);
    assert [line][1..] == [];
    assert ExecLines(sem, dev', place', []) == (dev', place');
  }

  lemma {:induction false} ExecLinesAppend<C>(sem: Semantics<C>, dev: Device<C>, place: Place, a: seq<string>,
                                              b: seq<string>)
    ensures ExecLines(sem, dev, place, a + b) ==
            var (dev', place') := ExecLines(sem, dev, place, a);
            ExecLines(sem, dev', place', b)
    decreases |a|
  {
    if a == [] {
      AppendEmpty(b);
    } else {
      var (dev', place') := ExecLine(sem, dev, place, a[0]);
      ExecLinesAppend(sem, dev', place', a[1..], b);
      AppendTail(a, b);
    }
  }

  /** The device with one more batch waiting in a session. */
  function WithBatch<C>(dev: Device<C>, name: string, batch: seq<string>): Device<C> {
    dev.(pending := dev.pending[name := Batches(dev, name) + [batch]])
  }

  lemma TypeOne<C>(dev: Device<C>, name: string, batch: seq<string>, line: string)
    ensures Typed(WithBatch(dev, name, batch), name, line) == WithBatch(dev, name, batch + [line])
  {
    SnocParts(Batches(dev, name), batch);
  }

  /** Plain lines typed in a session pile up in its latest batch. */
  lemma {:induction false} TypedBatch<C>(sem: Semantics<C>, dev: Device<C>, name: string, cmds: seq<string>)
    requires PlainBody(sem.cli, cmds)
    ensures ExecLines(sem, WithBatch(dev, name, []), InSession(name, []), cmds)
         == (WithBatch(dev, name, cmds), InSession(name, cmds))
  {
    if cmds != [] {
      var n := |cmds| - 1;
      PlainPart(sem.cli, cmds, n);
      TypedBatch(sem, dev, name, cmds[..n]);
      ExecLinesAppend(sem, WithBatch(dev, name, []), InSession(name, []), cmds[..n], [cmds[n]]);
      ExecLinesOne(sem, WithBatch(dev, name, cmds[..n]), InSession(name, cmds[..n]), cmds[n]);
      TypeOne(dev, name, cmds[..n], cmds[n]);
      Snoc(cmds);
    }
  }

  /** Entering a session, typing plain lines, and whatever follows. */
  lemma EnterAndType<C>(sem: Semantics<C>, dev: Device<C>, name: string, typed: seq<string>, rest: seq<string>)
    requires IsToken(name) && PlainBody(sem.cli, typed)
    ensures ExecLines(sem, dev, Exec, ["configure session " + name] + (typed + rest))
         == ExecLines(sem, WithBatch(dev, name, typed), InSession(name, typed), rest)
  {
    EnterExec(sem, dev, name);
    ExecLinesAppend(sem, dev, Exec, ["configure session " + name], typed + rest);
    ExecLinesAppend(sem, WithBatch(dev, name, []), InSession(name, []), typed, rest);
    TypedBatch(sem, dev, name, typed);
  }

  function Min(a: nat, b: nat): nat {
    if a < b then a else b
  }

  /** How many lines of a call of `n` lines the device executes. */
  function Executed(net: Net, n: nat): nat {
    if net.Broken? then Min(net.executed, n) else n
  }

  lemma EnterExec<C>(sem: Semantics<C>, dev: Device<C>, name: string)
    requires IsToken(name)
    ensures ExecLines(sem, dev, Exec, ["configure session " + name]) == (WithBatch(dev, name, []), InSession(name, []))
  {
    EnterVerb(sem.cli, name);
    ExecLinesOne(sem, dev, Exec, "configure session " + name);
  }

  /** `end` leaves a session as it is. */
  lemma EndExec<C>(sem: Semantics<C>, dev: Device<C>, name: string, typed: seq<string>)
    ensures ExecLines(sem, dev, InSession(name, typed), ["end"]) == (dev, Exec)
  {
    EndVerb(sem.cli);
    ExecLinesOne(sem, dev, InSession(name, typed), "end");
  }

  /** Opening leaves at most one empty batch behind. */
  lemma OpenEffect<C>(sem: Semantics<C>, dev: Device<C>, name: string, net: Net)
    requires IsToken(name)
    ensures Deliver(sem, dev, OpenRequest(name), net)
         == if Executed(net, 2) == 0 then dev else WithBatch(dev, name, [])
  {
    EnterExec(sem, dev, name);
    EndExec(sem, WithBatch(dev, name, []), name, []);
    var lines := OpenRequest(name);
    assert lines[..2] == lines && lines[..1] == ["configure session " + name] && lines[..0] == [];
    assert lines == ["configure session " + name] + ["end"];
    ExecLinesAppend(sem, dev, Exec, ["configure session " + name], ["end"]);
  }

  /** Staging adds the lines that arrived, as one batch, and touches nothing
      else: running-config is as before. */
  lemma StageEffect<C>(sem: Semantics<C>, dev: Device<C>, name: string, cmds: seq<string>, net: Net)
    requires IsToken(name) && PlainBody(sem.cli, cmds)
    ensures var k := Executed(net, |cmds| + 2);
            Deliver(sem, dev, StageRequest(name, cmds), net) ==
            (if k == 0 then dev else WithBatch(dev, name, cmds[..Min(k - 1, |cmds|)]))
  {
    var enter := ["configure session " + name];
    var lines := StageRequest(name, cmds);
    var k := Executed(net, |cmds| + 2);
    if k == 0 {
      assert lines[..k] == [];
    } else {
      var typed := cmds[..Min(k - 1, |cmds|)];
      var rest := if k == |cmds| + 2 then ["end"] else [];
      assert lines[..k] == enter + (typed + rest);
      PlainPart(sem.cli, cmds, |typed|);
      EnterAndType(sem, dev, name, typed, rest);
      EndExec(sem, WithBatch(dev, name, typed), name, typed);
    }
  }

  lemma DiffEffect<C>(sem: Semantics<C>, dev: Device<C>, name: string, net: Net)
    requires IsToken(name)
    ensures Deliver(sem, dev, DiffRequest(name), net) == dev
    ensures TextOutput(sem, dev, DiffRequest(name)) == Some(DiffOf(sem, dev, name))
  {
    ShowDiffsVerb(sem.cli, name);
    DeliverOne(sem, dev, DiffRequest(name)[0], net);
  }

  lemma CommitEffect<C>(sem: Semantics<C>, dev: Device<C>, name: string, net: Net)
    requires IsToken(name)
    ensures Deliver(sem, dev, CommitRequest(name), net)
         == if Executed(net, 1) == 0 then dev else Committed(sem, dev, name)
  {
    CommitVerb(sem.cli, name);
    DeliverOne(sem, dev, CommitRequest(name)[0], net);
  }

  lemma AbortEffect<C>(sem: Semantics<C>, dev: Device<C>, name: string, net: Net)
    requires IsToken(name)
    ensures Deliver(sem, dev, AbortRequest(name), net)
         == if Executed(net, 1) == 0 then dev else Dropped(dev, name)
  {
    DropVerb(sem.cli, name);
    DeliverOne(sem, dev, AbortRequest(name)[0], net);
  }

  lemma CommitTimerEffect<C>(sem: Semantics<C>, dev: Device<C>, name: string, timeout: int, net: Net)
    requires IsToken(name)
    ensures Deliver(sem, dev, CommitTimerRequest(name, timeout), net)
         == if Executed(net, 1) == 0 then dev else TimedCommitted(sem, dev, name, Window(timeout) / SECOND)
  {
    var clock := Clock(timeout);
    ClockRead(timeout);
    CommitTimerVerb(sem.cli, name, clock, Window(timeout) / SECOND);
    TimerLine(sem, dev, CommitTimerRequest(name, timeout)[0], name, Window(timeout) / SECOND, net);
  }

  lemma TimerLine<C>(sem: Semantics<C>, dev: Device<C>, line: string, name: string, seconds: nat, net: Net)
    requires ExecVerb(sem.cli, line) == CommitTimer(name, seconds)
    ensures Deliver(sem, dev, [line], net)
         == if Executed(net, 1) == 0 then dev else TimedCommitted(sem, dev, name, seconds)
  {
    DeliverOne(sem, dev, line, net);
  }

  /** A timed commit call that reaches the device puts the candidate in force. If nobody
      confirms it, the expiring timer brings running-config back; if a commit call
      confirms it, the device is as after that commit call alone, and the timer has
      nothing left to undo. */
  lemma TimedCommitOutcomes<C>(sem: Semantics<C>, dev: Device<C>, name: string, timeout: int, net: Net, confirm: Net)
    requires IsToken(name) && Executed(net, 1) == 1
    ensures var armed := Deliver(sem, dev, CommitTimerRequest(name, timeout), net);
            && armed.running == Candidate(sem, dev, name)
            && armed.rollback == Some(Saved(name, Window(timeout) / SECOND, dev.running))
            && TimerExpired(armed).running == dev.running
    ensures var armed := Deliver(sem, dev, CommitTimerRequest(name, timeout), net);
            var confirmed := Deliver(sem, armed, CommitRequest(name), confirm);
            var plain := Deliver(sem, dev, CommitRequest(name), confirm);
            if Executed(confirm, 1) == 0 then confirmed == armed
            else
              && confirmed.running == plain.running && confirmed.pending == plain.pending
              && TimerExpired(confirmed) == confirmed
  {
    CommitTimerEffect(sem, dev, name, timeout, net);
    CommitEffect(sem, TimedCommitted(sem, dev, name, Window(timeout) / SECOND), name, confirm);
    CommitEffect(sem, dev, name, confirm);
    assert TimedCommitted(sem, dev, name, Window(timeout) / SECOND).pending - {name} == dev.pending - {name};
  }

  // ---- session names ------------------------------------------------------------------------

  predicate NeedsHyphen(c: char) {
    c == '/' || c == ' ' || c == ':' || c == '.'
  }

  /** `sanitizeForSession` and `sanitizePrefixListName`: characters that are not
      allowed in a session name become hyphens. */
  function SessionSlug(name: string): (slug: string)
    ensures |slug| == |name|
    ensures forall i :: 0 <= i < |name| ==> slug[i] == if NeedsHyphen(name[i]) then '-' else name[i]
  {
    seq(|name|, i requires 0 <= i < |name| => if NeedsHyphen(name[i]) then '-' else name[i])
  }

  // ---- the apply flow of the typed resources ------------------------------------------------

  /** What the network does to the calls of one apply; `close` is for the commit
      or the abort that ends it. */
  datatype Nets = Nets(open: Net, stage: Net, diff: Net, close: Net)

  /** The commit call reaches the device after everything was staged. */
  predicate Commits(nets: Nets) {
    !nets.open.Broken? && !nets.stage.Broken? && Executed(nets.close, 1) == 1
  }

  /** The device after open, stage and commit, or abort when staging failed. */
  function AfterApply<C>(sem: Semantics<C>, dev: Device<C>, name: string, cmds: seq<string>, nets: Nets): Device<C> {
    var afterOpen := Deliver(sem, dev, OpenRequest(name), nets.open);
    if nets.open.Broken? then afterOpen
    else
      var staged := Deliver(sem, afterOpen, StageRequest(name, cmds), nets.stage);
      if nets.stage.Broken? then Deliver(sem, staged, AbortRequest(name), nets.close)
      else Deliver(sem, staged, CommitRequest(name), nets.close)
  }

  /** The flow shared by every resource that always commits. Whatever fails, the
      session it afterOpen is closed and the slot is free on return. */
  method ApplyCommands<C>(cli: Client<C>, name: string, cmds: seq<string>, nets: Nets)
    returns (err: Option<Error>, ghost sess: Session?<C>)
    requires cli.slot == 0
    modifies cli, cli.node
    ensures cli.slot == 0
    ensures sess != null ==> fresh(sess) && !sess.open
    ensures name == "" ==> err == Some(SessionNameRequired) && cli.node.dev == old(cli.node.dev)
    ensures name != "" ==> cli.node.dev == AfterApply(cli.node.sem, old(cli.node.dev), name, cmds, nets)
    ensures name != "" ==> (err == None <==> !nets.open.Broken? && !nets.stage.Broken? && !nets.close.Broken?)
    ensures name != "" && !nets.open.Broken? && nets.stage.Broken? && nets.close.Broken?
            ==> err == Some(Joined(Rpc, Rpc))
    ensures name != "" && err != None && err != Some(Rpc) ==> nets.stage.Broken? && nets.close.Broken?
  {
    var s, openErr := cli.OpenSession(name, nets.open);
    sess := s;
    if openErr.Some? {
      return openErr, sess;
    }
    var stageErr := s.Stage(cmds, nets.stage);
    if stageErr.Some? {
      var abortErr := s.Abort(nets.close);
      if abortErr.Some? {
        return Some(Joined(stageErr.value, abortErr.value)), sess;
      }
      return stageErr, sess;
    }
    err := s.Commit(nets.close);
  }

  /** The batches an apply may leave in its own session: what was there, and
      beginnings of its command list. */
  predicate LeftBy(cmds: seq<string>, before: seq<seq<string>>, after: seq<seq<string>>) {
    forall i :: 0 <= i < |after| ==> after[i] in before || after[i] <= cmds
  }

  /** The device once the open succeeded and the stage call was made. */
  function StagedDevice<C>(dev: Device<C>, name: string, cmds: seq<string>, net: Net): Device<C> {
    var entered := WithBatch(dev, name, []);
    var k := Executed(net, |cmds| + 2);
    if k == 0 then entered else WithBatch(entered, name, cmds[..Min(k - 1, |cmds|)])
  }

  lemma OpenAndStage<C>(sem: Semantics<C>, dev: Device<C>, name: string, cmds: seq<string>, nets: Nets)
    requires IsToken(name) && PlainBody(sem.cli, cmds)
    requires !nets.open.Broken?
    ensures Deliver(sem, Deliver(sem, dev, OpenRequest(name), nets.open), StageRequest(name, cmds), nets.stage)
         == StagedDevice(dev, name, cmds, nets.stage)
  {
    OpenEffect(sem, dev, name, nets.open);
    StageEffect(sem, WithBatch(dev, name, []), name, cmds, nets.stage);
  }

  /** A complete stage leaves what was pending, an empty batch, and the list. */
  lemma StagedCompletely<C>(dev: Device<C>, name: string, cmds: seq<string>, net: Net)
    requires !net.Broken?
    ensures Batches(StagedDevice(dev, name, cmds, net), name) == Batches(dev, name) + [[], cmds]
  {
    assert cmds[..|cmds|] == cmds;
    assert Batches(dev, name) + [[]] + [cmds] == Batches(dev, name) + [[], cmds];
  }

  lemma StagedElsewhere<C>(dev: Device<C>, name: string, cmds: seq<string>, net: Net)
    ensures var staged := StagedDevice(dev, name, cmds, net);
            && staged.running == dev.running && staged.rollback == dev.rollback
            && (forall other :: other != name ==> Batches(staged, other) == Batches(dev, other))
            && LeftBy(cmds, Batches(dev, name), Batches(staged, name))
  {
  }

  /** The device in terms of the batches each call left. */
  lemma ApplyCases<C>(sem: Semantics<C>, dev: Device<C>, name: string, cmds: seq<string>, nets: Nets)
    requires IsToken(name) && PlainBody(sem.cli, cmds)
    ensures nets.open.Broken? ==>
              AfterApply(sem, dev, name, cmds, nets) == dev
              || AfterApply(sem, dev, name, cmds, nets) == WithBatch(dev, name, [])
    ensures !nets.open.Broken? ==>
              var staged := StagedDevice(dev, name, cmds, nets.stage);
              AfterApply(sem, dev, name, cmds, nets) ==
              (if Executed(nets.close, 1) == 0 then staged
               else if nets.stage.Broken? then Dropped(staged, name)
               else Committed(sem, staged, name))
  {
    if nets.open.Broken? {
      OpenEffect(sem, dev, name, nets.open);
    } else {
      OpenAndStage(sem, dev, name, cmds, nets);
      var staged := StagedDevice(dev, name, cmds, nets.stage);
      AbortEffect(sem, staged, name, nets.close);
      CommitEffect(sem, staged, name, nets.close);
    }
  }

  /** The device once everything was staged that gets through. */
  function Staged<C>(sem: Semantics<C>, dev: Device<C>, name: string, cmds: seq<string>, nets: Nets): Device<C> {
    var afterOpen := Deliver(sem, dev, OpenRequest(name), nets.open);
    if nets.open.Broken? then afterOpen else Deliver(sem, afterOpen, StageRequest(name, cmds), nets.stage)
  }

  /** For a plain body, that is the device with some of its batches. */
  lemma StagedPlainly<C>(sem: Semantics<C>, dev: Device<C>, name: string, cmds: seq<string>, nets: Nets)
    requires IsToken(name) && PlainBody(sem.cli, cmds)
    ensures var staged := Staged(sem, dev, name, cmds, nets);
            && staged.running == dev.running && staged.rollback == dev.rollback
            && (!nets.open.Broken? ==> staged == StagedDevice(dev, name, cmds, nets.stage))
            && (!nets.open.Broken? && !nets.stage.Broken? ==>
                  Candidate(sem, staged, name) == Replay(sem, dev.running, Batches(dev, name) + [[], cmds]))
  {
    if nets.open.Broken? {
      OpenEffect(sem, dev, name, nets.open);
    } else {
      OpenAndStage(sem, dev, name, cmds, nets);
      StagedElsewhere(dev, name, cmds, nets.stage);
      if !nets.stage.Broken? {
        StagedCompletely(dev, name, cmds, nets.stage);
      }
    }
  }

  /** Past staging, running-config changes only in a commit, which follows a complete
      stage, and then it becomes the candidate of that moment: for every body. For a
      plain one staging changes nothing, and the candidate is what was pending in that
      session, followed by the whole command list. */
  lemma ApplyRunning<C>(sem: Semantics<C>, dev: Device<C>, name: string, cmds: seq<string>, nets: Nets)
    requires IsToken(name)
    ensures var after, staged := AfterApply(sem, dev, name, cmds, nets), Staged(sem, dev, name, cmds, nets);
            && after.running == (if Commits(nets) then Candidate(sem, staged, name) else staged.running)
            && (Commits(nets) ==> name !in after.pending)
            && (staged.rollback == None ==> after.rollback == None)
    ensures PlainBody(sem.cli, cmds) ==>
              AfterApply(sem, dev, name, cmds, nets).running ==
              (if Commits(nets) then Replay(sem, dev.running, Batches(dev, name) + [[], cmds]) else dev.running)
  {
    var staged := Staged(sem, dev, name, cmds, nets);
    AbortEffect(sem, staged, name, nets.close);
    CommitEffect(sem, staged, name, nets.close);
    if PlainBody(sem.cli, cmds) {
      StagedPlainly(sem, dev, name, cmds, nets);
    }
  }

  /** Other sessions are left alone, and this one keeps at most what it held and
      beginnings of the command list. */
  lemma ApplyPending<C>(sem: Semantics<C>, dev: Device<C>, name: string, cmds: seq<string>, nets: Nets)
    requires IsToken(name) && PlainBody(sem.cli, cmds)
    ensures var after := AfterApply(sem, dev, name, cmds, nets);
            && (forall other :: other != name ==> Batches(after, other) == Batches(dev, other))
            && LeftBy(cmds, Batches(dev, name), Batches(after, name))
  {
    ApplyCases(sem, dev, name, cmds, nets);
    StagedElsewhere(dev, name, cmds, nets.stage);
  }

  lemma ReplayAppend<C>(sem: Semantics<C>, c: C, batches: seq<seq<string>>, last: seq<string>)
    ensures Replay(sem, c, batches + [last])
         == var before := Replay(sem, c, batches);
            if last == [] then before else sem.run(before, last)
  {
    assert (batches + [last])[..|batches|] == batches;
  }

  lemma ReplayEndsWith<C>(sem: Semantics<C>, c: C, batches: seq<seq<string>>, cmds: seq<string>)
    requires cmds != []
    ensures Replay(sem, c, batches + [[], cmds]) == sem.run(Replay(sem, c, batches), cmds)
  {
    assert batches + [[], cmds] == batches + [[]] + [cmds];
    ReplayAppend(sem, c, batches + [[]], cmds);
    ReplayAppend(sem, c, batches, []);
  }

  lemma ReplayTwo<C>(sem: Semantics<C>, c: C, first: seq<string>, second: seq<string>)
    requires first != [] && second != []
    ensures Replay(sem, c, [[], first] + [[], second]) == sem.run(sem.run(c, first), second)
  {
    assert [] + [[], first] == [[], first];
    ReplayEndsWith(sem, c, [], first);
    ReplayEndsWith(sem, c, [[], first], second);
  }
}
