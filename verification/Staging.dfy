/** What staging a body does, for every body and every CLI: Stage sends the user's
    lines as they are, and some lines mean more to the CLI than configuration. */
module Staging {
  import opened Seqs
  import opened Text
  import opened Eapi

  // ---- when a body is staged whole ---------------------------------------------------

  /** What was typed since a session was entered is its latest batch. */
  predicate Follows<C>(dev: Device<C>, place: Place) {
    place.InSession? ==>
      Batches(dev, place.name) != [] && Batches(dev, place.name)[|Batches(dev, place.name)| - 1] == place.typed
  }

  lemma TypedLast<C>(dev: Device<C>, name: string, line: string)
    requires Batches(dev, name) != []
    ensures var before, after := Batches(dev, name), Batches(Typed(dev, name, line), name);
            |after| == |before| && after[|after| - 1] == before[|before| - 1] + [line]
  {
  }

  lemma LineFollows<C>(sem: Semantics<C>, dev: Device<C>, place: Place, line: string)
    requires Follows(dev, place)
    ensures var (dev', place') := ExecLine(sem, dev, place, line);
            Follows(dev', place')
  {
    if place.InSession? {
      TypedLast(dev, place.name, line);
    }
  }

  /** Every line typed last into the session was one to stay there. */
  predicate LastIsPlain<C>(cli: Cli, dev: Device<C>, name: string) {
    var batches := Batches(dev, name);
    batches != [] ==> PlainBody(cli, batches[|batches| - 1])
  }

  lemma PlainMore(cli: Cli, typed: seq<string>, line: string)
    requires PlainBody(cli, typed) && Stays(cli, typed, line)
    ensures PlainBody(cli, typed + [line])
  {
    var all := typed + [line];
    forall i | 0 <= i < |all| ensures Stays(cli, all[..i], all[i]) {
      if i < |typed| {
        assert all[..i] == typed[..i] && all[i] == typed[i];
      } else {
        SnocParts(typed, line);
      }
    }
  }

  lemma LineKeepsLastPlain<C>(sem: Semantics<C>, dev: Device<C>, place: Place, line: string, name: string)
    requires Follows(dev, place) && LastIsPlain(sem.cli, dev, name)
    ensures LastIsPlain(sem.cli, ExecLine(sem, dev, place, line).0, name)
  {
    var act := StepOf(sem.cli, place, line).0;
    if place.InSession? && Stays(sem.cli, place.typed, line) {
      if place.name == name {
        TypedLast(dev, name, line);
        PlainMore(sem.cli, place.typed, line);
      }
    } else {
      NeverTyped(sem.cli, place, line);
      ActKeepsLastPlain(sem, dev, act, place, line, name);
    }
  }

  lemma NeverTyped(cli: Cli, place: Place, line: string)
    requires !(place.InSession? && Stays(cli, place.typed, line))
    ensures !StepOf(cli, place, line).0.Types?
  {
  }

  lemma ActKeepsLastPlain<C>(sem: Semantics<C>, dev: Device<C>, act: Act, place: Place, line: string, name: string)
    requires LastIsPlain(sem.cli, dev, name) && !act.Types?
    ensures LastIsPlain(sem.cli, Perform(sem, dev, act, place, line), name)
  {
  }

  lemma {:induction false} LinesKeepLastPlain<C>(sem: Semantics<C>, dev: Device<C>, place: Place, lines: seq<string>,
                                                 name: string)
    requires Follows(dev, place) && LastIsPlain(sem.cli, dev, name)
    ensures LastIsPlain(sem.cli, ExecLines(sem, dev, place, lines).0, name)
    decreases |lines|
  {
    if lines != [] {
      var (dev', place') := ExecLine(sem, dev, place, lines[0]);
      LineFollows(sem, dev, place, lines[0]);
      LineKeepsLastPlain(sem, dev, place, lines[0], name);
      LinesKeepLastPlain(sem, dev', place', lines[1..], name);
    }
  }

  /** The part of a body that the device executes. */
  function Arrived(cmds: seq<string>, net: Net): seq<string> {
    var k := Executed(net, |cmds| + 2);
    if k == 0 then [] else cmds[..Min(k - 1, |cmds|)]
  }

  lemma RequestEnters<C>(sem: Semantics<C>, dev: Device<C>, name: string, cmds: seq<string>, net: Net)
    returns (rest: seq<string>)
    requires IsToken(name) && Executed(net, |cmds| + 2) > 0
    ensures rest == Arrived(cmds, net) || rest == Arrived(cmds, net) + ["end"]
    ensures !net.Broken? ==> rest == cmds + ["end"]
    ensures rest <= cmds + ["end"]
    ensures Deliver(sem, dev, StageRequest(name, cmds), net)
         == ExecLines(sem, WithBatch(dev, name, []), InSession(name, []), rest).0
  {
    var k := Executed(net, |cmds| + 2);
    var all := cmds + ["end"];
    rest := all[..k - 1];
    RequestParts("configure session " + name, cmds, "end", k);
    EnterExec(sem, dev, name);
    ExecLinesAppend(sem, dev, Exec, ["configure session " + name], rest);
  }

  lemma RequestParts<T>(enter: T, cmds: seq<T>, end: T, k: nat)
    requires 0 < k <= |cmds| + 2
    ensures ([enter] + cmds + [end])[..k] == [enter] + (cmds + [end])[..k - 1]
    ensures (cmds + [end])[..k - 1] == if k == |cmds| + 2 then cmds + [end] else cmds[..k - 1]
    ensures cmds[..|cmds|] == cmds
  {
  }

  lemma PlainIsTyped<C>(sem: Semantics<C>, dev: Device<C>, name: string, typed: seq<string>)
    requires PlainBody(sem.cli, typed)
    ensures ExecLines(sem, WithBatch(dev, name, []), InSession(name, []), typed).0 == WithBatch(dev, name, typed)
    ensures ExecLines(sem, WithBatch(dev, name, []), InSession(name, []), typed + ["end"]).0
         == WithBatch(dev, name, typed)
  {
    TypedBatch(sem, dev, name, typed);
    ExecLinesAppend(sem, WithBatch(dev, name, []), InSession(name, []), typed, ["end"]);
    EndExec(sem, WithBatch(dev, name, typed), name, typed);
  }

  /** A body arrives in its session as one batch, and does nothing else, if and only if
      every line that arrives is typed into the session: for every CLI, every device and
      every outcome of the call. */
  lemma StagedExactly<C>(sem: Semantics<C>, dev: Device<C>, name: string, cmds: seq<string>, net: Net)
    requires IsToken(name) && Executed(net, |cmds| + 2) > 0
    ensures Deliver(sem, dev, StageRequest(name, cmds), net) == WithBatch(dev, name, Arrived(cmds, net))
       <==> PlainBody(sem.cli, Arrived(cmds, net))
  {
    var typed := Arrived(cmds, net);
    var rest := RequestEnters(sem, dev, name, cmds, net);
    SnocParts(Batches(dev, name), []);
    LinesKeepLastPlain(sem, WithBatch(dev, name, []), InSession(name, []), rest, name);
    SnocParts(Batches(dev, name), typed);
    if PlainBody(sem.cli, typed) {
      PlainIsTyped(sem, dev, name, typed);
    }
  }

  // ---- when staging can change running-config -----------------------------------------------

  /** Sessions emptied so far: committing one of those changes nothing. */
  function GoneAfter(act: Act, gone: set<string>): set<string> {
    match act
    case Types(name) => gone - {name}
    case Drops(name) => gone + {name}
    case _ => gone
  }

  /** An act that may change running-config: a commit of a session that may hold
      something, or a line that acts on running-config itself. */
  predicate Hits(act: Act, gone: set<string>) {
    match act
    case Installs(name) => name !in gone
    case InstallsForNow(name, _) => name !in gone
    case Direct => true
    case _ => false
  }

  /** Whether lines can change running-config while they are being staged. The lines
      and the CLI's reading of them decide; neither what the device holds nor what
      configuration lines mean comes in. */
  predicate Escapes(cli: Cli, place: Place, gone: set<string>, lines: seq<string>)
    decreases |lines|
  {
    lines != [] &&
    var (act, next) := StepOf(cli, place, lines[0]);
    Hits(act, gone) || Escapes(cli, next, GoneAfter(act, gone), lines[1..])
  }

  /** Where the CLI stands after some lines, and which sessions they emptied. */
  function Walk(cli: Cli, place: Place, gone: set<string>, lines: seq<string>): (Place, set<string>)
    decreases |lines|
  {
    if lines == [] then (place, gone)
    else
      var (act, next) := StepOf(cli, place, lines[0]);
      Walk(cli, next, GoneAfter(act, gone), lines[1..])
  }

  lemma {:induction false} EscapesAppend(cli: Cli, place: Place, gone: set<string>, a: seq<string>, b: seq<string>)
    ensures var (place', gone') := Walk(cli, place, gone, a);
            && (Escapes(cli, place, gone, a + b) <==> Escapes(cli, place, gone, a) || Escapes(cli, place', gone', b))
            && Walk(cli, place, gone, a + b) == Walk(cli, place', gone', b)
    decreases |a|
  {
    if a == [] {
      AppendEmpty(b);
    } else {
      var (act, next) := StepOf(cli, place, a[0]);
      AppendTail(a, b);
      EscapesAppend(cli, next, GoneAfter(act, gone), a[1..], b);
    }
  }

  lemma EscapesOne(cli: Cli, place: Place, gone: set<string>, line: string)
    ensures Escapes(cli, place, gone, [line]) <==> Hits(StepOf(cli, place, line).0, gone)
    ensures Walk(cli, place, gone, [line]) ==
            var (act, next) := StepOf(cli, place, line);
            (next, GoneAfter(act, gone))
  {
    var (act, next) := StepOf(cli, place, line);
    assert [line][1..] == [];
    assert Walk(cli, next, GoneAfter(act, gone), []) == (next, GoneAfter(act, gone));
  }

  /** A session in which nothing was typed. */
  predicate Blank<C>(dev: Device<C>, name: string) {
    forall i :: 0 <= i < |Batches(dev, name)| ==> Batches(dev, name)[i] == []
  }

  lemma {:induction false} BlankReplay<C>(sem: Semantics<C>, c: C, batches: seq<seq<string>>)
    requires forall i :: 0 <= i < |batches| ==> batches[i] == []
    ensures Replay(sem, c, batches) == c
  {
    if batches != [] {
      BlankReplay(sem, c, batches[..|batches| - 1]);
    }
  }

  predicate AllBlank<C>(dev: Device<C>, gone: set<string>) {
    forall n :: n in gone ==> Blank(dev, n)
  }

  predicate ActsOn(act: Act, x: string) {
    !act.Idle? && !act.Direct? && act.name == x
  }

  lemma OthersUntouched<C>(sem: Semantics<C>, dev: Device<C>, act: Act, place: Place, line: string, x: string)
    requires !ActsOn(act, x)
    ensures Batches(Perform(sem, dev, act, place, line), x) == Batches(dev, x)
  {
  }

  lemma BlankStays<C>(sem: Semantics<C>, dev: Device<C>, act: Act, place: Place, gone: set<string>, line: string,
                      x: string)
    requires x in GoneAfter(act, gone) && (x in gone ==> Blank(dev, x))
    ensures Blank(Perform(sem, dev, act, place, line), x)
  {
    if !ActsOn(act, x) {
      OthersUntouched(sem, dev, act, place, line, x);
    }
  }

  lemma HarmlessAct<C>(sem: Semantics<C>, dev: Device<C>, act: Act, place: Place, gone: set<string>, line: string)
    requires !Hits(act, gone) && AllBlank(dev, gone)
    ensures var dev' := Perform(sem, dev, act, place, line);
            dev'.running == dev.running && AllBlank(dev', GoneAfter(act, gone))
  {
    if act.Installs? || act.InstallsForNow? {
      assert Blank(dev, act.name);
      BlankReplay(sem, dev.running, Batches(dev, act.name));
    }
    var dev' := Perform(sem, dev, act, place, line);
    forall n | n in GoneAfter(act, gone) ensures Blank(dev', n) {
      BlankStays(sem, dev, act, place, gone, line, n);
    }
  }

  lemma {:induction false} HarmlessLines<C>(sem: Semantics<C>, dev: Device<C>, place: Place, gone: set<string>,
                                            lines: seq<string>)
    requires !Escapes(sem.cli, place, gone, lines) && AllBlank(dev, gone)
    ensures ExecLines(sem, dev, place, lines).0.running == dev.running
    decreases |lines|
  {
    if lines != [] {
      var (act, next) := StepOf(sem.cli, place, lines[0]);
      HarmlessAct(sem, dev, act, place, gone, lines[0]);
      HarmlessLines(sem, Perform(sem, dev, act, place, lines[0]), next, GoneAfter(act, gone), lines[1..]);
    }
  }

  // ---- a device on which it does ---------------------------------------------------------------

  /** The meaning of lines that only counts what is put in force. */
  function Counting(cli: Cli): Semantics<int> {
    Semantics(
      cli,
      (c: int, batch: seq<string>) => c + 1,
      (c: int) => [Itoa(c)],
      (c: int, place: Place, line: string) => c + 1)
  }

  predicate HasText<C>(dev: Device<C>, name: string) {
    exists i :: 0 <= i < |Batches(dev, name)| && Batches(dev, name)[i] != []
  }

  lemma {:induction false} ReplayCounts(cli: Cli, c: int, batches: seq<seq<string>>)
    ensures Replay(Counting(cli), c, batches) >= c
    ensures (exists i :: 0 <= i < |batches| && batches[i] != []) ==> Replay(Counting(cli), c, batches) > c
  {
    if batches != [] {
      var n := |batches| - 1;
      ReplayCounts(cli, c, batches[..n]);
      if batches[n] == [] && exists i :: 0 <= i < |batches| && batches[i] != [] {
        var i :| 0 <= i < |batches| && batches[i] != [];
        assert batches[..n][i] == batches[i];
      }
    }
  }

  lemma ActCounts(cli: Cli, dev: Device<int>, act: Act, place: Place, line: string)
    ensures Perform(Counting(cli), dev, act, place, line).running >= dev.running
  {
    if act.Installs? || act.InstallsForNow? {
      ReplayCounts(cli, dev.running, Batches(dev, act.name));
    }
  }

  lemma {:induction false} LinesCount(cli: Cli, dev: Device<int>, place: Place, lines: seq<string>)
    ensures ExecLines(Counting(cli), dev, place, lines).0.running >= dev.running
    decreases |lines|
  {
    if lines != [] {
      var (act, next) := StepOf(cli, place, lines[0]);
      ActCounts(cli, dev, act, place, lines[0]);
      LinesCount(cli, Perform(Counting(cli), dev, act, place, lines[0]), next, lines[1..]);
    }
  }

  /** The session whose commit is the first act that may change running-config, if it
      is a commit. */
  function Culprit(cli: Cli, place: Place, gone: set<string>, lines: seq<string>): Option<string>
    requires Escapes(cli, place, gone, lines)
    decreases |lines|
  {
    var (act, next) := StepOf(cli, place, lines[0]);
    if Hits(act, gone) then (if act.Direct? then None else Some(act.name))
    else Culprit(cli, next, GoneAfter(act, gone), lines[1..])
  }

  /** The culprit's session holds something as long as it is not emptied. */
  predicate Loaded(dev: Device<int>, gone: set<string>, x: Option<string>) {
    x.Some? && x.value !in gone ==> HasText(dev, x.value)
  }

  lemma HitCounts(cli: Cli, dev: Device<int>, act: Act, place: Place, gone: set<string>, line: string,
                  x: Option<string>)
    requires Hits(act, gone) && Loaded(dev, gone, x)
    requires x == if act.Direct? then None else Some(act.name)
    ensures Perform(Counting(cli), dev, act, place, line).running > dev.running
  {
    if !act.Direct? {
      ReplayCounts(cli, dev.running, Batches(dev, act.name));
    }
  }

  lemma TypedHasText(dev: Device<int>, name: string, line: string)
    ensures HasText(Typed(dev, name, line), name)
  {
    var after := Batches(Typed(dev, name, line), name);
    assert after[|after| - 1] != [];
  }

  lemma EnteredHasText(dev: Device<int>, name: string)
    requires HasText(dev, name)
    ensures HasText(Entered(dev, name), name)
  {
    var i :| 0 <= i < |Batches(dev, name)| && Batches(dev, name)[i] != [];
    assert Batches(Entered(dev, name), name)[i] == Batches(dev, name)[i];
  }

  lemma SameText(dev: Device<int>, dev': Device<int>, x: string)
    requires Batches(dev', x) == Batches(dev, x)
    ensures HasText(dev', x) <==> HasText(dev, x)
  {
  }

  /** An act that changes nothing leaves the culprit's session loaded. */
  lemma ActKeepsLoaded(cli: Cli, dev: Device<int>, act: Act, place: Place, gone: set<string>, line: string,
                       x: Option<string>)
    requires Loaded(dev, gone, x) && !Hits(act, gone)
    ensures Loaded(Perform(Counting(cli), dev, act, place, line), GoneAfter(act, gone), x)
  {
    var dev' := Perform(Counting(cli), dev, act, place, line);
    if x.Some? {
      if !ActsOn(act, x.value) {
        OthersUntouched(Counting(cli), dev, act, place, line, x.value);
        SameText(dev, dev', x.value);
      } else if act.Types? {
        TypedHasText(dev, x.value, line);
      } else if act.Enters? && x.value !in gone {
        EnteredHasText(dev, x.value);
      }
    }
  }

  lemma {:induction false} EscapingLines(cli: Cli, dev: Device<int>, place: Place, gone: set<string>,
                                         lines: seq<string>)
    requires Escapes(cli, place, gone, lines) && Loaded(dev, gone, Culprit(cli, place, gone, lines))
    ensures ExecLines(Counting(cli), dev, place, lines).0.running > dev.running
    decreases |lines|
  {
    var x := Culprit(cli, place, gone, lines);
    var (act, next) := StepOf(cli, place, lines[0]);
    var dev' := Perform(Counting(cli), dev, act, place, lines[0]);
    if Hits(act, gone) {
      HitCounts(cli, dev, act, place, gone, lines[0], x);
      LinesCount(cli, dev', next, lines[1..]);
    } else {
      ActKeepsLoaded(cli, dev, act, place, gone, lines[0], x);
      ActCounts(cli, dev, act, place, lines[0]);
      EscapingLines(cli, dev', next, GoneAfter(act, gone), lines[1..]);
    }
  }

  // ---- both halves, for a staged body -------------------------------------------------------------

  /** Staging this body can change running-config. */
  predicate BodyEscapes(cli: Cli, name: string, cmds: seq<string>) {
    Escapes(cli, InSession(name, []), {}, cmds + ["end"])
  }

  /** Staging a body that does not escape leaves running-config alone: on every device,
      for every meaning of its lines and every outcome of the call. */
  lemma StagingLeavesRunning<C>(sem: Semantics<C>, dev: Device<C>, name: string, cmds: seq<string>, net: Net)
    requires IsToken(name) && !BodyEscapes(sem.cli, name, cmds)
    ensures Deliver(sem, dev, StageRequest(name, cmds), net).running == dev.running
  {
    if Executed(net, |cmds| + 2) == 0 {
      assert StageRequest(name, cmds)[..0] == [];
    } else {
      var rest := RequestEnters(sem, dev, name, cmds, net);
      var all := cmds + ["end"];
      PrefixParts(all, rest);
      EscapesAppend(sem.cli, InSession(name, []), {}, rest, all[|rest|..]);
      HarmlessLines(sem, WithBatch(dev, name, []), InSession(name, []), {}, rest);
    }
  }

  /** Staging a body that does escape changes running-config before any diff was looked
      at, on this device of the same CLI. */
  lemma StagingChangesRunning(cli: Cli, name: string, cmds: seq<string>) returns (dev: Device<int>)
    requires IsToken(name) && BodyEscapes(cli, name, cmds)
    ensures Deliver(Counting(cli), dev, StageRequest(name, cmds), Delivered).running != dev.running
  {
    var x := Culprit(cli, InSession(name, []), {}, cmds + ["end"]);
    var loaded := if x.Some? then x.value else "";
    dev := Device(0, map[loaded := [["x"]]], None);
    var entered := WithBatch(dev, name, []);
    var rest := RequestEnters(Counting(cli), dev, name, cmds, Delivered);
    assert Batches(entered, loaded)[0] == ["x"];
    EscapingLines(cli, entered, InSession(name, []), {}, rest);
  }

  /** So a body is safe to stage if and only if no apply whose commit never arrives can
      change running-config. */
  lemma UncommittedApply<C>(sem: Semantics<C>, dev: Device<C>, name: string, cmds: seq<string>, nets: Nets)
    requires IsToken(name) && !BodyEscapes(sem.cli, name, cmds) && !Commits(nets)
    ensures AfterApply(sem, dev, name, cmds, nets).running == dev.running
  {
    OpenEffect(sem, dev, name, nets.open);
    if !nets.open.Broken? {
      StagingLeavesRunning(sem, WithBatch(dev, name, []), name, cmds, nets.stage);
    }
    ApplyRunning(sem, dev, name, cmds, nets);
  }

  const COMMIT_LOST := Nets(Delivered, Delivered, Delivered, Broken(0))

  lemma UncommittedApplyChanges(cli: Cli, name: string, cmds: seq<string>) returns (dev: Device<int>)
    requires IsToken(name) && BodyEscapes(cli, name, cmds)
    ensures AfterApply(Counting(cli), dev, name, cmds, COMMIT_LOST).running != dev.running
  {
    var x := Culprit(cli, InSession(name, []), {}, cmds + ["end"]);
    var loaded := if x.Some? then x.value else "";
    dev := Device(0, map[loaded := [["x"]]], None);
    var afterOpen := WithBatch(dev, name, []);
    OpenEffect(Counting(cli), dev, name, Delivered);
    var entered := WithBatch(afterOpen, name, []);
    var rest := RequestEnters(Counting(cli), afterOpen, name, cmds, Delivered);
    assert Batches(entered, loaded)[0] == ["x"];
    EscapingLines(cli, entered, InSession(name, []), {}, rest);
    ApplyRunning(Counting(cli), dev, name, cmds, COMMIT_LOST);
  }

  // ---- bodies that escape, and bodies that do not -----------------------------------------------------

  lemma {:induction false} PlainWalk(cli: Cli, name: string, cmds: seq<string>)
    requires PlainBody(cli, cmds)
    ensures !Escapes(cli, InSession(name, []), {}, cmds)
    ensures Walk(cli, InSession(name, []), {}, cmds) == (InSession(name, cmds), {})
  {
    if cmds != [] {
      var n := |cmds| - 1;
      PlainPart(cli, cmds, n);
      PlainWalk(cli, name, cmds[..n]);
      EscapesAppend(cli, InSession(name, []), {}, cmds[..n], [cmds[n]]);
      EscapesOne(cli, InSession(name, cmds[..n]), {}, cmds[n]);
      Snoc(cmds);
      assert {} - {name} == {};
    }
  }

  /** A plain body escapes by what follows it, */
  lemma PlainThen(cli: Cli, name: string, before: seq<string>, rest: seq<string>)
    requires PlainBody(cli, before)
    ensures Escapes(cli, InSession(name, []), {}, before + rest) <==> Escapes(cli, InSession(name, before), {}, rest)
  {
    PlainWalk(cli, name, before);
    EscapesAppend(cli, InSession(name, []), {}, before, rest);
  }

  /** so not at all when nothing does. */
  lemma PlainDoesNotEscape(cli: Cli, name: string, cmds: seq<string>)
    requires PlainBody(cli, cmds)
    ensures !BodyEscapes(cli, name, cmds)
  {
    EndVerb(cli);
    PlainThen(cli, name, cmds, ["end"]);
    EscapesOne(cli, InSession(name, cmds), {}, "end");
  }

  /** A body whose first line to end the stay is a `commit` always escapes. */
  lemma CommitLineEscapes(cli: Cli, name: string, before: seq<string>, line: string, after: seq<string>)
    requires PlainBody(cli, before) && ConfigVerb(cli, line) == CommitHere
    ensures BodyEscapes(cli, name, before + [line] + after)
  {
    var rest := [line] + (after + ["end"]);
    Associate(before, [line], after);
    Associate(before, [line] + after, ["end"]);
    Associate([line], after, ["end"]);
    PlainThen(cli, name, before, rest);
    assert rest[0] == line;
  }

  /** After leaving the session, by `end` or by an `exit` outside every sub-mode, the rest of
      the body is read in exec mode. */
  lemma LeavingEscapes(cli: Cli, name: string, before: seq<string>, line: string, after: seq<string>)
    requires PlainBody(cli, before) && !Stays(cli, before, line)
    requires ConfigVerb(cli, line) == EndHere || ConfigVerb(cli, line) == ExitHere
    ensures BodyEscapes(cli, name, before + [line] + after) <==> Escapes(cli, Exec, {}, after + ["end"])
  {
    var rest := [line] + (after + ["end"]);
    Associate(before, [line], after);
    Associate(before, [line] + after, ["end"]);
    Associate([line], after, ["end"]);
    PlainThen(cli, name, before, rest);
    ConsParts(line, after + ["end"]);
  }

  /** There, a configuration line after `configure` changes running-config at once, */
  lemma ConfigureEscapes(cli: Cli, enter: string, line: string, after: seq<string>)
    requires ExecVerb(cli, enter) == Configure && ConfigVerb(cli, line) == Type
    ensures Escapes(cli, Exec, {}, [enter, line] + after)
  {
    var lines := [enter, line] + after;
    assert lines[1..] == [line] + after;
    ConsParts(line, after);
    assert Hits(StepOf(cli, InConfig([]), line).0, {});
  }

  /** and a commit of any session changes it too. */
  lemma CommitElsewhereEscapes(cli: Cli, line: string, after: seq<string>)
    requires ExecVerb(cli, line).Commit?
    ensures Escapes(cli, Exec, {}, [line] + after)
  {
    ConsParts(line, after);
  }

  /** Two bodies that do: this one changes the host name at once, */
  lemma HostnameEscapes(cli: Cli, name: string)
    requires ConfigVerb(cli, "hostname x") == Type
    ensures BodyEscapes(cli, name, ["end", "configure", "hostname x"])
  {
    ConfigureVerb(cli);
    EndVerb(cli);
    AfterLeavingEscapes(cli, name, "end", "configure", "hostname x");
  }

  lemma AfterLeavingEscapes(cli: Cli, name: string, leave: string, enter: string, line: string)
    requires ConfigVerb(cli, leave) == EndHere
    requires ExecVerb(cli, enter) == Configure && ConfigVerb(cli, line) == Type
    ensures BodyEscapes(cli, name, [leave, enter, line])
  {
    LeavingEscapes(cli, name, [], leave, [enter, line]);
    ConfigureEscapes(cli, enter, line, ["end"]);
    assert [] + [leave] + [enter, line] == [leave, enter, line];
  }

  lemma ConfigureVerb(cli: Cli)
    ensures ExecVerb(cli, "configure") == Configure
  {
    FieldsToken("configure");
  }

  /** and this one commits some session, by way of an `exit` at the top of its own. */
  lemma ExitEscapes(cli: Cli, name: string, other: string)
    requires !cli.inside([]) && IsToken(other)
    ensures BodyEscapes(cli, name, ["exit"] + ["configure session " + other + " commit"])
  {
    FieldsToken("exit");
    CommitVerb(cli, other);
    LeavingEscapes(cli, name, [], "exit", ["configure session " + other + " commit"]);
    CommitElsewhereEscapes(cli, "configure session " + other + " commit", ["end"]);
    AppendEmpty(["exit"]);
  }
}
