/** RawCli: stage a body, look at the session diff, commit only when there is one. */
module RawCli {
  import opened Text
  import opened Eapi
  import opened ConfigDiff
  import Staging

  // ---- the empty-diff test ---------------------------------------------------------

  predicate IsMetadata(line: string) {
    line == "" || HasPrefix(line, "---") || HasPrefix(line, "+++")
  }

  predicate EmptyDiff(diff: string) {
    forall i :: 0 <= i < |TrimmedLines(diff)| ==> IsMetadata(TrimmedLines(diff)[i])
  }

  method IsEmptyDiff(diff: string) returns (empty: bool)
    ensures empty == EmptyDiff(diff)
  {
    var raws := Split(diff, '\n');
    for i := 0 to |raws|
      invariant forall k :: 0 <= k < i ==> IsMetadata(TrimmedLines(diff)[k])
    {
      var line := TrimSpace(raws[i]);
      assert line == TrimmedLines(diff)[i];
      if line == "" {
        continue;
      }
      if HasPrefix(line, "---") || HasPrefix(line, "+++") {
        continue;
      }
      return false;
    }
    return true;
  }

  /** A change the test takes for a header line. */
  predicate LooksLikeHeader(c: Change) {
    match c
    case Removed(line) => HasPrefix(line, "--")
    case Added(line) => HasPrefix(line, "++")
  }

  lemma {:induction false} TrimRightKeepsHead(s: string, n: nat)
    requires n <= |s| && n > 0 && !IsSpace(s[n - 1])
    ensures |TrimRight(s)| >= n
  {
    if IsSpace(s[|s| - 1]) {
      TrimRightKeepsHead(s[..|s| - 1], n);
    }
  }

  lemma SignedLine(sign: char, line: string)
    requires sign == '-' || sign == '+'
    ensures TrimSpace([sign] + line) != ""
    ensures HasPrefix(TrimSpace([sign] + line), [sign, sign, sign]) <==> HasPrefix(line, [sign, sign])
    ensures TrimSpace([sign] + line)[0] == sign
  {
    var s := [sign] + line;
    TrimRightKeepsHead(s, 1);
    var t := TrimSpace(s);
    assert t <= s;
    if HasPrefix(line, [sign, sign]) {
      assert line[0] == line[..2][0] && line[1] == line[..2][1];
      TrimRightKeepsHead(s, 3);
    }
    if |t| >= 3 {
      assert t[..3] == s[..3] == [sign] + line[..2];
      assert ([sign] + line[..2])[1..] == line[..2];
      assert [sign, sign, sign][1..] == [sign, sign];
      assert [sign] + [sign, sign] == [sign, sign, sign];
    }
  }

  lemma MetadataOfChange(c: Change)
    ensures IsMetadata(TrimSpace(ChangeLine(c))) <==> LooksLikeHeader(c)
  {
    SignedLine(if c.Removed? then '-' else '+', c.line);
    var t := TrimSpace(ChangeLine(c));
    if c.Removed? {
      NoPrefix(t, "+++", 0);
    } else {
      NoPrefix(t, "---", 0);
    }
  }

  predicate NoNewlines(lines: seq<string>) {
    forall i :: 0 <= i < |lines| ==> '\n' !in lines[i]
  }

  lemma {:induction false} ChangesOneLine(a: seq<string>, b: seq<string>)
    requires NoNewlines(a) && NoNewlines(b)
    ensures forall i :: 0 <= i < |Changes(a, b)| ==> '\n' !in Changes(a, b)[i].line
    decreases |a| + |b|
  {
    if a != [] && b != [] && a[0] == b[0] {
      ChangesOneLine(a[1..], b[1..]);
    } else if a != [] {
      ChangesOneLine(a[1..], b);
    } else if b != [] {
      ChangesOneLine(a, b[1..]);
    }
  }

  lemma LinesTrimmed(lines: seq<string>)
    requires lines != [] && NoNewlines(lines)
    ensures var seen := TrimmedLines(Join(lines, "\n"));
            |seen| == |lines| && forall i :: 0 <= i < |lines| ==> seen[i] == TrimSpace(lines[i])
  {
    SplitJoin(lines, '\n');
  }

  lemma ShownUnderHeaders(first: string, second: string, cs: seq<Change>)
    requires '\n' !in first && '\n' !in second && forall i :: 0 <= i < |cs| ==> '\n' !in cs[i].line
    ensures NoNewlines([first, second] + ChangeLines(cs))
  {
    var lines := [first, second] + ChangeLines(cs);
    forall i | 0 <= i < |lines| ensures '\n' !in lines[i] {
      if i >= 2 {
        assert lines[i] == ChangeLine(cs[i - 2]);
      }
    }
  }

  lemma SeenLines(first: string, second: string, cs: seq<Change>, lines: seq<string>)
    requires lines == [first, second] + ChangeLines(cs) && NoNewlines(lines)
    ensures var seen := TrimmedLines(Join(lines, "\n"));
            && |seen| == |cs| + 2 && seen[0] == TrimSpace(first) && seen[1] == TrimSpace(second)
            && forall i :: 0 <= i < |cs| ==> seen[i + 2] == TrimSpace(ChangeLine(cs[i]))
  {
    LinesTrimmed(lines);
    forall i | 0 <= i < |cs| ensures lines[i + 2] == ChangeLine(cs[i]) {
    }
  }

  lemma HeadersAreMetadata() returns (first: string, second: string)
    ensures first == OLD_HEADER && second == NEW_HEADER
    ensures '\n' !in first && IsTrimmed(first) && IsMetadata(first)
    ensures '\n' !in second && IsTrimmed(second) && IsMetadata(second)
  {
    first, second := OLD_HEADER, NEW_HEADER;
    assert HasPrefix(OLD_HEADER, "---");
    assert HasPrefix(NEW_HEADER, "+++");
  }

  lemma AllAfterTwo<S, T>(seen: seq<S>, cs: seq<T>, p: S -> bool, q: T -> bool)
    requires |seen| == |cs| + 2 && p(seen[0]) && p(seen[1])
    requires forall i :: 0 <= i < |cs| ==> p(seen[i + 2]) == q(cs[i])
    ensures (forall k :: 0 <= k < |seen| ==> p(seen[k])) <==> forall i :: 0 <= i < |cs| ==> q(cs[i])
  {
    if forall i :: 0 <= i < |cs| ==> q(cs[i]) {
      forall k | 2 <= k < |seen| ensures p(seen[k]) {
        assert p(seen[(k - 2) + 2]) == q(cs[k - 2]);
      }
    }
  }

  lemma EmptyUnderHeaders(first: string, second: string, cs: seq<Change>)
    requires '\n' !in first && '\n' !in second && forall i :: 0 <= i < |cs| ==> '\n' !in cs[i].line
    requires IsTrimmed(first) && IsMetadata(first) && IsTrimmed(second) && IsMetadata(second)
    ensures EmptyDiff(Join([first, second] + ChangeLines(cs), "\n"))
       <==> forall i :: 0 <= i < |cs| ==> LooksLikeHeader(cs[i])
  {
    var lines := [first, second] + ChangeLines(cs);
    var seen := TrimmedLines(Join(lines, "\n"));
    ShownUnderHeaders(first, second, cs);
    SeenLines(first, second, cs, lines);
    forall i | 0 <= i < |cs| ensures IsMetadata(seen[i + 2]) == LooksLikeHeader(cs[i]) {
      MetadataOfChange(cs[i]);
    }
    AllAfterTwo(seen, cs, IsMetadata, LooksLikeHeader);
  }

  lemma PrintedUnder(a: seq<string>, b: seq<string>) returns (first: string, second: string)
    ensures '\n' !in first && IsTrimmed(first) && IsMetadata(first)
    ensures '\n' !in second && IsTrimmed(second) && IsMetadata(second)
    ensures Print(a, b) == Join([first, second] + ChangeLines(Changes(a, b)), "\n")
  {
    first, second := HeadersAreMetadata();
  }

  /** Exactly when the test calls a session diff empty: every changed line looks
      like a header. */
  lemma EmptyDiffExactly(a: seq<string>, b: seq<string>)
    requires NoNewlines(a) && NoNewlines(b)
    ensures EmptyDiff(Print(a, b)) <==> forall i :: 0 <= i < |Changes(a, b)| ==> LooksLikeHeader(Changes(a, b)[i])
  {
    var first, second := PrintedUnder(a, b);
    ChangesOneLine(a, b);
    EmptyUnderHeaders(first, second, Changes(a, b));
  }

  /** No line of the listing starts like a diff header. */
  predicate PlainListing(lines: seq<string>) {
    forall i :: 0 <= i < |lines| ==> !HasPrefix(lines[i], "--") && !HasPrefix(lines[i], "++")
  }

  lemma {:induction false} ChangesPlain(a: seq<string>, b: seq<string>)
    requires PlainListing(a) && PlainListing(b)
    ensures forall i :: 0 <= i < |Changes(a, b)| ==> !LooksLikeHeader(Changes(a, b)[i])
    decreases |a| + |b|
  {
    if a != [] && b != [] && a[0] == b[0] {
      ChangesPlain(a[1..], b[1..]);
    } else if a != [] {
      ChangesPlain(a[1..], b);
    } else if b != [] {
      ChangesPlain(a, b[1..]);
    }
  }

  /** On such listings an empty diff means no change. */
  lemma EmptyDiffMeansSame(a: seq<string>, b: seq<string>)
    requires NoNewlines(a) && NoNewlines(b)
    requires PlainListing(a) && PlainListing(b)
    ensures EmptyDiff(Print(a, b)) <==> a == b
  {
    EmptyDiffExactly(a, b);
    ChangesPlain(a, b);
    if a != b {
      assert !LooksLikeHeader(Changes(a, b)[0]);
    }
  }

  /** Without that the test is fooled: removing a line `--x` passes for no change. */
  lemma HeaderLookalikeIsMissed()
    ensures EmptyDiff(Print(["--x"], []))
  {
    var a: seq<string>, b: seq<string> := ["--x"], [];
    assert Changes(a[1..], b) == [];
    assert Changes(a, b) == [Removed("--x")];
    assert HasPrefix("--x", "--");
    EmptyDiffExactly(a, b);
  }

  // ---- the apply flow ------------------------------------------------------------------

  /** `diff` is the committed diff, whose digest is kept in state. */
  datatype Outcome<C> = Outcome(dev: Device<C>, diff: string, empty: bool, ok: bool)

  function SeenDiff<C>(sem: Semantics<C>, dev: Device<C>, name: string, net: Net): string {
    match (if net.Delivered? then TextOutput(sem, dev, DiffRequest(name)) else None)
    case Some(text) => text
    case None => ""
  }

  function AfterRawCli<C>(sem: Semantics<C>, dev: Device<C>, name: string, cmds: seq<string>, nets: Nets): Outcome<C> {
    var d1 := Deliver(sem, dev, OpenRequest(name), nets.open);
    if nets.open.Broken? then Outcome(d1, "", false, false)
    else
      var d2 := Deliver(sem, d1, StageRequest(name, cmds), nets.stage);
      if nets.stage.Broken? then Outcome(Deliver(sem, d2, AbortRequest(name), nets.close), "", false, false)
      else
        var d3 := Deliver(sem, d2, DiffRequest(name), nets.diff);
        if nets.diff.Broken? then Outcome(Deliver(sem, d3, AbortRequest(name), nets.close), "", false, false)
        else
          var diff := SeenDiff(sem, d2, name, nets.diff);
          if EmptyDiff(diff) then
            Outcome(Deliver(sem, d3, AbortRequest(name), nets.close), "", true, !nets.close.Broken?)
          else
            Outcome(Deliver(sem, d3, CommitRequest(name), nets.close),
                    if nets.close.Broken? then "" else diff, false, !nets.close.Broken?)
  }

  /** The error of an apply: none exactly when no call broke, the one that broke, or the two
      that did when the abort after a failure breaks as well. */
  function ReportOf(nets: Nets): Option<Error> {
    if nets.open.Broken? then Some(Rpc)
    else if nets.stage.Broken? || nets.diff.Broken? then
      if nets.close.Broken? then Some(Joined(Rpc, Rpc)) else Some(Rpc)
    else if nets.close.Broken? then Some(Rpc)
    else None
  }

  /** No call that an apply makes is broken: each is made only when those before went
      through, and the last one always. */
  predicate NoneBroken(nets: Nets) {
    !nets.open.Broken? && !nets.stage.Broken? && !nets.diff.Broken? && !nets.close.Broken?
  }

  /** Whatever fails, the session it opened is closed and the slot is free on
      return. */
  method ApplyRawCli<C>(cli: Client<C>, name: string, cmds: seq<string>, nets: Nets)
    returns (diff: string, empty: bool, err: Option<Error>, ghost sess: Session?<C>)
    requires cli.slot == 0
    modifies cli, cli.node
    ensures cli.slot == 0
    ensures sess != null ==> fresh(sess) && !sess.open
    ensures name == "" ==> err == Some(SessionNameRequired) && cli.node.dev == old(cli.node.dev)
    ensures name != "" ==>
              Outcome(cli.node.dev, diff, empty, err == None)
              == AfterRawCli(cli.node.sem, old(cli.node.dev), name, cmds, nets)
    ensures name != "" ==> err == ReportOf(nets)
  {
    var s, openErr := cli.OpenSession(name, nets.open);
    sess := s;
    if openErr.Some? {
      return "", false, openErr, sess;
    }
    var stageErr := s.Stage(cmds, nets.stage);
    if stageErr.Some? {
      var abortErr := s.Abort(nets.close);
      if abortErr.Some? {
        return "", false, Some(Joined(stageErr.value, abortErr.value)), sess;
      }
      return "", false, stageErr, sess;
    }
    var text, diffErr := s.Diff(nets.diff);
    if diffErr.Some? {
      var abortErr := s.Abort(nets.close);
      if abortErr.Some? {
        return "", false, Some(Joined(diffErr.value, abortErr.value)), sess;
      }
      return "", false, diffErr, sess;
    }
    var noChange := IsEmptyDiff(text);
    if noChange {
      var abortErr := s.Abort(nets.close);
      if abortErr.Some? {
        return "", true, abortErr, sess;
      }
      return "", true, None, sess;
    }
    var commitErr := s.Commit(nets.close);
    if commitErr.Some? {
      return "", false, commitErr, sess;
    }
    return text, false, None, sess;
  }

  /** The commit call reaches the device. */
  predicate RawCliCommits<C>(sem: Semantics<C>, dev: Device<C>, name: string, cmds: seq<string>, nets: Nets) {
    && Commits(nets)
    && !nets.diff.Broken?
    && !EmptyDiff(SeenDiff(sem, Staged(sem, dev, name, cmds, nets), name, nets.diff))
  }

  /** Past staging, running-config changes exactly when the commit is reached, which
      needs a complete stage and a visible difference, and then it becomes the
      candidate: for every body. For a plain one staging changes nothing. */
  lemma RawCliEffect<C>(sem: Semantics<C>, dev: Device<C>, name: string, cmds: seq<string>, nets: Nets)
    requires IsToken(name)
    ensures var after, staged := AfterRawCli(sem, dev, name, cmds, nets), Staged(sem, dev, name, cmds, nets);
            && after.dev.running ==
               (if RawCliCommits(sem, dev, name, cmds, nets) then Candidate(sem, staged, name) else staged.running)
            && (after.empty ==> !RawCliCommits(sem, dev, name, cmds, nets))
            && (after.ok ==> name !in after.dev.pending)
    ensures PlainBody(sem.cli, cmds) ==>
              AfterRawCli(sem, dev, name, cmds, nets).dev.running ==
              (if RawCliCommits(sem, dev, name, cmds, nets)
               then Replay(sem, dev.running, Batches(dev, name) + [[], cmds]) else dev.running)
  {
    var staged := Staged(sem, dev, name, cmds, nets);
    DiffEffect(sem, staged, name, nets.diff);
    AbortEffect(sem, staged, name, nets.close);
    CommitEffect(sem, staged, name, nets.close);
    if PlainBody(sem.cli, cmds) {
      StagedPlainly(sem, dev, name, cmds, nets);
    }
  }

  /** What the diff call is answered with: the difference between running-config and the
      session's candidate at that moment, or no text. */
  function Answer<C>(sem: Semantics<C>, staged: Device<C>, name: string, net: Net): string {
    if net.Delivered? then DiffOf(sem, staged, name) else ""
  }

  /** What an apply reports. It succeeds exactly when no call broke. Then either it reports
      "empty", because the device's answer shows no change, has dropped the session and put
      nothing in force; or it has put the candidate in force and returns the difference that
      this made. Short of success it returns no difference. */
  lemma RawCliReport<C>(sem: Semantics<C>, dev: Device<C>, name: string, cmds: seq<string>, nets: Nets)
    requires IsToken(name)
    ensures var after, staged := AfterRawCli(sem, dev, name, cmds, nets), Staged(sem, dev, name, cmds, nets);
            var answer := Answer(sem, staged, name, nets.diff);
            && (after.ok <==> NoneBroken(nets))
            && (after.ok <==> ReportOf(nets) == None)
            && (after.empty <==>
                  !nets.open.Broken? && !nets.stage.Broken? && !nets.diff.Broken? && EmptyDiff(answer))
            && (after.ok && after.empty ==> after.dev == Dropped(staged, name) && after.diff == "")
            && (after.ok && !after.empty ==>
                  && RawCliCommits(sem, dev, name, cmds, nets)
                  && after.dev == Committed(sem, staged, name)
                  && after.diff == DiffOf(sem, staged, name))
            && (!after.ok ==> after.diff == "")
  {
    var staged := Staged(sem, dev, name, cmds, nets);
    DiffEffect(sem, staged, name, nets.diff);
    AbortEffect(sem, staged, name, nets.close);
    CommitEffect(sem, staged, name, nets.close);
    NoTextIsEmpty();
  }

  /** The body has an idempotent effect. */
  ghost predicate Idempotent<C(!new)>(sem: Semantics<C>, cmds: seq<string>) {
    forall c: C :: sem.run(sem.run(c, cmds), cmds) == sem.run(c, cmds)
  }

  /** When the three calls go through, "empty" is reported exactly when the device
      shows no difference once the body is staged, provided it answers the diff call
      with text and no listed line looks like a diff header. */
  lemma EmptyExactlyWhenConverged<C>(sem: Semantics<C>, dev: Device<C>, name: string, cmds: seq<string>, nets: Nets)
    requires IsToken(name)
    requires !nets.open.Broken? && !nets.stage.Broken? && !nets.diff.Broken?
    requires var staged := Staged(sem, dev, name, cmds, nets);
             var wanted, listed := sem.show(Candidate(sem, staged, name)), sem.show(staged.running);
             NoNewlines(listed) && NoNewlines(wanted) && PlainListing(listed) && PlainListing(wanted)
    ensures var staged := Staged(sem, dev, name, cmds, nets);
            AfterRawCli(sem, dev, name, cmds, nets).empty <==>
              nets.diff.Mute? || sem.show(Candidate(sem, staged, name)) == sem.show(staged.running)
  {
    var staged := Staged(sem, dev, name, cmds, nets);
    DiffEffect(sem, staged, name, nets.diff);
    EmptyDiffMeansSame(sem.show(staged.running), sem.show(Candidate(sem, staged, name)));
    NoTextIsEmpty();
  }

  lemma CommitExec<C>(sem: Semantics<C>, dev: Device<C>, name: string, typed: seq<string>)
    ensures ExecLines(sem, dev, InSession(name, typed), ["commit"]) == (Committed(sem, dev, name), Exec)
  {
    CommitHereStep(sem.cli, name, typed);
    ExecLinesOne(sem, dev, InSession(name, typed), "commit");
  }

  lemma CommitHereStep(cli: Cli, name: string, typed: seq<string>)
    ensures StepOf(cli, InSession(name, typed), "commit") == (Installs(name), Exec)
  {
    CommitHereVerb(cli);
  }

  lemma EndInExec<C>(sem: Semantics<C>, dev: Device<C>)
    ensures ExecLines(sem, dev, Exec, ["end"]) == (dev, Exec)
  {
    EndVerb(sem.cli);
    ExecLinesOne(sem, dev, Exec, "end");
  }

  lemma CommitThenEnd<C>(sem: Semantics<C>, dev: Device<C>, name: string, typed: seq<string>)
    ensures ExecLines(sem, dev, InSession(name, typed), ["commit"] + ["end"]).0 == Committed(sem, dev, name)
  {
    CommitExec(sem, dev, name, typed);
    EndInExec(sem, Committed(sem, dev, name));
    ExecLinesAppend(sem, dev, InSession(name, typed), ["commit"], ["end"]);
  }

  lemma CommitHereVerb(cli: Cli)
    ensures ConfigVerb(cli, "commit") == CommitHere
  {
    FieldsToken("commit");
  }

  /** A body line `commit` takes effect while the body is being staged, before any
      diff is looked at: such a body is not applied atomically. */
  lemma CommitLineCommits<C>(sem: Semantics<C>, dev: Device<C>, name: string, before: seq<string>)
    requires IsToken(name) && PlainBody(sem.cli, before)
    ensures Deliver(sem, dev, StageRequest(name, before + ["commit"]), Delivered).running
         == Replay(sem, dev.running, Batches(dev, name) + [before])
  {
    var lines := StageRequest(name, before + ["commit"]);
    assert lines[..|lines|] == ["configure session " + name] + (before + (["commit"] + ["end"]));
    EnterAndType(sem, dev, name, before, ["commit"] + ["end"]);
    CommitThenEnd(sem, WithBatch(dev, name, before), name, before);
  }

  /** A body that changes nothing, on top of what the session still held: empty diff, no
      commit, and running-config as staging left it, which for a plain body is as before. */
  lemma ConvergedIsNoOp<C>(sem: Semantics<C>, dev: Device<C>, name: string, cmds: seq<string>, nets: Nets)
    requires IsToken(name)
    requires var staged := Staged(sem, dev, name, cmds, nets);
             Candidate(sem, staged, name) == staged.running && NoNewlines(sem.show(staged.running))
    requires !nets.open.Broken? && !nets.stage.Broken? && !nets.diff.Broken?
    ensures var after, staged := AfterRawCli(sem, dev, name, cmds, nets), Staged(sem, dev, name, cmds, nets);
            && after.empty && after.dev.running == staged.running
            && (PlainBody(sem.cli, cmds) ==> after.dev.running == dev.running)
  {
    var staged := Staged(sem, dev, name, cmds, nets);
    RawCliEffect(sem, dev, name, cmds, nets);
    DiffEffect(sem, staged, name, nets.diff);
    EmptyDiffExactly(sem.show(staged.running), sem.show(staged.running));
    NoTextIsEmpty();
    assert EmptyDiff(SeenDiff(sem, staged, name, nets.diff));
  }

  lemma NoTextIsEmpty()
    ensures EmptyDiff("")
  {
    SplitNone("", '\n');
  }

  /** What a batch does, the body undoes or does itself. */
  ghost predicate Absorbs<C(!new)>(sem: Semantics<C>, cmds: seq<string>, batch: seq<string>) {
    batch == [] || forall c: C :: sem.run(sem.run(c, batch), cmds) == sem.run(c, cmds)
  }

  /** Leftovers that the body absorbs do not show. */
  lemma {:induction false} LeftoversAbsorbed<C(!new)>(sem: Semantics<C>, c: C, batches: seq<seq<string>>,
                                               cmds: seq<string>)
    requires cmds != []
    requires forall i :: 0 <= i < |batches| ==> Absorbs(sem, cmds, batches[i])
    ensures sem.run(Replay(sem, c, batches), cmds) == sem.run(c, cmds)
  {
    if batches != [] {
      var n := |batches| - 1;
      assert forall i :: 0 <= i < n ==> batches[..n][i] == batches[i];
      LeftoversAbsorbed(sem, c, batches[..n], cmds);
      assert Absorbs(sem, cmds, batches[n]);
    }
  }

  /** Applying a body with an idempotent effect a second time is a no-op: it
      reports an empty diff, commits nothing and leaves running-config alone. The
      second session may resume leftovers, as long as the body absorbs them. */
  lemma ReapplyIsNoOp<C(!new)>(sem: Semantics<C>, dev: Device<C>, first: string, second: string, cmds: seq<string>,
                        nets: Nets, again: Nets)
    requires IsToken(first) && IsToken(second) && PlainBody(sem.cli, cmds) && cmds != []
    requires Idempotent(sem, cmds)
    requires RawCliCommits(sem, dev, first, cmds, nets)
    requires var left := Batches(AfterRawCli(sem, dev, first, cmds, nets).dev, second);
             forall i :: 0 <= i < |left| ==> Absorbs(sem, cmds, left[i])
    requires NoNewlines(sem.show(AfterRawCli(sem, dev, first, cmds, nets).dev.running))
    requires !again.open.Broken? && !again.stage.Broken? && !again.diff.Broken?
    ensures var after := AfterRawCli(sem, dev, first, cmds, nets).dev;
            var twice := AfterRawCli(sem, after, second, cmds, again);
            twice.empty && twice.dev.running == after.running
  {
    var after := AfterRawCli(sem, dev, first, cmds, nets).dev;
    var c := Replay(sem, dev.running, Batches(dev, first));
    RawCliEffect(sem, dev, first, cmds, nets);
    ReplayEndsWith(sem, dev.running, Batches(dev, first), cmds);
    assert sem.run(sem.run(c, cmds), cmds) == sem.run(c, cmds);
    LeftoversAbsorbed(sem, after.running, Batches(after, second), cmds);
    ReplayEndsWith(sem, after.running, Batches(after, second), cmds);
    StagedPlainly(sem, after, second, cmds, again);
    ConvergedIsNoOp(sem, after, second, cmds, again);
  }

  /** A diff call that is answered without text counts as an empty diff: the body is
      dropped and reported as no change, whatever it would have changed. */
  lemma SilentDiffDropsBody<C>(sem: Semantics<C>, dev: Device<C>, name: string, cmds: seq<string>, nets: Nets)
    requires IsToken(name)
    requires !nets.open.Broken? && !nets.stage.Broken? && nets.diff.Mute? && !nets.close.Broken?
    ensures var after, staged := AfterRawCli(sem, dev, name, cmds, nets), Staged(sem, dev, name, cmds, nets);
            && after.empty && after.ok && after.dev.running == staged.running && name !in after.dev.pending
            && (PlainBody(sem.cli, cmds) ==> after.dev.running == dev.running)
  {
    RawCliEffect(sem, dev, name, cmds, nets);
    NoTextIsEmpty();
  }

  // ---- only plain bodies ---------------------------------------------------------------

  /** A device that remembers every batch put in force. */
  function Logging(cli: Cli): Semantics<seq<seq<string>>> {
    Semantics(
      cli,
      (c: seq<seq<string>>, batch: seq<string>) => c + [batch],
      (c: seq<seq<string>>) => if c == [] then [] else ["changed"],
      (c: seq<seq<string>>, place: Place, line: string) => c)
  }

  const UNTOUCHED: Device<seq<seq<string>>> := Device([], map[], None)

  predicate AllPlain(cli: Cli, batches: seq<seq<string>>) {
    forall i :: 0 <= i < |batches| ==> PlainBody(cli, batches[i])
  }

  /** Whatever was typed was meant for its session: other lines act instead of being
      typed. */
  ghost predicate PlainDevice(cli: Cli, dev: Device<seq<seq<string>>>) {
    AllPlain(cli, dev.running) && forall n :: AllPlain(cli, Batches(dev, n))
  }

  lemma {:induction false} LoggedPlain(cli: Cli, c: seq<seq<string>>, batches: seq<seq<string>>)
    requires AllPlain(cli, c) && AllPlain(cli, batches)
    ensures AllPlain(cli, Replay(Logging(cli), c, batches))
  {
    if batches != [] {
      var n := |batches| - 1;
      assert forall i :: 0 <= i < n ==> batches[..n][i] == batches[i];
      LoggedPlain(cli, c, batches[..n]);
    }
  }

  lemma RunningStaysPlain(cli: Cli, dev: Device<seq<seq<string>>>, place: Place, line: string)
    requires PlainDevice(cli, dev)
    ensures AllPlain(cli, ExecLine(Logging(cli), dev, place, line).0.running)
  {
    var act := StepOf(cli, place, line).0;
    if act.Installs? || act.InstallsForNow? {
      LoggedPlain(cli, dev.running, Batches(dev, act.name));
    }
  }

  lemma TypedStaysPlain(cli: Cli, batches: seq<seq<string>>, line: string)
    requires AllPlain(cli, batches) && batches != [] && Stays(cli, batches[|batches| - 1], line)
    ensures AllPlain(cli, batches[..|batches| - 1] + [batches[|batches| - 1] + [line]])
  {
    Staging.PlainMore(cli, batches[|batches| - 1], line);
  }

  lemma BatchesStayPlain(cli: Cli, dev: Device<seq<seq<string>>>, place: Place, line: string, n: string)
    requires PlainDevice(cli, dev) && Staging.Follows(dev, place)
    ensures AllPlain(cli, Batches(ExecLine(Logging(cli), dev, place, line).0, n))
  {
    var act := StepOf(cli, place, line).0;
    assert AllPlain(cli, Batches(dev, n));
    if !Staging.ActsOn(act, n) {
      Staging.OthersUntouched(Logging(cli), dev, act, place, line, n);
    } else if act.Types? {
      TypedStaysPlain(cli, Batches(dev, n), line);
    }
  }

  lemma {:induction false} LinesKeepPlain(cli: Cli, dev: Device<seq<seq<string>>>, place: Place, lines: seq<string>)
    requires PlainDevice(cli, dev) && Staging.Follows(dev, place)
    ensures PlainDevice(cli, ExecLines(Logging(cli), dev, place, lines).0)
    decreases |lines|
  {
    if lines != [] {
      var (dev', place') := ExecLine(Logging(cli), dev, place, lines[0]);
      RunningStaysPlain(cli, dev, place, lines[0]);
      forall n ensures AllPlain(cli, Batches(dev', n)) {
        BatchesStayPlain(cli, dev, place, lines[0], n);
      }
      Staging.LineFollows(Logging(cli), dev, place, lines[0]);
      LinesKeepPlain(cli, dev', place', lines[1..]);
    }
  }

  const ALL_DELIVERED := Nets(Delivered, Delivered, Delivered, Delivered)

  lemma ApplyKeepsPlain(cli: Cli, name: string, cmds: seq<string>)
    ensures PlainDevice(cli, AfterRawCli(Logging(cli), UNTOUCHED, name, cmds, ALL_DELIVERED).dev)
    ensures PlainDevice(cli, AfterApply(Logging(cli), UNTOUCHED, name, cmds, ALL_DELIVERED))
  {
    forall dev: Device<seq<seq<string>>>, lines: seq<string> | PlainDevice(cli, dev)
      ensures PlainDevice(cli, Deliver(Logging(cli), dev, lines, Delivered))
    {
      LinesKeepPlain(cli, dev, Exec, lines[..|lines|]);
    }
  }

  lemma BodyLogged(cli: Cli, name: string, cmds: seq<string>)
    requires cmds != []
    ensures Replay(Logging(cli), [], Batches(UNTOUCHED, name) + [[], cmds]) == [cmds]
  {
    ReplayEndsWith(Logging(cli), [], Batches(UNTOUCHED, name), cmds);
  }

  /** Staged whole, any body would show a difference here. */
  lemma DifferenceShown(cli: Cli, name: string, cmds: seq<string>)
    requires IsToken(name) && cmds != []
    ensures !EmptyDiff(SeenDiff(Logging(cli), StagedDevice(UNTOUCHED, name, cmds, Delivered), name, Delivered))
  {
    var staged := StagedDevice(UNTOUCHED, name, cmds, Delivered);
    BodyLogged(cli, name, cmds);
    StagedCompletely(UNTOUCHED, name, cmds, Delivered);
    DiffEffect(Logging(cli), staged, name, Delivered);
    assert Candidate(Logging(cli), staged, name) == [cmds];
    ChangedListing("changed");
    EmptyDiffMeansSame([], ["changed"]);
  }

  lemma ChangedListing(line: string)
    requires line == "changed"
    ensures PlainListing([line]) && PlainListing([]) && NoNewlines([line]) && NoNewlines([])
  {
    NoPrefix(line, "--", 0);
    NoPrefix(line, "++", 0);
  }

  /** What RawCliEffect and ApplyRunning promise for plain bodies fails for every other
      body: on this device of the same CLI, with every call going through, the body
      staged whole would show a difference and be committed, but neither flow puts it
      in force. */
  lemma OtherBodiesDiffer(cli: Cli, name: string, cmds: seq<string>)
    requires IsToken(name) && !PlainBody(cli, cmds)
    ensures !EmptyDiff(SeenDiff(Logging(cli), StagedDevice(UNTOUCHED, name, cmds, Delivered), name, Delivered))
    ensures Commits(ALL_DELIVERED)
    ensures var wanted := Replay(Logging(cli), [], Batches(UNTOUCHED, name) + [[], cmds]);
            && AfterRawCli(Logging(cli), UNTOUCHED, name, cmds, ALL_DELIVERED).dev.running != wanted
            && AfterApply(Logging(cli), UNTOUCHED, name, cmds, ALL_DELIVERED).running != wanted
  {
    DifferenceShown(cli, name, cmds);
    BodyLogged(cli, name, cmds);
    ApplyKeepsPlain(cli, name, cmds);
    assert [cmds][0] == cmds;
  }
}
