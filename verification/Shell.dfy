/** A configuration shell: what lines do, one after another, to a configuration of some
    kind, given what one line does in one mode. Each device module fills it with its own
    reading of the lines, and gets the session device over it. */
module Shell {
  import opened Seqs
  import opened Text
  import opened Eapi

  /** `step` is what a line does to the configuration, and `next` the mode it leaves the
      CLI in; the configuration has no part in that. */
  datatype Shell<!C, !M> = Shell(top: M, step: (C, M, string) -> C, next: (M, string) -> M, inside: M -> bool)

  function ModeFrom<C, M>(sh: Shell<C, M>, mode: M, lines: seq<string>): M {
    if lines == [] then mode
    else sh.next(ModeFrom(sh, mode, lines[..|lines| - 1]), lines[|lines| - 1])
  }

  function Effect<C, M>(sh: Shell<C, M>, cfg: C, mode: M, lines: seq<string>): C {
    if lines == [] then cfg
    else
      var n := |lines| - 1;
      sh.step(Effect(sh, cfg, mode, lines[..n]), ModeFrom(sh, mode, lines[..n]), lines[n])
  }

  /** A batch starts in global configuration mode. */
  function Run<C, M>(sh: Shell<C, M>, cfg: C, lines: seq<string>): C {
    Effect(sh, cfg, sh.top, lines)
  }

  lemma OneLine<C, M>(sh: Shell<C, M>, cfg: C, mode: M, line: string)
    ensures Effect(sh, cfg, mode, [line]) == sh.step(cfg, mode, line)
    ensures ModeFrom(sh, mode, [line]) == sh.next(mode, line)
  {
    assert [line][..0] == [];
    assert Effect(sh, cfg, mode, []) == cfg && ModeFrom(sh, mode, []) == mode;
  }

  lemma MoreLines<C, M>(sh: Shell<C, M>, cfg: C, mode: M, lines: seq<string>, line: string)
    ensures Effect(sh, cfg, mode, lines + [line])
         == sh.step(Effect(sh, cfg, mode, lines), ModeFrom(sh, mode, lines), line)
    ensures ModeFrom(sh, mode, lines + [line]) == sh.next(ModeFrom(sh, mode, lines), line)
  {
    SnocParts(lines, line);
  }

  lemma ThreeLines<C, M>(sh: Shell<C, M>, cfg: C, mode: M, a: string, b: string, c: string)
    ensures var m1 := sh.next(mode, a);
            var m2 := sh.next(m1, b);
            && Effect(sh, cfg, mode, [a, b, c]) == sh.step(sh.step(sh.step(cfg, mode, a), m1, b), m2, c)
            && ModeFrom(sh, mode, [a, b, c]) == sh.next(m2, c)
  {
    OneLine(sh, cfg, mode, a);
    MoreLines(sh, cfg, mode, [a], b);
    MoreLines(sh, cfg, mode, [a] + [b], c);
    assert [a] + [b] + [c] == [a, b, c];
  }

  lemma {:induction false} ModeAppend<C, M>(sh: Shell<C, M>, mode: M, a: seq<string>, b: seq<string>)
    ensures ModeFrom(sh, mode, a + b) == ModeFrom(sh, ModeFrom(sh, mode, a), b)
  {
    if b == [] {
      AppendEmpty(a);
    } else {
      AppendFront(a, b);
      ModeAppend(sh, mode, a, b[..|b| - 1]);
    }
  }

  lemma {:induction false} LinesAppend<C, M>(sh: Shell<C, M>, cfg: C, mode: M, a: seq<string>, b: seq<string>)
    ensures Effect(sh, cfg, mode, a + b) == Effect(sh, Effect(sh, cfg, mode, a), ModeFrom(sh, mode, a), b)
  {
    if b == [] {
      AppendEmpty(a);
    } else {
      AppendFront(a, b);
      LinesAppend(sh, cfg, mode, a, b[..|b| - 1]);
      ModeAppend(sh, mode, a, b[..|b| - 1]);
    }
  }

  // ---- the session device over it ----------------------------------------------------------

  /** A CLI on which the session commands are spelled out, and every other line is a
      configuration line. */
  function CliOf<C, M>(sh: Shell<C, M>): Cli {
    Cli(
      (lines: seq<string>) => sh.inside(ModeFrom(sh, sh.top, lines)),
      (line: string) => Do,
      (line: string) => Type)
  }

  /** How the device lists its configuration is left open. */
  function SemanticsOf<C, M>(sh: Shell<C, M>, show: C -> seq<string>): Semantics<C> {
    Semantics(
      CliOf(sh),
      (cfg: C, lines: seq<string>) => Run(sh, cfg, lines),
      show,
      (cfg: C, place: Place, line: string) =>
        if place.InConfig? then sh.step(cfg, ModeFrom(sh, sh.top, place.typed), line) else cfg)
  }

  /** A line that says nothing to the session machinery, or an `exit` from a sub-mode. */
  predicate IsTyped<C, M>(sh: Shell<C, M>, mode: M, line: string) {
    var words := Fields(line);
    && words != ["end"] && words != ["commit"] && words != ["abort"]
    && (words == ["exit"] ==> sh.inside(mode))
  }

  /** Lines that are typed one after another, none of which leaves the session. */
  predicate AllTyped<C, M>(sh: Shell<C, M>, mode: M, lines: seq<string>) {
    forall i :: 0 <= i < |lines| ==> IsTyped(sh, ModeFrom(sh, mode, lines[..i]), lines[i])
  }

  lemma TypedAppend<C, M>(sh: Shell<C, M>, mode: M, a: seq<string>, b: seq<string>)
    requires AllTyped(sh, mode, a) && AllTyped(sh, ModeFrom(sh, mode, a), b)
    ensures AllTyped(sh, mode, a + b)
  {
    forall i | 0 <= i < |a + b| ensures IsTyped(sh, ModeFrom(sh, mode, (a + b)[..i]), (a + b)[i]) {
      if i < |a| {
        assert (a + b)[..i] == a[..i];
      } else {
        assert (a + b)[..i] == a + b[..i - |a|];
        ModeAppend(sh, mode, a, b[..i - |a|]);
        assert IsTyped(sh, ModeFrom(sh, ModeFrom(sh, mode, a), b[..i - |a|]), b[i - |a|]);
      }
    }
  }

  lemma TypedOne<C, M>(sh: Shell<C, M>, mode: M, line: string)
    requires IsTyped(sh, mode, line)
    ensures AllTyped(sh, mode, [line])
  {
    assert [line][..0] == [];
  }

  lemma ThreeTyped<C, M>(sh: Shell<C, M>, mode: M, a: string, b: string, c: string)
    requires var m1 := sh.next(mode, a);
             var m2 := sh.next(m1, b);
             IsTyped(sh, mode, a) && IsTyped(sh, m1, b) && IsTyped(sh, m2, c)
    ensures AllTyped(sh, mode, [a, b, c])
  {
    var lines := [a, b, c];
    assert lines[..0] == [] && lines[..1] == [a] && lines[..2] == [a] + [b];
    assert ModeFrom(sh, mode, []) == mode;
    assert [a][..0] == [] && ModeFrom(sh, mode, [a]) == sh.next(mode, a);
    SnocParts([a], b);
  }

  // ---- running lines, one part after another ---------------------------------------------------

  /** The lines, all of them typed, take a configuration in one mode to another in another. */
  ghost predicate Takes<C, M>(sh: Shell<C, M>, cfg: C, mode: M, lines: seq<string>, after: C, next: M) {
    Effect(sh, cfg, mode, lines) == after && ModeFrom(sh, mode, lines) == next && AllTyped(sh, mode, lines)
  }

  lemma TakesNone<C, M>(sh: Shell<C, M>, cfg: C, mode: M)
    ensures Takes(sh, cfg, mode, [], cfg, mode)
  {
  }

  lemma TakesOne<C, M>(sh: Shell<C, M>, cfg: C, mode: M, line: string)
    requires IsTyped(sh, mode, line)
    ensures Takes(sh, cfg, mode, [line], sh.step(cfg, mode, line), sh.next(mode, line))
  {
    OneLine(sh, cfg, mode, line);
    TypedOne(sh, mode, line);
  }

  lemma TakesThen<C, M>(sh: Shell<C, M>, cfg: C, mode: M, a: seq<string>, mid: C, midMode: M, b: seq<string>, after: C,
                        next: M)
    requires Takes(sh, cfg, mode, a, mid, midMode) && Takes(sh, mid, midMode, b, after, next)
    ensures Takes(sh, cfg, mode, a + b, after, next)
  {
    LinesAppend(sh, cfg, mode, a, b);
    ModeAppend(sh, mode, a, b);
    TypedAppend(sh, mode, a, b);
  }

  lemma TypedIsPlain<C, M>(sh: Shell<C, M>, lines: seq<string>)
    requires AllTyped(sh, sh.top, lines)
    ensures PlainBody(CliOf(sh), lines)
  {
    forall i | 0 <= i < |lines| ensures Stays(CliOf(sh), lines[..i], lines[i]) {
      assert IsTyped(sh, ModeFrom(sh, sh.top, lines[..i]), lines[i]);
    }
  }

  /** One apply over a network that may break any call, on a device where earlier applies
      may have left lines in the same session: running-config is as before, or the commit
      was reached and the lines took effect on top of what was left there. */
  lemma ApplyOutcome<C, M>(sh: Shell<C, M>, show: C -> seq<string>, dev: Device<C>, session: string,
                           cmds: seq<string>, nets: Nets)
    requires IsToken(session) && cmds != [] && AllTyped(sh, sh.top, cmds)
    ensures var sem := SemanticsOf(sh, show);
            AfterApply(sem, dev, session, cmds, nets).running ==
            if Commits(nets) then Run(sh, Replay(sem, dev.running, Batches(dev, session)), cmds) else dev.running
  {
    var sem := SemanticsOf(sh, show);
    TypedIsPlain(sh, cmds);
    ApplyRunning(sem, dev, session, cmds, nets);
    ReplayEndsWith(sem, dev.running, Batches(dev, session), cmds);
  }
  /** The same, with what the lines make of the configuration that they meet. */
  lemma ApplyTakes<C, M>(sh: Shell<C, M>, show: C -> seq<string>, dev: Device<C>, session: string, cmds: seq<string>,
                         nets: Nets, after: C, next: M)
    requires IsToken(session) && cmds != []
    requires Takes(sh, Replay(SemanticsOf(sh, show), dev.running, Batches(dev, session)), sh.top, cmds, after, next)
    ensures AfterApply(SemanticsOf(sh, show), dev, session, cmds, nets).running
         == if Commits(nets) then after else dev.running
  {
    ApplyOutcome(sh, show, dev, session, cmds, nets);
  }
}
