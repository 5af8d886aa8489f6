/** Configlets: a body of CLI lines, canonicalised, then committed as one session. */
module Configlet {
  import opened Seqs
  import opened Sorting
  import opened Text
  import opened Eapi

  // ---- canonical lines ------------------------------------------------------------

  predicate IsTrailing(c: char) {
    c == ' ' || c == '\t' || c == '\r'
  }

  /** `strings.TrimRight(s, " \t\r")`. */
  function CutTrailing(s: string): (r: string)
    ensures r <= s
    ensures r != "" ==> !IsTrailing(r[|r| - 1])
  {
    if s != "" && IsTrailing(s[|s| - 1]) then CutTrailing(s[..|s| - 1]) else s
  }

  predicate IsBlank(s: string) {
    TrimSpace(s) == ""
  }

  /** The line a raw line contributes, if any. */
  function Kept(raw: string): seq<string> {
    var line := CutTrailing(raw);
    if IsBlank(line) then [] else [line]
  }

  function KeptLines(raws: seq<string>): seq<string> {
    Collect(raws, Kept)
  }

  function CanonicalLines(body: string): seq<string> {
    KeptLines(Split(body, '\n'))
  }

  method CanonicalConfigletLines(body: string) returns (out: seq<string>)
    ensures out == CanonicalLines(body)
  {
    out := [];
    var raws := Split(body, '\n');
    for i := 0 to |raws|
      invariant out == KeptLines(raws[..i])
    {
      TakeSnoc(raws, i);
      CollectSnoc(raws[..i], raws[i], Kept);
      var line := CutTrailing(raws[i]);
      if TrimSpace(line) == "" {
        continue;
      }
      out := out + [line];
    }
    TakeAll(raws);
  }

  /** A line that canonicalisation keeps as it is. */
  predicate IsCanonical(line: string) {
    '\n' !in line && Kept(line) == [line]
  }

  lemma {:induction false} CutTrailingTwice(s: string)
    ensures CutTrailing(CutTrailing(s)) == CutTrailing(s)
  {
    if s != "" && IsTrailing(s[|s| - 1]) {
      CutTrailingTwice(s[..|s| - 1]);
    }
  }

  lemma KeptIsCanonical(raw: string)
    requires '\n' !in raw
    ensures forall i :: 0 <= i < |Kept(raw)| ==> IsCanonical(Kept(raw)[i])
  {
    CutTrailingTwice(raw);
    var line := CutTrailing(raw);
    assert forall i :: 0 <= i < |line| ==> line[i] == raw[i];
  }

  lemma {:induction false} KeptAreCanonical(raws: seq<string>)
    requires forall i :: 0 <= i < |raws| ==> '\n' !in raws[i]
    ensures forall i :: 0 <= i < |KeptLines(raws)| ==> IsCanonical(KeptLines(raws)[i])
  {
    if raws != [] {
      KeptAreCanonical(raws[..|raws| - 1]);
      KeptIsCanonical(raws[|raws| - 1]);
      assert KeptLines(raws) == KeptLines(raws[..|raws| - 1]) + Kept(raws[|raws| - 1]);
    }
  }

  lemma {:induction false} CanonicalAreKept(lines: seq<string>)
    requires forall i :: 0 <= i < |lines| ==> IsCanonical(lines[i])
    ensures KeptLines(lines) == lines
  {
    if lines != [] {
      var n := |lines| - 1;
      CanonicalAreKept(lines[..n]);
      assert IsCanonical(lines[n]);
      Snoc(lines);
    }
  }

  /** Canonical lines, joined into a body, are their own canonical lines. */
  lemma CanonicalFixed(lines: seq<string>)
    requires forall i :: 0 <= i < |lines| ==> IsCanonical(lines[i])
    ensures CanonicalLines(Join(lines, "\n")) == lines
  {
    if lines == [] {
      SplitNone("", '\n');
      CollectOne("", Kept);
    } else {
      forall i | 0 <= i < |lines| ensures '\n' !in lines[i] {
        assert IsCanonical(lines[i]);
      }
      SplitJoin(lines, '\n');
      CanonicalAreKept(lines);
    }
  }

  /** Canonicalisation is idempotent through the text it hashes. */
  lemma CanonicalIdempotent(body: string)
    ensures CanonicalLines(Join(CanonicalLines(body), "\n")) == CanonicalLines(body)
  {
    KeptAreCanonical(Split(body, '\n'));
    CanonicalFixed(CanonicalLines(body));
  }

  /** Two bodies hash the same text exactly when they stage the same commands. */
  lemma SameHashInputSameCommands(a: string, b: string)
    ensures Join(CanonicalLines(a), "\n") == Join(CanonicalLines(b), "\n") <==> CanonicalLines(a) == CanonicalLines(b)
  {
    CanonicalIdempotent(a);
    CanonicalIdempotent(b);
  }

  lemma {:induction false} CutTrailingAppend(line: string, trail: string)
    requires forall i :: 0 <= i < |trail| ==> IsTrailing(trail[i])
    ensures CutTrailing(line + trail) == CutTrailing(line)
  {
    if trail == "" {
      AppendEmpty(line);
    } else {
      AppendFront(line, trail);
      CutTrailingAppend(line, trail[..|trail| - 1]);
    }
  }

  lemma {:induction false} AllSpaceIsBlank(s: string)
    requires forall i :: 0 <= i < |s| ==> IsSpace(s[i])
    ensures IsBlank(s)
  {
    if s != "" {
      AllSpaceIsBlank(s[1..]);
    }
  }

  lemma CanonicalOfSplit(before: string, after: string)
    ensures CanonicalLines(before + ['\n'] + after) == CanonicalLines(before) + CanonicalLines(after)
  {
    SplitAppend(before, '\n', after);
    CollectAppend(Split(before, '\n'), Split(after, '\n'), Kept);
  }

  lemma CanonicalOfLine(line: string, after: string)
    requires '\n' !in line
    ensures CanonicalLines(line + ['\n'] + after) == KeptLines([line]) + CanonicalLines(after)
  {
    SplitAt(line, '\n', after);
    CollectAppend([line], Split(after, '\n'), Kept);
  }

  lemma KeptBlank(blank: string)
    requires forall i :: 0 <= i < |blank| ==> IsSpace(blank[i])
    ensures KeptLines([blank]) == []
  {
    CollectOne(blank, Kept);
    AllSpaceIsBlank(CutTrailing(blank));
  }

  /** A blank line anywhere in a body makes no difference. */
  lemma BlankLineIrrelevant(before: string, blank: string, after: string)
    requires '\n' !in blank && forall i :: 0 <= i < |blank| ==> IsSpace(blank[i])
    ensures CanonicalLines(before + ['\n'] + (blank + ['\n'] + after)) == CanonicalLines(before + ['\n'] + after)
  {
    KeptBlank(blank);
    CanonicalOfSplit(before, blank + ['\n'] + after);
    CanonicalOfSplit(before, after);
    CanonicalOfLine(blank, after);
  }

  /** Nor do blanks at the end of a line. */
  lemma TrailingBlanksIrrelevant(before: string, line: string, trail: string, after: string)
    requires '\n' !in line && forall i :: 0 <= i < |trail| ==> IsTrailing(trail[i])
    ensures CanonicalLines(before + ['\n'] + (line + trail + ['\n'] + after))
         == CanonicalLines(before + ['\n'] + (line + ['\n'] + after))
  {
    CanonicalOfSplit(before, line + trail + ['\n'] + after);
    CanonicalOfSplit(before, line + ['\n'] + after);
    CanonicalOfLine(line + trail, after);
    CanonicalOfLine(line, after);
    CollectOne(line + trail, Kept);
    CollectOne(line, Kept);
    CutTrailingAppend(line, trail);
  }

  // ---- preparing ----------------------------------------------------------------------

  /** `hashInput` is the text whose digest is kept in state. */
  datatype Prepared =
    | Ready(cmds: seq<string>, hashInput: string)
    | NameRequired
    | ContentRequired

  method PrepareConfiglet(name: string, body: string) returns (r: Prepared)
    ensures r.NameRequired? <==> IsBlank(name)
    ensures r.ContentRequired? <==> !IsBlank(name) && CanonicalLines(body) == []
    ensures r.Ready? ==>
              && r.cmds == CanonicalLines(body) && r.cmds != []
              && CanonicalLines(r.hashInput) == r.cmds
  {
    if TrimSpace(name) == "" {
      return NameRequired;
    }
    var cmds := CanonicalConfigletLines(body);
    if |cmds| == 0 {
      return ContentRequired;
    }
    CanonicalIdempotent(body);
    r := Ready(cmds, Join(cmds, "\n"));
  }

  method ApplyConfiglet<C>(cli: Client<C>, sessionPrefix: string, name: string, cmds: seq<string>, nets: Nets)
    returns (err: Option<Error>, ghost sess: Session?<C>)
    requires cli.slot == 0
    modifies cli, cli.node
    ensures cli.slot == 0
    ensures sess != null ==> fresh(sess) && !sess.open
    ensures cli.node.dev
         == AfterApply(cli.node.sem, old(cli.node.dev), sessionPrefix + "configlet-" + SessionSlug(name), cmds, nets)
    ensures err == None <==> !nets.open.Broken? && !nets.stage.Broken? && !nets.close.Broken?
  {
    var sessName := sessionPrefix + "configlet-" + SessionSlug(name);
    err, sess := ApplyCommands(cli, sessName, cmds, nets);
  }
}
