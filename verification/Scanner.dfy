/** Line scanners: a state carried over the lines of a text. */
module Scanner {
  import opened Seqs

  function Scan<S, L>(st: S, lines: seq<L>, step: (S, L) -> S): S {
    if lines == [] then st else step(Scan(st, lines[..|lines| - 1], step), lines[|lines| - 1])
  }

  lemma ScanSnoc<S, L>(st: S, lines: seq<L>, line: L, step: (S, L) -> S)
    ensures Scan(st, lines + [line], step) == step(Scan(st, lines, step), line)
  {
    SnocParts(lines, line);
  }

  lemma ScanOne<S, L>(st: S, line: L, step: (S, L) -> S)
    ensures Scan(st, [line], step) == step(st, line)
  {
    ScanSnoc(st, [], line, step);
  }

  lemma {:induction false} ScanAppend<S, L>(st: S, a: seq<L>, b: seq<L>, step: (S, L) -> S)
    ensures Scan(st, a + b, step) == Scan(Scan(st, a, step), b, step)
  {
    if b == [] {
      AppendEmpty(a);
    } else {
      var front := b[..|b| - 1];
      AppendFront(a, b);
      ScanAppend(st, a, front, step);
    }
  }

  lemma ScanThree<S, L>(st: S, a: seq<L>, b: seq<L>, c: seq<L>, step: (S, L) -> S)
    ensures Scan(st, a + b + c, step) == Scan(Scan(Scan(st, a, step), b, step), c, step)
  {
    ScanAppend(st, a + b, c, step);
    ScanAppend(st, a, b, step);
  }

  /** Lines that change nothing. */
  lemma {:induction false} ScanIdle<S, L>(st: S, lines: seq<L>, step: (S, L) -> S)
    requires forall i :: 0 <= i < |lines| ==> step(st, lines[i]) == st
    ensures Scan(st, lines, step) == st
  {
    if lines != [] {
      ScanIdle(st, lines[..|lines| - 1], step);
    }
  }
}
