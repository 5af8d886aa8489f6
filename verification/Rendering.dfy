/** Pieces that several renderers share: optional fields, and lines that differ only
    in their tails. */
module Rendering {
  import opened Seqs
  import opened Text

  /** A field that is set and not empty. */
  predicate Given(s: Option<string>) {
    s.Some? && s.value != ""
  }

  /** The text of an optional field, "" when it is not set. */
  function Deref(s: Option<string>): string {
    if s.Some? then s.value else ""
  }

  /** A flag, for counting. */
  function One(b: bool): int {
    if b then 1 else 0
  }

  /** A line for an optional number. */
  function Numbered(head: string, n: Option<Int>): seq<string> {
    if n.Some? then [head + Itoa(n.value)] else []
  }

  /** One line for each tail. */
  function Each(head: string, tails: seq<string>): (lines: seq<string>)
    ensures |lines| == |tails|
    ensures forall i :: 0 <= i < |lines| ==> lines[i] == head + tails[i]
  {
    seq(|tails|, i requires 0 <= i < |tails| => head + tails[i])
  }

  lemma EachSnoc(head: string, tails: seq<string>, tail: string)
    ensures Each(head, tails + [tail]) == Each(head, tails) + [head + tail]
  {
  }

  method AppendNumbered(cmds: seq<string>, head: string, n: Option<Int>) returns (r: seq<string>)
    ensures r == cmds + Numbered(head, n)
  {
    r := cmds;
    if n.Some? {
      r := r + [head + Itoa(n.value)];
    }
  }

  method AppendEach(cmds: seq<string>, head: string, tails: seq<string>) returns (r: seq<string>)
    ensures r == cmds + Each(head, tails)
  {
    r := cmds;
    ghost var all := Each(head, tails);
    for i := 0 to |tails|
      invariant r == cmds + all[..i]
    {
      TakeSnoc(all, i);
      Associate(cmds, all[..i], [all[i]]);
      r := r + [head + tails[i]];
    }
    TakeAll(all);
  }
}
