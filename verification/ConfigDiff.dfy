/** The textual session diff a device prints: two header lines, then one line
    for every removed or added configuration line. */
module ConfigDiff {
  import opened Text

  datatype Change = Removed(line: string) | Added(line: string)

  /** A line-by-line edit script from one configuration listing to another. */
  function Changes(a: seq<string>, b: seq<string>): (cs: seq<Change>)
    ensures cs == [] <==> a == b
    decreases |a| + |b|
  {
    if a == [] && b == [] then []
    else if a != [] && b != [] && a[0] == b[0] then
      assert a == [a[0]] + a[1..] && b == [b[0]] + b[1..];
      Changes(a[1..], b[1..])
    else if a != [] then [Removed(a[0])] + Changes(a[1..], b)
    else [Added(b[0])] + Changes(a, b[1..])
  }

  function ChangeLine(c: Change): string {
    match c
    case Removed(line) => "-" + line
    case Added(line) => "+" + line
  }

  function ChangeLines(cs: seq<Change>): (lines: seq<string>)
    ensures |lines| == |cs|
    ensures forall i :: 0 <= i < |cs| ==> lines[i] == ChangeLine(cs[i])
  {
    seq(|cs|, i requires 0 <= i < |cs| => ChangeLine(cs[i]))
  }

  const OLD_HEADER := "--- system:/running-config"
  const NEW_HEADER := "+++ session:/session-config"

  function Print(running: seq<string>, candidate: seq<string>): string {
    Join([OLD_HEADER, NEW_HEADER] + ChangeLines(Changes(running, candidate)), "\n")
  }
}
