/** Reading a code unit back from `show running-config | section router general`. */
module RcfRead {
  import opened Seqs
  import opened Text
  import opened Rendering
  import opened Sorting
  import opened Rcf

  datatype Row = Inline(code: string) | File(path: string)

  // ---- the body of an inline unit -----------------------------------------------------

  predicate IsIndentChar(c: char) {
    c == ' ' || c == '\t'
  }

  predicate IsIndent(s: string) {
    forall i :: 0 <= i < |s| ==> IsIndentChar(s[i])
  }

  function LeadingWhitespace(s: string): (w: string)
    ensures w <= s && IsIndent(w)
    ensures |w| < |s| ==> !IsIndentChar(s[|w|])
  {
    if s == "" || !IsIndentChar(s[0]) then "" else [s[0]] + LeadingWhitespace(s[1..])
  }

  /** The lines up to the terminator, each without the indent. */
  function BodyOf(raws: seq<string>, indent: string): string {
    if raws == [] || TrimSpace(raws[0]) == "EOF" then ""
    else TrimPrefix(raws[0], indent) + "\n" + BodyOf(raws[1..], indent)
  }

  function Collected(raws: seq<string>): string {
    if raws == [] then "" else BodyOf(raws, LeadingWhitespace(raws[0]))
  }

  method CollectInlineBody(rest: seq<string>) returns (b: string)
    ensures b == Collected(rest)
  {
    b := "";
    var indent := "";
    for i := 0 to |rest|
      invariant i > 0 ==> indent == LeadingWhitespace(rest[0])
      invariant rest != [] ==> b + BodyOf(rest[i..], LeadingWhitespace(rest[0])) == Collected(rest)
      invariant rest == [] ==> b == ""
    {
      var raw := rest[i];
      assert rest[i..][0] == raw && rest[i..][1..] == rest[i + 1..];
      var line := TrimSpace(raw);
      if line == "EOF" {
        AppendEmpty(b);
        return;
      }
      if i == 0 {
        indent := LeadingWhitespace(raw);
      }
      var stripped := TrimPrefix(raw, indent);
      Associate(b, stripped + "\n", BodyOf(rest[i + 1..], indent));
      Associate(b, stripped, "\n");
      b := b + stripped;
      b := b + "\n";
    }
    AppendEmpty(b);
  }

  // ---- the section -------------------------------------------------------------------------

  predicate RcfHeaderMatch(line: string, header: string) {
    line == header || HasPrefix(line, header + " ")
  }

  function WithoutEdited(rest: string): string {
    TrimSuffix(rest, " edited")
  }

  /** What the unit's header line says, if the line is one; the lines after it hold an
      inline body. */
  function Hit(raw: string, after: seq<string>, header: string): Option<Row> {
    var line := TrimSpace(raw);
    if !RcfHeaderMatch(line, header) then None
    else
      match CutPrefix(line, header + " source pulled-from ")
      case Some(rest) => Some(File(WithoutEdited(rest)))
      case None => if line == header then Some(Inline(Collected(after))) else None
  }

  function Reading(raws: seq<string>, name: string): Option<Row> {
    if raws == [] then None
    else
      var hit := Hit(raws[0], raws[1..], RcfTargetClause(name));
      if hit.Some? then hit else Reading(raws[1..], name)
  }

  method ParseRcfSection(out: string, name: string) returns (row: Option<Row>)
    ensures row == Reading(Split(out, '\n'), name)
  {
    var header := "code";
    if name != "default" {
      header := "code unit " + name;
    }
    var lines := Split(out, '\n');
    for i := 0 to |lines|
      invariant Reading(lines, name) == Reading(lines[i..], name)
    {
      var line := TrimSpace(lines[i]);
      assert lines[i..][0] == lines[i] && lines[i..][1..] == lines[i + 1..];
      if !RcfHeaderMatch(line, header) {
        continue;
      }
      var rest := CutPrefix(line, header + " source pulled-from ");
      if rest.Some? {
        var path := rest.value;
        var trimmed := CutSuffix(path, " edited");
        if trimmed.Some? {
          path := trimmed.value;
        }
        return Some(File(path));
      }
      if line == header {
        var code := CollectInlineBody(lines[i + 1..]);
        return Some(Inline(code));
      }
    }
    return None;
  }

  // ---- lines of code ----------------------------------------------------------------------

  /** The lines of a text that ends in a newline. */
  function CodeLines(code: string): seq<string> {
    var parts := Split(code, '\n');
    parts[..|parts| - 1]
  }

  function Terminated(lines: seq<string>): string {
    if lines == [] then "" else lines[0] + "\n" + Terminated(lines[1..])
  }

  lemma {:induction false} TerminatedJoin(lines: seq<string>)
    ensures Terminated(lines) == Join(lines + [""], "\n")
  {
    if lines == [] {
      AppendEmpty([""]);
    } else {
      TerminatedJoin(lines[1..]);
      AppendTail(lines, [""]);
      Cons(lines + [""]);
      JoinCons(lines[0], lines[1..] + [""], "\n");
    }
  }

  /** A text that ends in a newline is its lines, each terminated. */
  lemma CodeIsItsLines(code: string)
    requires HasSuffix(code, "\n")
    ensures Terminated(CodeLines(code)) == code
    ensures forall i :: 0 <= i < |CodeLines(code)| ==> '\n' !in CodeLines(code)[i]
    ensures CodeLines(code) != []
  {
    var front := code[..|code| - 1];
    assert code == front + ['\n'] + "";
    SplitAppend(front, '\n', "");
    SplitNone("", '\n');
    SnocParts(Split(front, '\n'), "");
    TerminatedJoin(CodeLines(code));
    JoinSplit(code, '\n');
  }

  lemma {:induction false} LinesOfTerminated(lines: seq<string>)
    requires forall i :: 0 <= i < |lines| ==> '\n' !in lines[i]
    ensures Split(Terminated(lines), '\n') == lines + [""]
  {
    TerminatedJoin(lines);
    SplitJoin(lines + [""], '\n');
  }

  // ---- an indented body -----------------------------------------------------------------------

  lemma {:induction false} TrimIgnoresIndent(indent: string, s: string)
    requires IsIndent(indent)
    ensures TrimSpace(indent + s) == TrimSpace(s)
  {
    if indent == "" {
      AppendEmpty(s);
    } else {
      assert IsSpace(indent[0]);
      AppendTail(indent, s);
      TrimIgnoresIndent(indent[1..], s);
    }
  }

  lemma {:induction false} LeadingOfIndented(indent: string, s: string)
    requires IsIndent(indent)
    ensures LeadingWhitespace(indent + s) == indent + LeadingWhitespace(s)
  {
    if indent == "" {
      AppendEmpty(s);
      AppendEmpty(LeadingWhitespace(s));
    } else {
      AppendTail(indent, s);
      LeadingOfIndented(indent[1..], s);
      Cons(indent);
      Associate([indent[0]], indent[1..], LeadingWhitespace(s));
    }
  }

  predicate NoTerminator(lines: seq<string>) {
    forall i :: 0 <= i < |lines| ==> TrimSpace(lines[i]) != "EOF"
  }

  lemma IndentedCons(indent: string, lines: seq<string>, rest: seq<string>)
    requires lines != []
    ensures (Each(indent, lines) + rest)[0] == indent + lines[0]
    ensures (Each(indent, lines) + rest)[1..] == Each(indent, lines[1..]) + rest
  {
  }

  lemma {:induction false} BodyOfIndented(indent: string, lines: seq<string>, eof: string, after: seq<string>)
    requires IsIndent(indent) && NoTerminator(lines) && TrimSpace(eof) == "EOF"
    ensures BodyOf(Each(indent, lines) + ([eof] + after), indent) == Terminated(lines)
  {
    if lines == [] {
      AppendEmpty([eof] + after);
    } else {
      IndentedCons(indent, lines, [eof] + after);
      TrimIgnoresIndent(indent, lines[0]);
      CutOwnPrefix(indent, lines[0]);
      assert forall i :: 0 <= i < |lines[1..]| ==> lines[1..][i] == lines[i + 1];
      BodyOfIndented(indent, lines[1..], eof, after);
    }
  }

  /** Which code survives a listing: its first line starts neither with a space nor with
      a tab, and no line is blanks around `EOF`. */
  predicate PlainCode(lines: seq<string>) {
    lines != [] && LeadingWhitespace(lines[0]) == "" && NoTerminator(lines)
  }

  lemma PlainCollected(indent: string, lines: seq<string>, after: seq<string>)
    requires IsIndent(indent) && PlainCode(lines)
    ensures Collected(Each(indent, lines) + ([indent + "EOF"] + after)) == Terminated(lines)
  {
    IndentedCons(indent, lines, [indent + "EOF"] + after);
    LeadingOfIndented(indent, lines[0]);
    AppendEmpty(indent);
    TrimIgnoresIndent(indent, "EOF");
    BodyOfIndented(indent, lines, indent + "EOF", after);
  }

  /** The place of the first terminator. */
  lemma {:induction false} FirstTerminator(lines: seq<string>) returns (k: nat)
    requires !NoTerminator(lines)
    ensures k < |lines| && NoTerminator(lines[..k]) && TrimSpace(lines[k]) == "EOF"
  {
    if TrimSpace(lines[0]) == "EOF" {
      k := 0;
    } else {
      assert !NoTerminator(lines[1..]) by {
        var i :| 0 <= i < |lines| && TrimSpace(lines[i]) == "EOF";
        assert lines[1..][i - 1] == lines[i];
      }
      var j := FirstTerminator(lines[1..]);
      k := j + 1;
      assert lines[1..][j] == lines[k];
      forall i | 0 <= i < k ensures TrimSpace(lines[..k][i]) != "EOF" {
        if i > 0 {
          assert lines[1..][..j][i - 1] == lines[..k][i];
        }
      }
    }
  }

  /** A terminator inside the code cuts it short. */
  lemma CutShort(indent: string, lines: seq<string>, after: seq<string>)
    requires IsIndent(indent) && lines != [] && LeadingWhitespace(lines[0]) == "" && !NoTerminator(lines)
    requires forall i :: 0 <= i < |lines| ==> '\n' !in lines[i]
    ensures Collected(Each(indent, lines) + after) != Terminated(lines)
  {
    var k := FirstTerminator(lines);
    var rest := Each(indent, lines[k + 1..]) + after;
    TrimIgnoresIndent(indent, lines[k]);
    IndentedAround(indent, lines, k, after);
    IndentedCons(indent, lines, after);
    LeadingOfIndented(indent, lines[0]);
    AppendEmpty(indent);
    BodyOfIndented(indent, lines[..k], indent + lines[k], rest);
    LinesOfTerminated(lines[..k]);
    LinesOfTerminated(lines);
  }

  lemma IndentedAround(indent: string, lines: seq<string>, k: nat, after: seq<string>)
    requires k < |lines|
    ensures Each(indent, lines) + after
         == Each(indent, lines[..k]) + ([indent + lines[k]] + (Each(indent, lines[k + 1..]) + after))
  {
  }

  lemma FirstLineTells(a: string, x: string, b: string, y: string)
    requires '\n' !in a && '\n' !in b && a != b
    ensures a + "\n" + x != b + "\n" + y
  {
    SplitAt(a, '\n', x);
    SplitAt(b, '\n', y);
    assert Split(a + ['\n'] + x, '\n')[0] == a && Split(b + ['\n'] + y, '\n')[0] == b;
  }

  /** A first line that starts with a blank loses it. */
  lemma BlankLost(indent: string, lines: seq<string>, after: seq<string>)
    requires IsIndent(indent) && lines != [] && LeadingWhitespace(lines[0]) != ""
    requires '\n' !in lines[0]
    ensures Collected(Each(indent, lines) + after) != Terminated(lines)
  {
    var raws := Each(indent, lines) + after;
    var w := LeadingWhitespace(lines[0]);
    IndentedCons(indent, lines, after);
    LeadingOfIndented(indent, lines[0]);
    if TrimSpace(raws[0]) != "EOF" {
      Stripped(indent, w, lines[0]);
      FirstLineTells(lines[0][|w|..], BodyOf(raws[1..], indent + w), lines[0], Terminated(lines[1..]));
    }
  }

  lemma Stripped(indent: string, w: string, s: string)
    requires w <= s
    ensures TrimPrefix(indent + s, indent + w) == s[|w|..]
    ensures forall c :: c in s[|w|..] ==> c in s
  {
    var stripped := s[|w|..];
    assert s == w + stripped;
    Associate(indent, w, stripped);
    CutOwnPrefix(indent + w, stripped);
  }

  /** The round trip of a body, exactly: a listing that indents every line by one fixed
      indent gives the code back byte for byte if and only if the code is plain. */
  lemma BodyReadExactly(indent: string, code: string, after: seq<string>)
    requires IsIndent(indent) && HasSuffix(code, "\n")
    ensures Collected(Each(indent, CodeLines(code) + ["EOF"]) + after) == code <==> PlainCode(CodeLines(code))
  {
    var lines := CodeLines(code);
    CodeIsItsLines(code);
    IndentedLast(indent, lines, "EOF", after);
    if PlainCode(lines) {
      PlainCollected(indent, lines, after);
    } else if LeadingWhitespace(lines[0]) != "" {
      BlankLost(indent, lines, [indent + "EOF"] + after);
    } else {
      CutShort(indent, lines, [indent + "EOF"] + after);
    }
  }

  lemma IndentedLast(indent: string, lines: seq<string>, last: string, after: seq<string>)
    ensures Each(indent, lines + [last]) + after == Each(indent, lines) + ([indent + last] + after)
  {
  }

  // ---- the listing of several units -------------------------------------------------------------

  datatype Content = Code(code: string) | Source(path: string, edited: bool)

  datatype Unit = Unit(name: string, content: Content)

  const PULLED := " source pulled-from "

  function HeaderText(u: Unit): string {
    match u.content
    case Code(_) => RcfTargetClause(u.name)
    case Source(path, edited) =>
      RcfTargetClause(u.name) + PULLED + (if edited then path + " edited" else path)
  }

  /** The body lines are those of the staged input, terminator included. */
  function BodyLines(u: Unit): seq<string> {
    match u.content
    case Code(code) => CodeLines(InputOf(code))
    case Source(_, _) => []
  }

  function Listing(head: string, indent: string): Unit -> seq<string> {
    (u: Unit) => [head + HeaderText(u)] + Each(indent, BodyLines(u))
  }

  lemma InputLines(code: string)
    requires HasSuffix(code, "\n")
    ensures CodeLines(InputOf(code)) == CodeLines(code) + ["EOF"]
  {
    var front := code[..|code| - 1];
    assert code == front + ['\n'] + "";
    assert InputOf(code) == front + ['\n'] + "EOF\n";
    SplitAppend(front, '\n', "EOF\n");
    SplitAppend(front, '\n', "");
    SplitNone("", '\n');
    TerminatorLines();
    LastTwo(Split(front, '\n'), "EOF", "");
  }

  lemma TerminatorLines()
    ensures Split("EOF\n", '\n') == ["EOF"] + [""]
  {
    assert "EOF\n" == "EOF" + ['\n'] + "";
    SplitAppend("EOF", '\n', "");
    SplitNone("EOF", '\n');
    SplitNone("", '\n');
  }

  lemma LastTwo<T>(s: seq<T>, a: T, b: T)
    ensures (s + ([a] + [b]))[..|s + ([a] + [b])| - 1] == s + [a]
    ensures (s + [b])[..|s + [b]| - 1] == s
  {
  }

  predicate IsUnitName(name: string) {
    name == "default" || IsName(name)
  }

  predicate ValidUnit(u: Unit) {
    && IsUnitName(u.name)
    && (u.content.Code? ==> HasSuffix(u.content.code, "\n"))
    && (u.content.Source? ==> IsToken(u.content.path))
  }

  // ---- lines that are no header of ours -----------------------------------------------------------

  predicate IsHit(line: string, header: string) {
    line == header || HasPrefix(line, header + PULLED)
  }

  lemma NoHit(raw: string, after: seq<string>, header: string)
    requires !IsHit(TrimSpace(raw), header)
    ensures Hit(raw, after, header) == None
  {
  }

  lemma {:induction false} Skipped(raws: seq<string>, rest: seq<string>, name: string)
    requires forall i :: 0 <= i < |raws| ==> !IsHit(TrimSpace(raws[i]), RcfTargetClause(name))
    ensures Reading(raws + rest, name) == Reading(rest, name)
  {
    if raws == [] {
      AppendEmpty(rest);
    } else {
      AppendTail(raws, rest);
      NoHit(raws[0], (raws + rest)[1..], RcfTargetClause(name));
      assert forall i :: 0 <= i < |raws[1..]| ==> raws[1..][i] == raws[i + 1];
      Skipped(raws[1..], rest, name);
    }
  }

  /** A line that does not start with `code`. */
  predicate Quiet(line: string) {
    !HasPrefix(line, "code")
  }

  lemma TargetStart(name: string)
    ensures HasPrefix(RcfTargetClause(name), "code")
    ensures name != "default" ==> HasPrefix(RcfTargetClause(name), "code unit ")
  {
    CutOwnPrefix("code unit ", name);
    assert "code unit "[..4] == "code";
  }

  lemma HitStart(line: string, name: string)
    ensures IsHit(line, RcfTargetClause(name)) ==> HasPrefix(line, "code")
  {
    var header := RcfTargetClause(name);
    TargetStart(name);
    if HasPrefix(line, header + PULLED) {
      LongerPrefix(line, header, PULLED);
      ShorterPrefix(line, header, "code");
    }
  }

  lemma LongerPrefix(line: string, p: string, q: string)
    requires HasPrefix(line, p + q)
    ensures HasPrefix(line, p)
  {
    assert line[..|p|] == line[..|p + q|][..|p|];
    assert (p + q)[..|p|] == p;
  }

  lemma ShorterPrefix(line: string, p: string, q: string)
    requires HasPrefix(line, p) && HasPrefix(p, q)
    ensures HasPrefix(line, q)
  {
    assert line[..|q|] == line[..|p|][..|q|];
  }

  /** The header of another unit. */
  lemma OtherHeader(u: Unit, name: string)
    requires ValidUnit(u) && IsUnitName(name) && u.name != name
    ensures !IsHit(HeaderText(u), RcfTargetClause(name))
  {
    var header := RcfTargetClause(name);
    var tail := match u.content
      case Code(_) => ""
      case Source(path, edited) => if edited then path + " edited" else path;
    if u.name == "default" {
      NameNotBlank(name);
      DefaultNotNamed(name, tail, u.content.Code?);
    } else if name == "default" {
      NamedNotDefault(u.name, tail, u.content.Code?);
    } else {
      NameNotBlank(name);
      NameNotBlank(u.name);
      NamedApart(u.name, name, tail, u.content.Code?);
    }
  }

  function HeaderOf(clause: string, tail: string, inline: bool): string {
    if inline then clause else clause + PULLED + tail
  }

  /** `code source pulled-from ...` is not about `code unit NAME`. */
  lemma DefaultNotNamed(name: string, tail: string, inline: bool)
    requires name != "default"
    ensures !IsHit(HeaderOf("code", tail, inline), RcfTargetClause(name))
  {
    var line, header := HeaderOf("code", tail, inline), RcfTargetClause(name);
    assert header[5] == 'u';
    assert !inline ==> line[5] == 's';
    assert line != header;
    assert (header + PULLED)[5] == 'u';
    NoPrefix(line, header + PULLED, 5);
  }

  /** `code unit NAME` is not about the unnamed unit. */
  lemma NamedNotDefault(name: string, tail: string, inline: bool)
    requires name != "default"
    ensures !IsHit(HeaderOf(RcfTargetClause(name), tail, inline), RcfTargetClause("default"))
  {
    var line := HeaderOf(RcfTargetClause(name), tail, inline);
    assert line[5] == 'u';
    assert ("code" + PULLED)[5] == 's';
    NoPrefix(line, "code" + PULLED, 5);
  }

  lemma NamedApart(m: string, n: string, tail: string, inline: bool)
    requires m != n && m != "default" && n != "default" && IsToken(m) && IsToken(n)
    ensures !IsHit(HeaderOf(RcfTargetClause(m), tail, inline), RcfTargetClause(n))
  {
    var line := HeaderOf(RcfTargetClause(m), tail, inline);
    NamesApart("code unit ", m, n, PULLED, tail);
    if inline {
      TokenAlone("code unit ", m, n, PULLED);
    }
  }

  lemma NamesApart(head: string, m: string, n: string, mid: string, tail: string)
    requires m != n && IsToken(m) && IsToken(n) && mid != "" && mid[0] == ' '
    ensures head + m + mid + tail != head + n
    ensures !HasPrefix(head + m + mid + tail, head + n + mid)
  {
    var rest := mid[1..] + tail;
    assert head + m + mid + tail == head + m + " " + rest;
    assert head + n + mid == head + n + " " + mid[1..];
    CutNamed(head, m, n, rest);
    if HasPrefix(head + m + " " + rest, head + n + " " + mid[1..]) {
      LongerPrefix(head + m + " " + rest, head + n + " ", mid[1..]);
    }
    assert (head + m + mid + tail)[|head| + |m|] == ' ';
    assert |m| < |n| ==> (head + n)[|head| + |m|] == n[|m|];
  }

  lemma TokenAlone(head: string, m: string, n: string, mid: string)
    requires m != n && IsToken(m) && mid != "" && mid[0] == ' '
    ensures head + m != head + n
    ensures !HasPrefix(head + m, head + n + mid)
  {
    assert (head + m)[|head|..] == m && (head + n)[|head|..] == n;
    var p := head + n + mid;
    assert p[|head| + |n|] == ' ';
    assert |head| + |n| < |head + m| ==> (head + m)[|head| + |n|] == m[|n|];
    NoPrefix(head + m, p, |head| + |n|);
  }

  // ---- the round trip ---------------------------------------------------------------------------

  /** No line of an inline unit can be taken for a header. */
  predicate Transparent(u: Unit) {
    u.content.Code? ==>
      forall i :: 0 <= i < |CodeLines(u.content.code)| ==> Quiet(TrimSpace(CodeLines(u.content.code)[i]))
  }

  lemma HeaderTrimmed(u: Unit)
    requires ValidUnit(u)
    ensures IsTrimmed(HeaderText(u)) && HeaderText(u) != ""
  {
    NameNotBlank(u.name);
    TargetTrimmed(u.name);
    match u.content {
      case Code(_) =>
      case Source(path, edited) =>
        var tail := if edited then path + " edited" else path;
        assert tail[|tail| - 1] == if edited then 'd' else path[|path| - 1];
        EndsTrimmed(RcfTargetClause(u.name), PULLED, tail);
    }
  }

  lemma TargetTrimmed(name: string)
    requires IsToken(name)
    ensures var t := RcfTargetClause(name); t != "" && IsTrimmed(t)
  {
    if name != "default" {
      assert RcfTargetClause(name)[0] == 'c' && RcfTargetClause(name)[|RcfTargetClause(name)| - 1] == name[|name| - 1];
    }
  }

  lemma EndsTrimmed(a: string, b: string, c: string)
    requires a != "" && IsTrimmed(a) && c != "" && !IsSpace(c[|c| - 1])
    ensures IsTrimmed(a + b + c)
  {
    assert (a + b + c)[0] == a[0] && (a + b + c)[|a + b + c| - 1] == c[|c| - 1];
  }

  /** A unit whose lines the reader of another unit passes over. */
  predicate Passed(u: Unit, name: string) {
    ValidUnit(u) && Transparent(u) && u.name != name
  }

  lemma OtherUnitSkipped(u: Unit, head: string, indent: string, name: string, rest: seq<string>)
    requires Passed(u, name) && IsUnitName(name)
    requires IsIndent(head) && IsIndent(indent)
    ensures Reading(Listing(head, indent)(u) + rest, name) == Reading(rest, name)
  {
    var raws := Listing(head, indent)(u);
    forall i | 0 <= i < |raws| ensures !IsHit(TrimSpace(raws[i]), RcfTargetClause(name)) {
      if i == 0 {
        TrimIgnoresIndent(head, HeaderText(u));
        HeaderTrimmed(u);
        OtherHeader(u, name);
      } else {
        BodyLineQuiet(u, i - 1);
        TrimIgnoresIndent(indent, BodyLines(u)[i - 1]);
        HitStart(TrimSpace(raws[i]), name);
      }
    }
    Skipped(raws, rest, name);
  }

  lemma BodyLineQuiet(u: Unit, i: nat)
    requires ValidUnit(u) && Transparent(u) && i < |BodyLines(u)|
    ensures Quiet(TrimSpace(BodyLines(u)[i]))
  {
    InputLines(u.content.code);
    NoPrefix("EOF", "code", 0);
    assert TrimSpace("EOF") == "EOF";
  }

  predicate AllPassed(units: seq<Unit>, name: string) {
    forall i :: 0 <= i < |units| ==> Passed(units[i], name)
  }

  lemma FrontPassed(units: seq<Unit>, name: string)
    requires AllPassed(units, name) && units != []
    ensures AllPassed(units[..|units| - 1], name) && Passed(units[|units| - 1], name)
  {
  }

  lemma {:induction false} OtherUnitsSkipped(units: seq<Unit>, head: string, indent: string, name: string,
                                             rest: seq<string>)
    requires AllPassed(units, name)
    requires IsUnitName(name) && IsIndent(head) && IsIndent(indent)
    ensures Reading(Collect(units, Listing(head, indent)) + rest, name) == Reading(rest, name)
  {
    if units == [] {
      AppendEmpty(rest);
    } else {
      var n := |units| - 1;
      FrontPassed(units, name);
      Associate(Collect(units[..n], Listing(head, indent)), Listing(head, indent)(units[n]), rest);
      OtherUnitsSkipped(units[..n], head, indent, name, Listing(head, indent)(units[n]) + rest);
      OtherUnitSkipped(units[n], head, indent, name, rest);
    }
  }

  lemma OwnInline(u: Unit, head: string, after: seq<string>)
    requires ValidUnit(u) && u.content.Code? && IsIndent(head)
    ensures Reading([head + HeaderText(u)] + after, u.name) == Some(Inline(Collected(after)))
  {
    var header := RcfTargetClause(u.name);
    TrimIgnoresIndent(head, header);
    HeaderTrimmed(u);
    NoPrefix(header, header + PULLED, |header|);
    ConsParts(head + HeaderText(u), after);
  }

  lemma OwnSource(u: Unit, head: string, after: seq<string>)
    requires ValidUnit(u) && u.content.Source? && IsIndent(head)
    ensures Reading([head + HeaderText(u)] + after, u.name) == Some(File(u.content.path))
  {
    var header := RcfTargetClause(u.name);
    var path := u.content.path;
    var tail := if u.content.edited then path + " edited" else path;
    TrimIgnoresIndent(head, HeaderText(u));
    HeaderTrimmed(u);
    CutOwnPrefix(header + PULLED, tail);
    SpaceAfter(header, PULLED, tail);
    NoSuffixInToken(path, " edited", 0);
    CutOwnSuffix(path, " edited");
    ConsParts(head + HeaderText(u), after);
  }

  lemma SpaceAfter(header: string, mid: string, tail: string)
    requires mid != "" && mid[0] == ' '
    ensures HasPrefix(header + mid + tail, header + " ")
  {
    assert (header + mid + tail)[..|header| + 1] == header + " ";
  }

  /** The lines of a text with a listing of units. */
  predicate Lists(raws: seq<string>, pre: seq<string>, units: seq<Unit>, head: string, indent: string,
                  post: seq<string>) {
    raws == pre + Collect(units, Listing(head, indent)) + post
  }

  lemma AroundUnit(units: seq<Unit>, k: nat, f: Unit -> seq<string>, pre: seq<string>, post: seq<string>)
    requires k < |units|
    ensures pre + Collect(units, f) + post
         == pre + (Collect(units[..k], f) + (f(units[k]) + (Collect(units[k + 1..], f) + post)))
  {
    Around(units, k);
    CollectAppend(units[..k] + [units[k]], units[k + 1..], f);
    CollectSnoc(units[..k], units[k], f);
    Nested(pre, Collect(units[..k], f), f(units[k]), Collect(units[k + 1..], f), post);
  }

  lemma Nested<T>(a: seq<T>, b: seq<T>, c: seq<T>, d: seq<T>, e: seq<T>)
    ensures a + (b + c + d) + e == a + (b + (c + (d + e)))
  {
  }

  /** The units before the k-th are passed over. */
  predicate Others(units: seq<Unit>, k: nat)
    requires k < |units|
  {
    && ValidUnit(units[k])
    && AllPassed(units[..k], units[k].name)
  }

  /** Reading reaches the unit: text before it without `code` lines, and the units before
      it, are passed over; what follows it does not matter. */
  lemma Reached(raws: seq<string>, pre: seq<string>, units: seq<Unit>, k: nat, head: string, indent: string,
                post: seq<string>)
    requires k < |units| && Others(units, k)
    requires IsIndent(head) && IsIndent(indent)
    requires forall i :: 0 <= i < |pre| ==> Quiet(TrimSpace(pre[i]))
    requires Lists(raws, pre, units, head, indent, post)
    ensures Reading(raws, units[k].name)
         == Reading(Listing(head, indent)(units[k]) + (Collect(units[k + 1..], Listing(head, indent)) + post),
           units[k].name)
  {
    var f := Listing(head, indent);
    var name := units[k].name;
    var rest := f(units[k]) + (Collect(units[k + 1..], f) + post);
    AroundUnit(units, k, f, pre, post);
    forall i | 0 <= i < |pre| ensures !IsHit(TrimSpace(pre[i]), RcfTargetClause(name)) {
      HitStart(TrimSpace(pre[i]), name);
    }
    Skipped(pre, Collect(units[..k], f) + rest, name);
    OtherUnitsSkipped(units[..k], head, indent, name, rest);
  }

  /** The round trip, with isolation and exactly: among several units with distinct
      names, none of whose earlier lines look like a header, inline code comes back byte
      for byte if and only if it is plain. */
  lemma InlineReadExactly(raws: seq<string>, pre: seq<string>, units: seq<Unit>, k: nat, head: string, indent: string,
                          post: seq<string>)
    requires k < |units| && Others(units, k) && units[k].content.Code?
    requires IsIndent(head) && IsIndent(indent)
    requires forall i :: 0 <= i < |pre| ==> Quiet(TrimSpace(pre[i]))
    requires Lists(raws, pre, units, head, indent, post)
    ensures Reading(raws, units[k].name) == Some(Inline(units[k].content.code))
       <==> PlainCode(CodeLines(units[k].content.code))
  {
    var u := units[k];
    var after := Collect(units[k + 1..], Listing(head, indent)) + post;
    Reached(raws, pre, units, k, head, indent, post);
    Associate([head + HeaderText(u)], Each(indent, BodyLines(u)), after);
    OwnInline(u, head, Each(indent, BodyLines(u)) + after);
    InputLines(u.content.code);
    BodyReadExactly(indent, u.content.code, after);
  }

  /** A file reference comes back without the device's `edited` mark. */
  lemma SourceReadsBack(raws: seq<string>, pre: seq<string>, units: seq<Unit>, k: nat, head: string, indent: string,
                        post: seq<string>)
    requires k < |units| && Others(units, k) && units[k].content.Source?
    requires IsIndent(head) && IsIndent(indent)
    requires forall i :: 0 <= i < |pre| ==> Quiet(TrimSpace(pre[i]))
    requires Lists(raws, pre, units, head, indent, post)
    ensures Reading(raws, units[k].name) == Some(File(units[k].content.path))
  {
    var u := units[k];
    var after := Collect(units[k + 1..], Listing(head, indent)) + post;
    Reached(raws, pre, units, k, head, indent, post);
    Associate([head + HeaderText(u)], Each(indent, BodyLines(u)), after);
    OwnSource(u, head, Each(indent, BodyLines(u)) + after);
  }

  // ---- from the staged commands to the reading ---------------------------------------------------

  lemma ListsOne(u: Unit, pre: seq<string>, head: string, indent: string, post: seq<string>)
    ensures Lists(pre + Listing(head, indent)(u) + post, pre, [u], head, indent, post)
    ensures ValidUnit(u) ==> Others([u], 0)
  {
    CollectOne(u, Listing(head, indent));
  }

  /** A device that lists a unit as the command line and the input text it was given,
      indented, is read back to the code that was handed to the provider, byte for byte,
      if and only if that code is plain. */
  lemma StagedCodeReadsBack(args: Args, isUrl: string -> bool, pre: seq<string>, head: string, indent: string,
                            post: seq<string>)
    requires ValidArgs(args, isUrl) && Given(args.code)
    requires IsIndent(head) && IsIndent(indent)
    requires forall i :: 0 <= i < |pre| ==> Quiet(TrimSpace(pre[i]))
    ensures var staged := BuildRcfRichCmds(args)[2];
            var raws := pre + ([head + staged.cmd] + Each(indent, CodeLines(staged.input))) + post;
            Reading(raws, args.name) == Some(Inline(args.code.value)) <==> PlainCode(CodeLines(args.code.value))
  {
    var u := Unit(args.name, Code(args.code.value));
    ListsOne(u, pre, head, indent, post);
    InlineReadExactly(pre + Listing(head, indent)(u) + post, pre, [u], 0, head, indent, post);
  }

  /** A device that lists the unit as the staged source line, marked as edited or not, is
      read back to the path that was handed to the provider. */
  lemma StagedSourceReadsBack(args: Args, isUrl: string -> bool, pre: seq<string>, head: string, edited: bool,
                              post: seq<string>)
    requires ValidArgs(args, isUrl) && Given(args.sourceFile) && IsToken(args.sourceFile.value)
    requires IsIndent(head)
    requires forall i :: 0 <= i < |pre| ==> Quiet(TrimSpace(pre[i]))
    ensures var staged := BuildRcfPlainCmds(args, false)[2];
            var raws := pre + [head + (if edited then staged + " edited" else staged)] + post;
            Reading(raws, args.name) == Some(File(args.sourceFile.value))
  {
    var u := Unit(args.name, Source(args.sourceFile.value, edited));
    var staged := BuildRcfPlainCmds(args, false)[2];
    assert RcfTargetClause(args.name) + " source pulled-from " + args.sourceFile.value == staged;
    Associate(RcfTargetClause(args.name) + PULLED, args.sourceFile.value, " edited");
    AppendEmpty([head + HeaderText(u)]);
    assert Each("", BodyLines(u)) == [];
    ListsOne(u, pre, head, "", post);
    SourceReadsBack(pre + Listing(head, "")(u) + post, pre, [u], 0, head, "", post);
  }

  /** Valid code that starts with a blank loses it. */
  lemma IndentedCodeLost(args: Args, isUrl: string -> bool, indent: string, after: seq<string>)
    requires args == Args("default", Some(" a\n"), None, None) && IsIndent(indent)
    ensures ValidArgs(args, isUrl)
    ensures Collected(Each(indent, CodeLines(args.code.value) + ["EOF"]) + after) != args.code.value
  {
    var code := args.code.value;
    OneLineCode(" a");
    assert code == " a" + "\n";
    assert LeadingWhitespace(" a") != "";
    BodyReadExactly(indent, code, after);
  }

  /** Valid code with a line `EOF` ends there. */
  lemma TerminatorCodeLost(args: Args, isUrl: string -> bool, indent: string, after: seq<string>)
    requires args == Args("default", Some("EOF\n"), None, None) && IsIndent(indent)
    ensures ValidArgs(args, isUrl)
    ensures Collected(Each(indent, CodeLines(args.code.value) + ["EOF"]) + after) != args.code.value
  {
    var code := args.code.value;
    OneLineCode("EOF");
    assert code == "EOF" + "\n";
    assert IsTrimmed("EOF");
    BodyReadExactly(indent, code, after);
  }

  lemma OneLineCode(line: string)
    requires '\n' !in line
    ensures CodeLines(line + "\n") == [line] && HasSuffix(line + "\n", "\n")
  {
    SplitAt(line, '\n', "");
    SplitNone("", '\n');
    assert line + "\n" == line + ['\n'] + "";
  }
  // ---- drift -------------------------------------------------------------------------------

  /** A unit is read as code or as a file, and only that field is written. */
  function FillState(row: Row, state: Args): Args {
    match row
    case Inline(code) => if code != "" then state.(code := Some(code)) else state
    case File(path) => if path != "" then state.(sourceFile := Some(path)) else state
  }

  /** Drift is seen: whatever is stored for the unit, after a refresh the path of a live
      file reference, and live code that reads back, stand as the device has them. */
  lemma DriftIsSeen(raws: seq<string>, pre: seq<string>, units: seq<Unit>, k: nat, head: string, indent: string,
                    post: seq<string>, stored: Args)
    requires k < |units| && Others(units, k) && stored.name == units[k].name
    requires IsIndent(head) && IsIndent(indent)
    requires forall i :: 0 <= i < |pre| ==> Quiet(TrimSpace(pre[i]))
    requires Lists(raws, pre, units, head, indent, post)
    requires units[k].content.Code? ==> PlainCode(CodeLines(units[k].content.code))
    ensures var row := Reading(raws, stored.name);
            && row.Some?
            && FillState(row.value, stored)
               == match units[k].content
                  case Code(code) => stored.(code := Some(code))
                  case Source(path, _) => stored.(sourceFile := Some(path))
  {
    if units[k].content.Code? {
      InlineReadExactly(raws, pre, units, k, head, indent, post);
    } else {
      SourceReadsBack(raws, pre, units, k, head, indent, post);
    }
    assert ValidUnit(units[k]);
  }

  /** So a unit that was declared as code and is now a file on the device is shown as both
      after a refresh, which validation would refuse. */
  lemma BothAfterDrift(path: string, stored: Args, isUrl: string -> bool)
    requires path != "" && Given(stored.code)
    ensures !ValidArgs(FillState(File(path), stored), isUrl)
  {
  }
}
