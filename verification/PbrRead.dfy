/** Reading a policy back from `show running-config section policy-map`. */
module PbrRead {
  import opened Seqs
  import opened Text
  import opened Rendering
  import opened Scanner
  import opened Sorting
  import opened Pbr

  const NO_ACTION := Action(None, None, None, None)

  /** The row under construction. `current` is the parser's reference into the growing
      slice: once there is a sequence, it is to the last one. */
  datatype Parsed = Parsed(description: string, sequences: seq<Sequence>, current: Option<nat>)

  type Row = r: Parsed | r.current == (if r.sequences == [] then None else Some(|r.sequences| - 1))
    witness Parsed("", [], None)

  const EMPTY: Row := Parsed("", [], None)

  // ---- one line -------------------------------------------------------------------------

  function ParsePbrSeqHeader(line: string): Option<Sequence> {
    var parts := Fields(line);
    if |parts| != 3 || parts[1] != "class" then None
    else
      match Atoi(parts[0])
      case None => None
      case Some(n) => Some(Sequence(n, parts[2], NO_ACTION))
  }

  /** `vrf V` among the words after the address; the last one wins. */
  function WithVrf(a: Action, words: seq<string>): Action
    decreases |words|
  {
    if |words| < 2 then a
    else WithVrf(if words[0] == "vrf" then a.(nexthopVrf := Some(words[1])) else a, words[1..])
  }

  function WithNexthop(a: Action, words: seq<string>): Action {
    if words == [] then a else WithVrf(a.(nexthop := Some(words[0])), words[1..])
  }

  function ApplyAction(a: Action, line: string): Action {
    if HasPrefix(line, "set nexthop-group ") then a.(nexthopGroup := Some(TrimPrefix(line, "set nexthop-group ")))
    else if HasPrefix(line, "set nexthop ") then WithNexthop(a, Fields(TrimPrefix(line, "set nexthop ")))
    else if line == "drop" then a.(drop := Some(true))
    else a
  }

  function WithLast(row: Row, line: string): Row {
    match row.current
    case None => row
    case Some(k) =>
      row.(sequences := row.sequences[k := row.sequences[k].(action := ApplyAction(row.sequences[k].action, line))])
  }

  function ApplySectionLine(row: Row, line: string): Row {
    if HasPrefix(line, "description ") then row.(description := TrimPrefix(line, "description "))
    else
      match ParsePbrSeqHeader(line)
      case Some(s) => Parsed(row.description, row.sequences + [s], Some(|row.sequences|))
      case None => WithLast(row, line)
  }

  const ApplyLine: (Row, string) -> Row := (row: Row, line: string) => ApplySectionLine(row, line)

  /** The body of the section, line after line. */
  function ReadLines(row: Row, lines: seq<string>): Row {
    Scan<Row, string>(row, lines, ApplyLine)
  }

  lemma ReadSnoc(row: Row, lines: seq<string>, line: string)
    ensures ReadLines(row, lines + [line]) == ApplySectionLine(ReadLines(row, lines), line)
    ensures ReadLines(row, []) == row
  {
    ScanSnoc<Row, string>(row, lines, line, ApplyLine);
  }

  lemma ReadOne(row: Row, line: string)
    ensures ReadLines(row, [line]) == ApplySectionLine(row, line)
  {
    ScanOne<Row, string>(row, line, ApplyLine);
  }

  lemma ReadAppend(row: Row, a: seq<string>, b: seq<string>)
    ensures ReadLines(row, a + b) == ReadLines(ReadLines(row, a), b)
  {
    ScanAppend<Row, string>(row, a, b, ApplyLine);
  }

  method ApplyPbrNexthop(a: Action, rest: string) returns (r: Action)
    ensures r == WithNexthop(a, Fields(rest))
  {
    var tokens := Fields(rest);
    r := a;
    if |tokens| == 0 {
      return;
    }
    r := r.(nexthop := Some(tokens[0]));
    ghost var start := r;
    var i := 1;
    while i + 1 < |tokens|
      invariant 1 <= i <= |tokens|
      invariant WithVrf(r, tokens[i..]) == WithVrf(start, tokens[1..])
    {
      assert tokens[i..][1..] == tokens[i + 1..];
      if tokens[i] == "vrf" {
        r := r.(nexthopVrf := Some(tokens[i + 1]));
      }
      i := i + 1;
    }
  }

  method ApplyPbrSectionLine(row: Row, line: string) returns (r: Row)
    ensures r == ApplySectionLine(row, line)
  {
    var text := CutPrefix(line, "description ");
    if text.Some? {
      CutOwnPrefix("description ", text.value);
      return row.(description := text.value);
    }
    var header := ParsePbrSeqHeader(line);
    if header.Some? {
      return Parsed(row.description, row.sequences + [header.value], Some(|row.sequences|));
    }
    if row.current == None {
      return row;
    }
    var k := row.current.value;
    var a := row.sequences[k].action;
    if HasPrefix(line, "set nexthop-group ") {
      a := a.(nexthopGroup := Some(TrimPrefix(line, "set nexthop-group ")));
    } else if HasPrefix(line, "set nexthop ") {
      a := ApplyPbrNexthop(a, TrimPrefix(line, "set nexthop "));
    } else if line == "drop" {
      a := a.(drop := Some(true));
    }
    r := row.(sequences := row.sequences[k := row.sequences[k].(action := a)]);
  }

  // ---- the section ------------------------------------------------------------------------

  datatype Cursor = Cursor(found: bool, inOurs: bool, row: Row)

  const START := Cursor(false, false, EMPTY)

  function Next(name: string, st: Cursor, line: string): Cursor {
    if line == Header(name) then Cursor(true, true, st.row)
    else if HasPrefix(line, "policy-map ") then st.(inOurs := false)
    else if st.inOurs then st.(row := ApplySectionLine(st.row, line))
    else st
  }

  function Step(name: string): (Cursor, string) -> Cursor {
    (st: Cursor, line: string) => Next(name, st, line)
  }

  function Reading(lines: seq<string>, name: string): Option<Row> {
    var st := Scan(START, lines, Step(name));
    if st.found then Some(st.row) else None
  }

  method ParsePbrSection(out: string, name: string) returns (row: Row, found: bool)
    ensures Reading(TrimmedLines(out), name) == if found then Some(row) else None
  {
    var header := "policy-map type pbr " + name;
    var raws := Split(out, '\n');
    ghost var lines := TrimmedLines(out);
    var inOurs := false;
    row, found := EMPTY, false;
    for i := 0 to |raws|
      invariant Cursor(found, inOurs, row) == Scan(START, lines[..i], Step(name))
    {
      var line := TrimSpace(raws[i]);
      assert line == lines[i];
      TakeSnoc(lines, i);
      ghost var st := Cursor(found, inOurs, row);
      ScanSnoc(START, lines[..i], line, Step(name));
      assert Scan(START, lines[..i + 1], Step(name)) == Next(name, st, line);
      if line == header {
        inOurs, found := true, true;
        continue;
      }
      if HasPrefix(line, "policy-map ") {
        inOurs := false;
        continue;
      }
      if !inOurs {
        continue;
      }
      row := ApplyPbrSectionLine(row, line);
    }
    TakeAll(lines);
  }

  // ---- set and drop lines belong to the latest header ------------------------------------------

  predicate StartsSequence(line: string) {
    !HasPrefix(line, "description ") && ParsePbrSeqHeader(line).Some?
  }

  predicate NoStarts(lines: seq<string>) {
    forall i :: 0 <= i < |lines| ==> !StartsSequence(lines[i])
  }

  const ActionStep := (a: Action, line: string) => if HasPrefix(line, "description ") then a else ApplyAction(a, line)

  /** The action that a stretch of lines spells. */
  function ActionOf(lines: seq<string>): Action {
    Scan(NO_ACTION, lines, ActionStep)
  }

  /** A header and the lines up to the next one add one sequence, which takes all of
      those lines; the sequences before it stay as they were. */
  lemma {:induction false} SequenceAdded(row: Row, header: string, lines: seq<string>)
    requires StartsSequence(header) && NoStarts(lines)
    ensures ReadLines(row, [header] + lines).sequences
         == row.sequences + [ParsePbrSeqHeader(header).value.(action := ActionOf(lines))]
  {
    if lines == [] {
      AppendEmpty([header]);
      ReadOne(row, header);
    } else {
      var n := |lines| - 1;
      assert forall i :: 0 <= i < n ==> lines[..n][i] == lines[i];
      SequenceAdded(row, header, lines[..n]);
      Snoc(lines);
      Associate([header], lines[..n], [lines[n]]);
      ReadSnoc(row, [header] + lines[..n], lines[n]);
      ScanSnoc(NO_ACTION, lines[..n], lines[n], ActionStep);
      LastTakesLine(ReadLines(row, [header] + lines[..n]), lines[n]);
      PutLast(row.sequences, ParsePbrSeqHeader(header).value, ActionOf(lines[..n]), ActionOf(lines));
    }
  }

  lemma LastTakesLine(row: Row, line: string)
    requires !StartsSequence(line) && row.sequences != []
    ensures var k := |row.sequences| - 1;
            ApplySectionLine(row, line).sequences
            == row.sequences[k := row.sequences[k].(action := ActionStep(row.sequences[k].action, line))]
  {
  }

  lemma PutLast(s: seq<Sequence>, x: Sequence, a: Action, b: Action)
    ensures (s + [x.(action := a)])[|s| := x.(action := b)] == s + [x.(action := b)]
  {
  }

  /** No line of any text touches a sequence once the next header has been read. */
  lemma {:induction false} EarlierKept(row: Row, lines: seq<string>, k: nat)
    requires k < |row.sequences| - 1
    ensures var r := ReadLines(row, lines);
            |r.sequences| >= |row.sequences| && r.sequences[k] == row.sequences[k]
  {
    if lines != [] {
      var n := |lines| - 1;
      EarlierKept(row, lines[..n], k);
      Snoc(lines);
      ReadSnoc(row, lines[..n], lines[n]);
    }
  }

  /** Every sequence of any section is its header with the action spelt by exactly
      the lines between that header and the next. */
  lemma LatestHeader(pre: seq<string>, header: string, lines: seq<string>, post: seq<string>)
    requires StartsSequence(header) && NoStarts(lines)
    requires post != [] ==> StartsSequence(post[0])
    ensures var k := |ReadLines(EMPTY, pre).sequences|;
            var all := ReadLines(EMPTY, pre + ([header] + lines) + post).sequences;
            k < |all| && all[k] == ParsePbrSeqHeader(header).value.(action := ActionOf(lines))
  {
    var before := ReadLines(EMPTY, pre);
    var after := ReadLines(before, [header] + lines);
    ReadAppend(EMPTY, pre + ([header] + lines), post);
    ReadAppend(EMPTY, pre, [header] + lines);
    SequenceAdded(before, header, lines);
    if post != [] {
      var next := ApplySectionLine(after, post[0]);
      Cons(post);
      ReadAppend(after, [post[0]], post[1..]);
      ReadOne(after, post[0]);
      EarlierKept(next, post[1..], |before.sequences|);
    }
  }

  // ---- rendered sequences -----------------------------------------------------------------------

  function Kept(s: Option<string>): Option<string> {
    if Given(s) then s else None
  }

  /** The action with its empty fields dropped. */
  function NormAction(a: Action): Action {
    Action(
      Kept(a.nexthop),
      if Given(a.nexthop) then Kept(a.nexthopVrf) else None,
      Kept(a.nexthopGroup),
      if a.drop == Some(true) then Some(true) else None)
  }

  function Norm(s: Sequence): Sequence {
    s.(action := NormAction(s.action))
  }

  /** Words without white space, and exactly one action. */
  predicate Readable(s: Sequence) {
    && IsToken(s.class_)
    && ActionCount(s.action) == 1
    && (Given(s.action.nexthop) ==> IsToken(s.action.nexthop.value))
    && (Given(s.action.nexthopVrf) ==> IsToken(s.action.nexthopVrf.value))
  }

  predicate AllReadable(sequences: seq<Sequence>) {
    forall i :: 0 <= i < |sequences| ==> Readable(sequences[i])
  }

  lemma NoDescription(line: string)
    requires line != "" && line[0] != 'd'
    ensures !HasPrefix(line, "description ")
  {
    NoPrefix(line, "description ", 0);
  }

  /** A rendered header is read as its sequence exactly when the class is one word. */
  lemma HeaderReadExactly(s: Sequence)
    ensures ParsePbrSeqHeader(SequenceHeader(s)) == Some(s.(action := NO_ACTION)) <==> IsToken(s.class_)
    ensures !HasPrefix(SequenceHeader(s), "description ")
  {
    var n := Itoa(s.seqNo);
    ItoaToken(s.seqNo);
    AtoiItoa(s.seqNo);
    ClassWords(n, "class", s.class_);
    assert SequenceHeader(s)[0] == n[0];
    NoDescription(SequenceHeader(s));
    if IsToken(s.class_) {
      FieldsToken(s.class_);
    }
  }

  lemma ClassWords(n: string, word: string, name: string)
    requires IsToken(n) && IsToken(word) && word == "class"
    ensures Fields(n + " class " + name) == [n, word] + Fields(name)
  {
    assert " class " == " " + word + " ";
    assert n + " class " + name == n + " " + (word + " " + name);
    FieldsWord(n, word + " " + name);
    FieldsWord(word, name);
  }

  lemma NotStart(line: string, word: string)
    requires IsToken(word) && Atoi(word) == None
    requires Fields(line) != [] && Fields(line)[0] == word
    ensures !StartsSequence(line)
  {
  }

  lemma AtoiWord(word: string)
    requires word != "" && !IsDigit(word[0]) && word[0] != '-' && word[0] != '+'
    ensures Atoi(word) == None
  {
  }

  /** A line that starts with a word instead of a number. */
  lemma WordStart(word: string, rest: string)
    requires IsToken(word) && !IsDigit(word[0]) && word[0] != '-' && word[0] != '+'
    ensures !StartsSequence(word + " " + rest)
    ensures !StartsSequence(word)
  {
    AtoiWord(word);
    FieldsWord(word, rest);
    FieldsToken(word);
    NotStart(word + " " + rest, word);
    NotStart(word, word);
  }

  lemma SpacedWord(word: string, head: string, rest: string)
    requires head == word + " "
    ensures head + rest == word + " " + rest
  {
  }

  lemma GroupLine(a: Action, name: string)
    ensures var line := "set nexthop-group " + name;
            && !StartsSequence(line) && !HasPrefix(line, "description ")
            && ApplyAction(a, line) == a.(nexthopGroup := Some(name))
  {
    CutOwnPrefix("set nexthop-group ", name);
    SetLine("set", "nexthop-group " + name, "set nexthop-group " + name);
  }

  lemma SetLine(word: string, rest: string, line: string)
    requires word == "set" && line == word + " " + rest
    ensures !StartsSequence(line) && !HasPrefix(line, "description ")
  {
    WordStart(word, rest);
    assert line[0] == 's';
    NoDescription(line);
  }

  lemma NexthopWords(a: Action, addr: string)
    requires IsToken(addr)
    ensures WithNexthop(a, Fields(addr)) == a.(nexthop := Some(addr))
  {
    FieldsToken(addr);
  }

  lemma NexthopVrfWords(a: Action, addr: string, vrf: string)
    requires IsToken(addr) && IsToken(vrf)
    ensures WithNexthop(a, Fields(addr + " vrf " + vrf)) == a.(nexthop := Some(addr), nexthopVrf := Some(vrf))
  {
    VrfWords(addr, "vrf", vrf);
    VrfPair(a.(nexthop := Some(addr)), addr, "vrf", vrf);
  }

  lemma VrfPair(a: Action, addr: string, word: string, vrf: string)
    requires word == "vrf"
    ensures WithVrf(a, [addr, word, vrf][1..]) == a.(nexthopVrf := Some(vrf))
  {
    var words := [addr, word, vrf][1..];
    assert |words| == 2 && words[0] == word && words[1] == vrf;
    assert |words[1..]| == 1;
  }

  lemma VrfWords(addr: string, word: string, vrf: string)
    requires IsToken(addr) && IsToken(word) && IsToken(vrf) && word == "vrf"
    ensures Fields(addr + " vrf " + vrf) == [addr, word, vrf]
  {
    Words3(addr, word, vrf);
    assert " vrf " == " " + word + " ";
    assert addr + " vrf " + vrf == addr + " " + word + " " + vrf;
  }

  lemma SetNexthop(a: Action, rest: string)
    ensures var line := "set nexthop " + rest;
            && !StartsSequence(line) && !HasPrefix(line, "description ")
            && ApplyAction(a, line) == WithNexthop(a, Fields(rest))
  {
    var line := "set nexthop " + rest;
    CutOwnPrefix("set nexthop ", rest);
    assert line[11] == ' ';
    NoPrefix(line, "set nexthop-group ", 11);
    SetLine("set", "nexthop " + rest, line);
  }

  lemma NexthopLineRead(s: Sequence)
    requires Readable(s) && Given(s.action.nexthop)
    ensures var line := NexthopLine(s.action);
            && !StartsSequence(line) && !HasPrefix(line, "description ")
            && ApplyAction(NO_ACTION, line) == NormAction(s.action)
  {
    var addr := s.action.nexthop.value;
    if Given(s.action.nexthopVrf) {
      var vrf := s.action.nexthopVrf.value;
      NexthopVrfWords(NO_ACTION, addr, vrf);
      SetNexthop(NO_ACTION, addr + " vrf " + vrf);
      Associate("set nexthop ", addr, " vrf ");
      Associate("set nexthop ", addr + " vrf ", vrf);
    } else {
      NexthopWords(NO_ACTION, addr);
      SetNexthop(NO_ACTION, addr);
    }
  }

  lemma DropLine(a: Action)
    ensures !StartsSequence("drop") && !HasPrefix("drop", "description ")
    ensures ApplyAction(a, "drop") == a.(drop := Some(true))
  {
    WordStart("drop", "");
    NoPrefix("drop", "description ", 1);
    NoPrefix("drop", "set nexthop ", 0);
    NoPrefix("drop", "set nexthop-group ", 0);
  }

  lemma ExitLine(a: Action)
    ensures !StartsSequence("exit") && !HasPrefix("exit", "description ")
    ensures ApplyAction(a, "exit") == a
  {
    WordStart("exit", "");
    NoPrefix("exit", "description ", 0);
    NoPrefix("exit", "set nexthop ", 0);
    NoPrefix("exit", "set nexthop-group ", 0);
  }

  lemma ActionLineRead(s: Sequence)
    requires Readable(s)
    ensures |ActionLines(s.action)| == 1
    ensures var line := ActionLines(s.action)[0];
            && !StartsSequence(line) && !HasPrefix(line, "description ")
            && ApplyAction(NO_ACTION, line) == NormAction(s.action)
  {
    if Given(s.action.nexthop) {
      NexthopLineRead(s);
    } else if Given(s.action.nexthopGroup) {
      GroupLine(NO_ACTION, s.action.nexthopGroup.value);
    } else {
      DropLine(NO_ACTION);
    }
  }

  lemma SequenceRead(row: Row, s: Sequence)
    requires Readable(s)
    ensures ReadLines(row, SequenceLines(s)).sequences == row.sequences + [Norm(s)]
  {
    var line := ActionLines(s.action)[0];
    var lines := [line, "exit"];
    HeaderReadExactly(s);
    ActionLineRead(s);
    ExitLine(NormAction(s.action));
    TwoSteps(line, "exit", NormAction(s.action));
    SequenceAdded(row, SequenceHeader(s), lines);
    ThreeLines(SequenceHeader(s), ActionLines(s.action), "exit");
  }

  lemma TwoSteps(line: string, last: string, a: Action)
    requires !HasPrefix(line, "description ") && !HasPrefix(last, "description ")
    requires ApplyAction(NO_ACTION, line) == a && ApplyAction(a, last) == a
    ensures ActionOf([line, last]) == a
  {
    ScanOne(NO_ACTION, line, ActionStep);
    ScanSnoc(NO_ACTION, [line], last, ActionStep);
    assert [line] + [last] == [line, last];
  }

  lemma ThreeLines<T>(a: T, mid: seq<T>, c: T)
    requires |mid| == 1
    ensures [a] + mid + [c] == [a] + [mid[0], c]
  {
  }

  function NormAll(sequences: seq<Sequence>): (r: seq<Sequence>)
    ensures |r| == |sequences|
    ensures forall i :: 0 <= i < |r| ==> r[i] == Norm(sequences[i])
  {
    seq(|sequences|, i requires 0 <= i < |sequences| => Norm(sequences[i]))
  }

  lemma NormSnoc(sequences: seq<Sequence>)
    requires sequences != []
    ensures NormAll(sequences) == NormAll(sequences[..|sequences| - 1]) + [Norm(sequences[|sequences| - 1])]
  {
  }

  lemma ReadableFront(sequences: seq<Sequence>)
    requires AllReadable(sequences) && sequences != []
    ensures AllReadable(sequences[..|sequences| - 1]) && Readable(sequences[|sequences| - 1])
  {
  }

  lemma MoreRead(lines: seq<string>, s: Sequence)
    requires Readable(s)
    ensures ReadLines(EMPTY, lines + SequenceLines(s)).sequences == ReadLines(EMPTY, lines).sequences + [Norm(s)]
  {
    SequenceRead(ReadLines(EMPTY, lines), s);
    ReadAppend(EMPTY, lines, SequenceLines(s));
  }

  lemma {:induction false} SequencesRead(sequences: seq<Sequence>)
    requires AllReadable(sequences)
    ensures ReadLines(EMPTY, Collect(sequences, SequenceLines)).sequences == NormAll(sequences)
  {
    if sequences != [] {
      var n := |sequences| - 1;
      ReadableFront(sequences);
      SequencesRead(sequences[..n]);
      MoreRead(Collect(sequences[..n], SequenceLines), sequences[n]);
      NormSnoc(sequences);
    }
  }

  // ---- policies among other policies -----------------------------------------------------------

  /** A line that changes nothing, in whatever section it stands. */
  predicate Quiet(line: string) {
    && line != "drop"
    && !HasPrefix(line, "policy-map ") && !HasPrefix(line, "description ")
    && !HasPrefix(line, "set nexthop ") && !HasPrefix(line, "set nexthop-group ")
    && !StartsSequence(line)
  }

  predicate AllQuiet(lines: seq<string>) {
    forall i :: 0 <= i < |lines| ==> Quiet(lines[i])
  }

  lemma HeaderStart(name: string)
    ensures HasPrefix(Header(name), "policy-map ")
  {
    assert "policy-map type pbr " == "policy-map " + "type pbr ";
    Associate("policy-map ", "type pbr ", name);
    CutOwnPrefix("policy-map ", "type pbr " + name);
  }

  lemma QuietLines(st: Cursor, lines: seq<string>, name: string)
    requires AllQuiet(lines)
    ensures Scan(st, lines, Step(name)) == st
  {
    HeaderStart(name);
    forall i | 0 <= i < |lines| ensures Step(name)(st, lines[i]) == st {
      assert Quiet(lines[i]);
      assert Next(name, st, lines[i]) == st;
    }
    ScanIdle(st, lines, Step(name));
  }

  /** Lines of the body, header lines of other policy-maps excluded. */
  predicate NoHeaders(lines: seq<string>) {
    forall i :: 0 <= i < |lines| ==> !HasPrefix(lines[i], "policy-map ")
  }

  lemma {:induction false} OwnLines(st: Cursor, lines: seq<string>, name: string)
    requires NoHeaders(lines) && st.inOurs
    ensures Scan(st, lines, Step(name)) == st.(row := ReadLines(st.row, lines))
  {
    if lines != [] {
      var n := |lines| - 1;
      assert forall i :: 0 <= i < n ==> lines[..n][i] == lines[i];
      OwnLines(st, lines[..n], name);
      HeaderStart(name);
      assert !HasPrefix(lines[n], "policy-map ");
      Snoc(lines);
      ReadSnoc(st.row, lines[..n], lines[n]);
    }
  }

  /** Outside the section no line sticks. */
  lemma ForeignLines(st: Cursor, lines: seq<string>, name: string)
    requires Header(name) !in lines && !st.inOurs
    ensures Scan(st, lines, Step(name)) == st
  {
    forall i | 0 <= i < |lines| ensures Step(name)(st, lines[i]) == st {
      assert Next(name, st, lines[i]) == st;
    }
    ScanIdle(st, lines, Step(name));
  }

  /** Words that start no line of interest. */
  lemma QuietWord(word: string, rest: string)
    requires IsToken(word) && |word| >= 2 && word[0] !in {'p', 'd', '-', '+'} && !IsDigit(word[0])
    requires word[0] == 's' ==> |word| >= 3 && word[2] != 't'
    ensures Quiet(word + " " + rest)
  {
    var line := word + " " + rest;
    WordStart(word, rest);
    NoPrefix(line, "policy-map ", 0);
    NoPrefix(line, "description ", 0);
    NotSet(line);
  }

  lemma NotSet(line: string)
    requires |line| >= 2 && (line[0] == 's' ==> |line| >= 3 && line[2] != 't')
    ensures !HasPrefix(line, "set nexthop ") && !HasPrefix(line, "set nexthop-group ")
  {
    NoPrefix(line, "set nexthop ", if line[0] == 's' then 2 else 0);
    NoPrefix(line, "set nexthop-group ", if line[0] == 's' then 2 else 0);
  }

  lemma ExitQuiet()
    ensures Quiet("exit")
  {
    ExitLine(NO_ACTION);
    NoPrefix("exit", "policy-map ", 0);
    NotSet("exit");
  }

  lemma InterfaceQuiet(name: string)
    ensures Quiet("interface " + name)
  {
    QuietWord("interface", name);
    SpacedWord("interface", "interface ", name);
  }

  lemma NoQuiet(line: string)
    requires HasPrefix(line, "no ")
    ensures Quiet(line)
  {
    QuietWord("no", line[3..]);
    assert line == "no " + line[3..];
    SpacedWord("no", "no ", line[3..]);
  }

  lemma ServiceQuiet(name: string)
    ensures Quiet("service-policy type pbr input " + name)
  {
    ServiceWord("service-policy", name);
    ServiceSpaced("service-policy", "type pbr input ", name);
  }

  lemma ServiceWord(word: string, name: string)
    requires word == "service-policy"
    ensures Quiet(word + " " + ("type pbr input " + name))
  {
    QuietWord(word, "type pbr input " + name);
  }

  lemma ServiceSpaced(word: string, mid: string, name: string)
    requires word == "service-policy" && mid == "type pbr input "
    ensures "service-policy type pbr input " + name == word + " " + (mid + name)
  {
    assert "service-policy type pbr input " == word + " " + mid;
    Associate(word + " ", mid, name);
  }

  lemma CollectQuiet<T>(s: seq<T>, f: T -> seq<string>)
    requires forall i :: 0 <= i < |s| ==> AllQuiet(f(s[i]))
    ensures AllQuiet(Collect(s, f))
  {
    CollectAll(s, f, Quiet);
  }

  lemma DetachQuiet(name: string, a: Attachment)
    ensures AllQuiet(DetachLines(name)(a))
  {
    InterfaceQuiet(a.iface);
    NoServiceQuiet(name);
    ExitQuiet();
  }

  lemma NoServiceQuiet(name: string)
    ensures Quiet("no service-policy type pbr input " + name)
  {
    var line := "no service-policy type pbr input " + name;
    assert line[0] == 'n' && line[1] == 'o' && line[2] == ' ';
    assert line[..3] == "no ";
    NoQuiet(line);
  }

  lemma AttachQuiet(name: string, a: Attachment)
    ensures AllQuiet(AttachLines(name)(a))
  {
    InterfaceQuiet(a.iface);
    ServiceQuiet(name);
    ExitQuiet();
  }

  /** Detaching and attaching say nothing to the reader. */
  lemma LeadQuiet(args: Args)
    ensures AllQuiet(Lead(args))
  {
    forall i | 0 <= i < |args.attachments| ensures AllQuiet(DetachLines(args.name)(args.attachments[i])) {
      DetachQuiet(args.name, args.attachments[i]);
    }
    CollectQuiet(args.attachments, DetachLines(args.name));
    CutOwnPrefix("no ", Header(args.name));
    NoQuiet("no " + Header(args.name));
  }

  lemma TailQuiet(args: Args)
    ensures AllQuiet(Tail(args))
  {
    ExitQuiet();
    forall i | 0 <= i < |args.attachments| ensures AllQuiet(AttachLines(args.name)(args.attachments[i])) {
      AttachQuiet(args.name, args.attachments[i]);
    }
    CollectQuiet(args.attachments, AttachLines(args.name));
  }

  /** Sequences contain no policy-map header. */
  lemma SequenceNoHeaders(s: Sequence)
    ensures NoHeaders(SequenceLines(s))
  {
    ItoaToken(s.seqNo);
    assert SequenceHeader(s)[0] == Itoa(s.seqNo)[0];
    NoPrefix(SequenceHeader(s), "policy-map ", 0);
    NoPrefix("exit", "policy-map ", 0);
    NoPrefix("drop", "policy-map ", 0);
    if ActionLines(s.action) != [] {
      ActionFirst(s.action);
      NoPrefix(ActionLines(s.action)[0], "policy-map ", 0);
    }
  }

  lemma ActionFirst(a: Action)
    requires ActionLines(a) != []
    ensures |ActionLines(a)| == 1
    ensures var line := ActionLines(a)[0]; line != "" && line[0] != 'p'
  {
  }

  lemma {:induction false} SequencesNoHeaders(sequences: seq<Sequence>)
    ensures NoHeaders(Collect(sequences, SequenceLines))
  {
    if sequences != [] {
      SequencesNoHeaders(sequences[..|sequences| - 1]);
      SequenceNoHeaders(sequences[|sequences| - 1]);
    }
  }

  lemma HeadersApart(a: string, b: string)
    ensures Header(a) == Header(b) <==> a == b
  {
    CutOwnPrefix("policy-map type pbr ", a);
    CutOwnPrefix("policy-map type pbr ", b);
  }

  lemma BlockParts(st: Cursor, args: Args, name: string)
    ensures var body := Collect(args.sequences, SequenceLines);
            Scan(st, Rendered(args), Step(name)) == Scan(Next(name, st, Header(args.name)), body, Step(name))
  {
    var body := Collect(args.sequences, SequenceLines);
    ScanThree(st, Lead(args), [Header(args.name)] + body, Tail(args), Step(name));
    LeadQuiet(args);
    QuietLines(st, Lead(args), name);
    ScanAppend(st, [Header(args.name)], body, Step(name));
    ScanOne(st, Header(args.name), Step(name));
    TailQuiet(args);
    QuietLines(Scan(Next(name, st, Header(args.name)), body, Step(name)), Tail(args), name);
  }

  /** Another policy's block: the row stays as it is. */
  lemma OtherBlock(st: Cursor, args: Args, name: string)
    requires args.name != name
    ensures Scan(st, Rendered(args), Step(name)) == Cursor(st.found, false, st.row)
  {
    var body := Collect(args.sequences, SequenceLines);
    BlockParts(st, args, name);
    HeadersApart(args.name, name);
    HeaderStart(args.name);
    HeaderStart(name);
    SequencesNoHeaders(args.sequences);
    assert Header(name) !in body by {
      assert forall i :: 0 <= i < |body| ==> !HasPrefix(body[i], "policy-map ");
    }
    ForeignLines(Cursor(st.found, false, st.row), body, name);
  }

  lemma OwnBlock(st: Cursor, args: Args)
    ensures Scan(st, Rendered(args), Step(args.name))
         == Cursor(true, true, ReadLines(st.row, Collect(args.sequences, SequenceLines)))
  {
    BlockParts(st, args, args.name);
    SequencesNoHeaders(args.sequences);
    OwnLines(Cursor(true, true, st.row), Collect(args.sequences, SequenceLines), args.name);
  }

  const RenderedLines := (args: Args) => Rendered(args)

  predicate NoneNamed(policies: seq<Args>, name: string) {
    forall i :: 0 <= i < |policies| ==> policies[i].name != name
  }

  lemma {:induction false} OtherBlocks(st: Cursor, policies: seq<Args>, name: string)
    requires NoneNamed(policies, name)
    ensures var r := Scan(st, Collect(policies, RenderedLines), Step(name)); r.found == st.found && r.row == st.row
  {
    if policies != [] {
      var n := |policies| - 1;
      assert forall i :: 0 <= i < n ==> policies[..n][i] == policies[i];
      OtherBlocks(st, policies[..n], name);
      ScanAppend(st, Collect(policies[..n], RenderedLines), Rendered(policies[n]), Step(name));
      OtherBlock(Scan(st, Collect(policies[..n], RenderedLines), Step(name)), policies[n], name);
    }
  }

  lemma AroundPolicy(policies: seq<Args>, k: nat)
    requires k < |policies|
    ensures Collect(policies, RenderedLines)
         == Collect(policies[..k], RenderedLines) + Rendered(policies[k]) + Collect(policies[k + 1..], RenderedLines)
  {
    Around(policies, k);
    CollectAppend(policies[..k] + [policies[k]], policies[k + 1..], RenderedLines);
    CollectSnoc(policies[..k], policies[k], RenderedLines);
  }

  lemma OthersApart(policies: seq<Args>, k: nat)
    requires k < |policies|
    requires forall i :: 0 <= i < |policies| && i != k ==> policies[i].name != policies[k].name
    ensures NoneNamed(policies[..k], policies[k].name)
    ensures NoneNamed(policies[k + 1..], policies[k].name)
  {
  }

  lemma Between(a: seq<string>, block: seq<string>, b: seq<string>, name: string, mid: Cursor)
    requires Scan(Scan(START, a, Step(name)), block, Step(name)) == mid
    requires Scan(mid, b, Step(name)).found == mid.found && Scan(mid, b, Step(name)).row == mid.row
    ensures var st := Scan(START, a + block + b, Step(name)); st.found == mid.found && st.row == mid.row
  {
    ScanThree(START, a, block, b, Step(name));
  }

  lemma FoundAmongOthers(policies: seq<Args>, k: nat)
    requires k < |policies|
    requires forall i :: 0 <= i < |policies| && i != k ==> policies[i].name != policies[k].name
    ensures var st := Scan(START, Collect(policies, RenderedLines), Step(policies[k].name));
            st.found && st.row == ReadLines(EMPTY, Collect(policies[k].sequences, SequenceLines))
  {
    var args := policies[k];
    var before, after := policies[..k], policies[k + 1..];
    var mid := Cursor(true, true, ReadLines(EMPTY, Collect(args.sequences, SequenceLines)));
    OthersApart(policies, k);
    OtherBlocks(START, before, args.name);
    OwnBlock(Scan(START, Collect(before, RenderedLines), Step(args.name)), args);
    OtherBlocks(mid, after, args.name);
    Between(Collect(before, RenderedLines), Rendered(args), Collect(after, RenderedLines), args.name, mid);
    AroundPolicy(policies, k);
  }

  /** The round trip, with isolation: from the rendered blocks of several policies with
      distinct names, detach and attach lines included, each reads back as its own
      sequences, in order, with exactly one action each. */
  lemma ReadsBack(policies: seq<Args>, k: nat, text: string)
    requires k < |policies| && AllReadable(policies[k].sequences)
    requires forall i :: 0 <= i < |policies| && i != k ==> policies[i].name != policies[k].name
    requires TrimmedLines(text) == Collect(policies, RenderedLines)
    ensures var row := Reading(TrimmedLines(text), policies[k].name);
            row.Some? && row.value.sequences == NormAll(policies[k].sequences)
    ensures forall i :: 0 <= i < |policies[k].sequences| ==> ActionCount(NormAll(policies[k].sequences)[i].action) == 1
  {
    FoundAmongOthers(policies, k);
    SequencesRead(policies[k].sequences);
    OneActionEach(policies[k].sequences);
  }

  lemma OneActionEach(sequences: seq<Sequence>)
    requires AllReadable(sequences)
    ensures forall i :: 0 <= i < |sequences| ==> ActionCount(NormAll(sequences)[i].action) == 1
  {
    forall i | 0 <= i < |sequences| ensures ActionCount(NormAll(sequences)[i].action) == 1 {
      assert Readable(sequences[i]);
    }
  }

  /** What is read back would be staged as the same commands. */
  lemma {:induction false} NormStagedAlike(sequences: seq<Sequence>)
    requires AllReadable(sequences)
    ensures Collect(NormAll(sequences), SequenceLines) == Collect(sequences, SequenceLines)
  {
    if sequences != [] {
      var n := |sequences| - 1;
      assert forall i :: 0 <= i < n ==> sequences[..n][i] == sequences[i];
      NormSnoc(sequences);
      NormStagedAlike(sequences[..n]);
      NormOneAlike(sequences[n]);
      CollectSnoc(NormAll(sequences[..n]), Norm(sequences[n]), SequenceLines);
    }
  }

  lemma NormOneAlike(s: Sequence)
    requires Readable(s)
    ensures SequenceLines(Norm(s)) == SequenceLines(s)
  {
  }

  lemma AbsentNotFound(policies: seq<Args>, name: string, text: string)
    requires NoneNamed(policies, name)
    requires TrimmedLines(text) == Collect(policies, RenderedLines)
    ensures Reading(TrimmedLines(text), name) == None
  {
    OtherBlocks(START, policies, name);
  }

  /** A valid sequence of a class of two words, whose line is not read as it. */
  lemma TwoWordClassMissed(s: Sequence, isAddr: string -> bool)
    requires s == Sequence(10, "a b", Action(None, None, None, Some(true)))
    ensures ValidSequence(s, isAddr)
    ensures ParsePbrSeqHeader(SequenceHeader(s)) != Some(s.(action := NO_ACTION))
  {
    TwoWordsText(s.class_);
    HeaderReadExactly(s);
  }
  // ---- drift -------------------------------------------------------------------------------

  function FillState(row: Row, state: Args): Args {
    if row.sequences != [] then state.(sequences := row.sequences) else state
  }

  /** Drift is seen: whatever is stored for the policy, after a refresh its sequences are
      those of the device; its attachments, which are not read, are as stored. */
  lemma DriftIsSeen(policies: seq<Args>, k: nat, text: string, stored: Args)
    requires k < |policies| && AllReadable(policies[k].sequences) && stored.name == policies[k].name
    requires forall i :: 0 <= i < |policies| && i != k ==> policies[i].name != policies[k].name
    requires TrimmedLines(text) == Collect(policies, RenderedLines)
    ensures var live, row := policies[k].sequences, Reading(TrimmedLines(text), stored.name);
            && row.Some?
            && FillState(row.value, stored)
               == stored.(sequences := if live != [] then NormAll(live) else stored.sequences)
  {
    ReadsBack(policies, k, text);
  }
}
