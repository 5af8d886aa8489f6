/** Strings as the provider handles them: the parts of Go's `strings` and
    `strconv` packages that its renderers and parsers are built from.

    A string is a sequence of Unicode code points. `Int` is Go's `int` on a
    64-bit platform. */
module Text {
  import opened Seqs

  datatype Option<+T> = None | Some(value: T)

  const MIN_INT := -0x8000_0000_0000_0000
  const MAX_INT := 0x7FFF_FFFF_FFFF_FFFF

  type Int = n: int | MIN_INT <= n <= MAX_INT

  // ---- characters ---------------------------------------------------------

  /** `unicode.IsSpace`. */
  predicate IsSpace(c: char) {
    || '\t' <= c <= '\r'
    || c == ' '
    || c == '\U{85}'
    || c == '\U{A0}'
    || c == '\U{1680}'
    || '\U{2000}' <= c <= '\U{200A}'
    || c == '\U{2028}' || c == '\U{2029}' || c == '\U{202F}'
    || c == '\U{205F}' || c == '\U{3000}'
  }

  predicate IsDigit(c: char) {
    '0' <= c <= '9'
  }

  /** A non-empty string without white space: one word of a CLI line. */
  predicate IsToken(s: string) {
    s != "" && forall i :: 0 <= i < |s| ==> !IsSpace(s[i])
  }

  predicate AllTokens(ts: seq<string>) {
    forall i :: 0 <= i < |ts| ==> IsToken(ts[i])
  }

  /** Neither end of the string is white space. */
  predicate IsTrimmed(s: string) {
    s != "" ==> !IsSpace(s[0]) && !IsSpace(s[|s| - 1])
  }

  /** Text that survives the line scanners: one line, with nothing to trim. */
  predicate IsLine(s: string) {
    '\n' !in s && IsTrimmed(s)
  }

  /** Two words are not one, though there is nothing to trim. */
  lemma TwoWordsText(s: string)
    requires s == "a b"
    ensures !IsToken(s) && IsLine(s) && s != ""
  {
    assert IsSpace(s[1]);
  }

  // ---- joining and splitting ------------------------------------------------

  /** `strings.Join`. */
  function Join(parts: seq<string>, sep: string): string {
    if parts == [] then ""
    else if |parts| == 1 then parts[0]
    else parts[0] + sep + Join(parts[1..], sep)
  }

  /** `strings.IndexByte`, with the length standing for "not found". */
  function IndexOf(s: string, c: char): (i: nat)
    ensures i <= |s|
    ensures forall j :: 0 <= j < i ==> s[j] != c
    ensures i < |s| ==> s[i] == c
  {
    if s == "" || s[0] == c then 0 else 1 + IndexOf(s[1..], c)
  }

  /** `strings.Split` and `strings.SplitSeq` on a one-character separator. */
  function Split(s: string, sep: char): (parts: seq<string>)
    ensures |parts| >= 1
    ensures forall i :: 0 <= i < |parts| ==> sep !in parts[i]
    decreases |s|
  {
    var i := IndexOf(s, sep);
    if i == |s| then [s] else [s[..i]] + Split(s[i + 1..], sep)
  }

  lemma IndexOfUnique(s: string, c: char, i: nat)
    requires i <= |s|
    requires c !in s[..i]
    requires i < |s| ==> s[i] == c
    ensures IndexOf(s, c) == i
  {
    var k := IndexOf(s, c);
    assert forall j :: 0 <= j < i ==> s[..i][j] == s[j];
  }

  lemma SplitAt(part: string, sep: char, rest: string)
    requires sep !in part
    ensures Split(part + [sep] + rest, sep) == [part] + Split(rest, sep)
  {
    AroundParts(part, sep, rest);
    IndexOfUnique(part + [sep] + rest, sep, |part|);
  }

  lemma SplitNone(s: string, sep: char)
    requires sep !in s
    ensures Split(s, sep) == [s]
  {
    TakeAll(s);
    IndexOfUnique(s, sep, |s|);
  }

  lemma JoinCons(first: string, rest: seq<string>, sep: string)
    requires rest != []
    ensures Join([first] + rest, sep) == first + sep + Join(rest, sep)
  {
    ConsParts(first, rest);
  }

  lemma {:induction false} JoinSplit(s: string, sep: char)
    ensures Join(Split(s, sep), [sep]) == s
    decreases |s|
  {
    var i := IndexOf(s, sep);
    if i < |s| {
      JoinSplit(s[i + 1..], sep);
      JoinCons(s[..i], Split(s[i + 1..], sep), [sep]);
      Around(s, i);
    }
  }

  lemma {:induction false} SplitJoin(parts: seq<string>, sep: char)
    requires parts != []
    requires forall i :: 0 <= i < |parts| ==> sep !in parts[i]
    ensures Split(Join(parts, [sep]), sep) == parts
  {
    if |parts| == 1 {
      SplitNone(parts[0], sep);
    } else {
      SplitAt(parts[0], sep, Join(parts[1..], [sep]));
      SplitJoin(parts[1..], sep);
      Cons(parts);
    }
  }

  lemma {:induction false} SplitAppend(a: string, sep: char, b: string)
    ensures Split(a + [sep] + b, sep) == Split(a, sep) + Split(b, sep)
    decreases |a|
  {
    var i := IndexOf(a, sep);
    if i == |a| {
      SplitAt(a, sep, b);
    } else {
      var rest := a[i + 1..];
      Associate(a, [sep], b);
      AroundAppend(a, i, [sep] + b);
      Associate(rest, [sep], b);
      SplitAt(a[..i], sep, rest + [sep] + b);
      SplitAppend(rest, sep, b);
      Associate([a[..i]], Split(rest, sep), Split(b, sep));
    }
  }

  lemma {:induction false} JoinAppend(a: seq<string>, b: seq<string>, sep: string)
    requires a != [] && b != []
    ensures Join(a + b, sep) == Join(a, sep) + sep + Join(b, sep)
  {
    Cons(a);
    if |a| == 1 {
      JoinCons(a[0], b, sep);
    } else {
      JoinAppend(a[1..], b, sep);
      Associate([a[0]], a[1..], b);
      JoinCons(a[0], a[1..] + b, sep);
      JoinCons(a[0], a[1..], sep);
      Associate(a[0] + sep, Join(a[1..], sep) + sep, Join(b, sep));
      Associate(a[0] + sep, Join(a[1..], sep), sep);
    }
  }

  // ---- words ------------------------------------------------------------------

  function WordLen(s: string): (n: nat)
    ensures n <= |s|
    ensures forall i :: 0 <= i < n ==> !IsSpace(s[i])
    ensures n < |s| ==> IsSpace(s[n])
  {
    if s == "" || IsSpace(s[0]) then 0 else 1 + WordLen(s[1..])
  }

  /** `strings.Fields`. */
  function Fields(s: string): (words: seq<string>)
    ensures AllTokens(words)
    decreases |s|
  {
    if s == "" then []
    else if IsSpace(s[0]) then Fields(s[1..])
    else
      var n := WordLen(s);
      [s[..n]] + Fields(s[n..])
  }

  lemma WordLenUnique(s: string, n: nat)
    requires n <= |s|
    requires forall i :: 0 <= i < n ==> !IsSpace(s[i])
    requires n < |s| ==> IsSpace(s[n])
    ensures WordLen(s) == n
  {
  }

  lemma FieldsWord(t: string, rest: string)
    requires IsToken(t)
    ensures Fields(t + " " + rest) == [t] + Fields(rest)
  {
    var s := t + " " + rest;
    assert s[|t|] == ' ';
    assert forall i :: 0 <= i < |t| ==> s[i] == t[i];
    WordLenUnique(s, |t|);
    assert s[..|t|] == t;
    assert s[|t|..] == " " + rest;
    assert (" " + rest)[1..] == rest;
  }

  lemma FieldsToken(t: string)
    requires IsToken(t)
    ensures Fields(t) == [t]
  {
    WordLenUnique(t, |t|);
    assert t[..|t|] == t;
  }

  /** The words around a blank. */
  lemma {:induction false} FieldsAppend(a: string, b: string)
    ensures Fields(a + " " + b) == Fields(a) + Fields(b)
    decreases |a|
  {
    var s := a + " " + b;
    if a == "" {
      assert s[1..] == b;
    } else if IsSpace(a[0]) {
      assert s[1..] == a[1..] + " " + b;
      FieldsAppend(a[1..], b);
    } else {
      var n := WordLen(a);
      assert forall i :: 0 <= i < |a| ==> s[i] == a[i];
      WordLenUnique(s, n);
      assert s[..n] == a[..n] && s[n..] == a[n..] + " " + b;
      FieldsAppend(a[n..], b);
      Associate([a[..n]], Fields(a[n..]), Fields(b));
    }
  }

  /** Splitting into words undoes joining words with single spaces. */
  lemma {:induction false} FieldsJoin(ts: seq<string>)
    requires AllTokens(ts)
    ensures Fields(Join(ts, " ")) == ts
  {
    if |ts| == 1 {
      FieldsToken(ts[0]);
    } else if |ts| > 1 {
      FieldsWord(ts[0], Join(ts[1..], " "));
      FieldsJoin(ts[1..]);
      assert ts == [ts[0]] + ts[1..];
    }
  }

  // Short lines, written from left to right. The words are variables: literals in
  // their place make the same facts expensive.

  lemma JoinSnoc(ts: seq<string>, t: string)
    requires ts != []
    ensures Join(ts + [t], " ") == Join(ts, " ") + " " + t
  {
    JoinAppend(ts, [t], " ");
  }

  lemma Words2(a: string, b: string)
    requires IsToken(a) && IsToken(b)
    ensures Join([a, b], " ") == a + " " + b
    ensures Fields(a + " " + b) == [a, b]
  {
    JoinSnoc([a], b);
    FieldsJoin([a] + [b]);
  }

  lemma Words3(a: string, b: string, c: string)
    requires IsToken(a) && IsToken(b) && IsToken(c)
    ensures Join([a, b, c], " ") == a + " " + b + " " + c
    ensures Fields(a + " " + b + " " + c) == [a, b, c]
  {
    var front := [a, b];
    Words2(a, b);
    JoinSnoc(front, c);
    assert [a, b, c] == front + [c];
    assert AllTokens(front + [c]);
    FieldsJoin(front + [c]);
  }

  lemma Words4(a: string, b: string, c: string, d: string)
    requires IsToken(a) && IsToken(b) && IsToken(c) && IsToken(d)
    ensures Join([a, b, c, d], " ") == a + " " + b + " " + c + " " + d
    ensures Fields(a + " " + b + " " + c + " " + d) == [a, b, c, d]
  {
    var front := [a, b, c];
    Words3(a, b, c);
    JoinSnoc(front, d);
    assert [a, b, c, d] == front + [d];
    assert AllTokens(front + [d]);
    FieldsJoin(front + [d]);
  }

  lemma Words5(a: string, b: string, c: string, d: string, e: string)
    requires IsToken(a) && IsToken(b) && IsToken(c) && IsToken(d) && IsToken(e)
    ensures Join([a, b, c, d, e], " ") == a + " " + b + " " + c + " " + d + " " + e
    ensures Fields(a + " " + b + " " + c + " " + d + " " + e) == [a, b, c, d, e]
  {
    var front := [a, b, c, d];
    Words4(a, b, c, d);
    JoinSnoc(front, e);
    assert [a, b, c, d, e] == front + [e];
    assert AllTokens(front + [e]);
    FieldsJoin(front + [e]);
  }

  lemma Words6(a: string, b: string, c: string, d: string, e: string, f: string)
    requires IsToken(a) && IsToken(b) && IsToken(c) && IsToken(d) && IsToken(e) && IsToken(f)
    ensures Join([a, b, c, d, e, f], " ") == a + " " + b + " " + c + " " + d + " " + e + " " + f
    ensures Fields(a + " " + b + " " + c + " " + d + " " + e + " " + f) == [a, b, c, d, e, f]
  {
    var front := [a, b, c, d, e];
    Words5(a, b, c, d, e);
    JoinSnoc(front, f);
    assert [a, b, c, d, e, f] == front + [f];
    assert AllTokens(front + [f]);
    FieldsJoin(front + [f]);
  }

  // A line of a fixed head and one more word.

  lemma TwoWordLine(head: string, a: string, word: string)
    requires head == a + " " && IsToken(a) && IsToken(word)
    ensures Fields(head + word) == [a, word]
  {
    Words2(a, word);
  }

  lemma ThreeWordLine(head: string, a: string, b: string, word: string)
    requires head == a + " " + b + " " && IsToken(a) && IsToken(b) && IsToken(word)
    ensures Fields(head + word) == [a, b, word]
  {
    Words3(a, b, word);
  }

  lemma FourWordLine(head: string, a: string, b: string, c: string, word: string)
    requires head == a + " " + b + " " + c + " " && IsToken(a) && IsToken(b) && IsToken(c) && IsToken(word)
    ensures Fields(head + word) == [a, b, c, word]
  {
    Words4(a, b, c, word);
  }

  lemma {:induction false} JoinIsLine(ts: seq<string>)
    requires AllTokens(ts)
    ensures IsLine(Join(ts, " "))
    ensures ts != [] ==> Join(ts, " ") != ""
  {
    if |ts| > 1 {
      JoinIsLine(ts[1..]);
      assert IsToken(ts[0]);
    }
  }

  // ---- trimming ---------------------------------------------------------------

  function TrimLeft(s: string): (r: string)
    ensures r != "" ==> !IsSpace(r[0])
  {
    if s != "" && IsSpace(s[0]) then TrimLeft(s[1..]) else s
  }

  function TrimRight(s: string): (r: string)
    ensures r != "" ==> !IsSpace(r[|r| - 1])
    ensures r <= s
  {
    if s != "" && IsSpace(s[|s| - 1]) then TrimRight(s[..|s| - 1]) else s
  }

  /** `strings.TrimSpace`. */
  function TrimSpace(s: string): (r: string)
    ensures IsTrimmed(r)
    ensures IsTrimmed(s) ==> r == s
  {
    TrimRight(TrimLeft(s))
  }

  lemma {:induction false} TrimLeftIn(s: string)
    ensures forall c :: c in TrimLeft(s) ==> c in s
  {
    if s != "" && IsSpace(s[0]) {
      TrimLeftIn(s[1..]);
      assert forall c :: c in s[1..] ==> c in s;
    }
  }

  lemma TrimSpaceIn(s: string)
    ensures forall c :: c in TrimSpace(s) ==> c in s
  {
    TrimLeftIn(s);
  }

  predicate AllSpace(s: string) {
    forall i :: 0 <= i < |s| ==> IsSpace(s[i])
  }

  lemma {:induction false} TrimLeftBlanks(blanks: string, rest: string)
    requires AllSpace(blanks)
    ensures TrimLeft(blanks + rest) == TrimLeft(rest)
  {
    if blanks == "" {
      AppendEmpty(rest);
    } else {
      AppendTail(blanks, rest);
      TrimLeftBlanks(blanks[1..], rest);
    }
  }

  lemma {:induction false} TrimRightBlanks(front: string, blanks: string)
    requires AllSpace(blanks) && front != "" && !IsSpace(front[|front| - 1])
    ensures TrimRight(front + blanks) == front
  {
    if blanks == "" {
      AppendEmpty(front);
    } else {
      AppendFront(front, blanks);
      TrimRightBlanks(front, blanks[..|blanks| - 1]);
    }
  }

  /** Indentation and trailing blanks do not survive `TrimSpace`. */
  lemma TrimIndented(indent: string, s: string, tail: string)
    requires AllSpace(indent) && AllSpace(tail)
    requires IsTrimmed(s)
    ensures TrimSpace(indent + s + tail) == s
  {
    Associate(indent, s, tail);
    TrimLeftBlanks(indent, s + tail);
    if s == "" {
      AppendEmpty(tail);
      TrimLeftBlanks(tail, "");
    } else {
      AppendTail(s, tail);
      TrimRightBlanks(s, tail);
    }
  }

  /** The trimmed lines of a text: what every line scanner looks at. */
  function TrimmedLines(text: string): (lines: seq<string>)
    ensures |lines| >= 1
    ensures forall i :: 0 <= i < |lines| ==> IsLine(lines[i])
  {
    TrimAll(Split(text, '\n'))
  }

  function TrimAll(raw: seq<string>): (lines: seq<string>)
    requires forall i :: 0 <= i < |raw| ==> '\n' !in raw[i]
    ensures |lines| == |raw|
    ensures forall i :: 0 <= i < |lines| ==> lines[i] == TrimSpace(raw[i])
    ensures forall i :: 0 <= i < |lines| ==> IsLine(lines[i])
  {
    if raw == [] then []
    else
      TrimSpaceIn(raw[0]);
      [TrimSpace(raw[0])] + TrimAll(raw[1..])
  }

  predicate AllLines(lines: seq<string>) {
    forall i :: 0 <= i < |lines| ==> IsLine(lines[i])
  }

  /** Lines printed one under another, each between blanks of its own. */
  function Printing(lines: seq<string>, indents: seq<string>, tails: seq<string>): string
    requires |indents| == |tails| == |lines|
  {
    Join(seq(|lines|, i requires 0 <= i < |lines| => indents[i] + lines[i] + tails[i]), "\n")
  }

  predicate IsBlankOfLine(s: string) {
    AllSpace(s) && '\n' !in s
  }

  predicate AllBlanks(blanks: seq<string>) {
    forall i :: 0 <= i < |blanks| ==> IsBlankOfLine(blanks[i])
  }

  /** A text shows these lines, whatever its indentation and its trailing blanks. */
  ghost predicate Prints(text: string, lines: seq<string>) {
    exists indents: seq<string>, tails: seq<string> ::
      |indents| == |tails| == |lines| && AllBlanks(indents) && AllBlanks(tails)
      && text == Printing(lines, indents, tails)
  }

  lemma PrintedLines(lines: seq<string>, indents: seq<string>, tails: seq<string>)
    requires |indents| == |tails| == |lines| && lines != [] && AllLines(lines)
    requires AllBlanks(indents) && AllBlanks(tails)
    ensures TrimmedLines(Printing(lines, indents, tails)) == lines
  {
    var raws := seq(|lines|, i requires 0 <= i < |lines| => indents[i] + lines[i] + tails[i]);
    forall i | 0 <= i < |raws| ensures '\n' !in raws[i] && TrimSpace(raws[i]) == lines[i] {
      assert IsBlankOfLine(indents[i]) && IsBlankOfLine(tails[i]) && IsLine(lines[i]);
      TrimIndented(indents[i], lines[i], tails[i]);
    }
    SplitJoin(raws, '\n');
  }

  /** Indentation and trailing blanks are immaterial to every line scanner. */
  lemma PrintedIsRead(text: string, lines: seq<string>)
    requires lines != [] && AllLines(lines) && Prints(text, lines)
    ensures TrimmedLines(text) == lines
  {
    var indents: seq<string>, tails: seq<string> :|
      |indents| == |tails| == |lines| && AllBlanks(indents) && AllBlanks(tails)
      && text == Printing(lines, indents, tails);
    PrintedLines(lines, indents, tails);
  }

  // ---- prefixes and suffixes ----------------------------------------------------

  predicate HasPrefix(s: string, p: string) {
    |p| <= |s| && s[..|p|] == p
  }

  predicate HasSuffix(s: string, p: string) {
    |p| <= |s| && s[|s| - |p|..] == p
  }

  /** `strings.CutPrefix`. */
  function CutPrefix(s: string, p: string): (r: Option<string>)
    ensures r.Some? <==> HasPrefix(s, p)
    ensures r.Some? ==> s == p + r.value
  {
    if HasPrefix(s, p) then Some(s[|p|..]) else None
  }

  /** `strings.CutSuffix`. */
  function CutSuffix(s: string, p: string): (r: Option<string>)
    ensures r.Some? <==> HasSuffix(s, p)
    ensures r.Some? ==> s == r.value + p
  {
    if HasSuffix(s, p) then Some(s[..|s| - |p|]) else None
  }

  /** `strings.TrimPrefix`. */
  function TrimPrefix(s: string, p: string): string {
    if HasPrefix(s, p) then s[|p|..] else s
  }

  /** `strings.TrimSuffix`. */
  function TrimSuffix(s: string, p: string): string {
    if HasSuffix(s, p) then s[..|s| - |p|] else s
  }

  /** `strings.Contains`. */
  predicate Contains(s: string, sub: string) {
    exists i :: 0 <= i <= |s| && HasPrefix(s[i..], sub)
  }

  lemma CutOwnPrefix(p: string, rest: string)
    ensures HasPrefix(p + rest, p)
    ensures CutPrefix(p + rest, p) == Some(rest)
    ensures TrimPrefix(p + rest, p) == rest
  {
    assert (p + rest)[..|p|] == p;
    assert (p + rest)[|p|..] == rest;
  }

  lemma CutOwnSuffix(rest: string, p: string)
    ensures CutSuffix(rest + p, p) == Some(rest)
    ensures TrimSuffix(rest + p, p) == rest
  {
    assert (rest + p)[|rest|..] == p;
    assert (rest + p)[..|rest|] == rest;
  }

  /** One differing character rules a prefix out. */
  lemma NoPrefix(s: string, p: string, i: nat)
    requires i < |p|
    requires i < |s| ==> s[i] != p[i]
    ensures !HasPrefix(s, p)
    ensures CutPrefix(s, p) == None
    ensures TrimPrefix(s, p) == s
  {
    assert |p| <= |s| ==> s[..|p|][i] == s[i];
  }

  /** A token followed by a space is found in front of a token exactly when the
      tokens agree. */
  lemma TokenPrefix(m: string, n: string, rest: string)
    requires IsToken(m) && IsToken(n)
    ensures HasPrefix(m + " " + rest, n + " ") <==> m == n
  {
    var s := m + " " + rest;
    if m == n {
      CutOwnPrefix(n + " ", rest);
      assert s == n + " " + rest;
    } else if |n| != |m| {
      var k := if |n| < |m| then |n| else |m|;
      assert s[k] != (n + " ")[k];
      NoPrefix(s, n + " ", k);
    } else {
      var k :| 0 <= k < |m| && m[k] != n[k];
      assert s[k] != (n + " ")[k];
      NoPrefix(s, n + " ", k);
    }
  }

  /** A space and a token are found behind a token exactly when the tokens agree. */
  lemma TokenSuffix(m: string, n: string, front: string)
    requires IsToken(m) && IsToken(n)
    ensures HasSuffix(front + " " + m, " " + n) <==> m == n
  {
    var s := front + " " + m;
    var tail := " " + n;
    if m == n {
      assert s == front + tail;
      CutOwnSuffix(front, tail);
    } else if |n| < |m| {
      // the space of the suffix falls inside the token
      assert s[|s| - |tail|] == m[|m| - |tail|];
      NoSuffix(s, tail, 0);
    } else if |n| > |m| {
      assert s[|s| - |m| - 1] == ' ' && tail[|tail| - |m| - 1] == n[|n| - |m| - 1];
      NoSuffix(s, tail, |tail| - |m| - 1);
    } else {
      var k :| 0 <= k < |m| && m[k] != n[k];
      assert s[|front| + 1 + k] == m[k];
      NoSuffix(s, tail, k + 1);
    }
  }

  lemma NoSuffix(s: string, p: string, i: nat)
    requires i < |p|
    requires |p| <= |s| ==> s[|s| - |p| + i] != p[i]
    ensures !HasSuffix(s, p)
    ensures CutSuffix(s, p) == None
    ensures TrimSuffix(s, p) == s
  {
    assert |p| <= |s| ==> s[|s| - |p|..][i] == s[|s| - |p| + i];
  }

  /** A token ends in no suffix that holds a space. */
  lemma NoSuffixInToken(t: string, p: string, i: nat)
    requires IsToken(t) && i < |p| && IsSpace(p[i])
    ensures !HasSuffix(t, p)
    ensures CutSuffix(t, p) == None
    ensures TrimSuffix(t, p) == t
  {
    NoSuffix(t, p, i);
  }

  /** A common prefix cancels. */
  lemma PrefixCancels(p: string, s: string, q: string)
    ensures HasPrefix(p + s, p + q) <==> HasPrefix(s, q)
  {
    if |q| <= |s| {
      assert (p + s)[..|p + q|] == p + s[..|q|];
      if HasPrefix(p + s, p + q) {
        assert (p + s[..|q|])[|p|..] == s[..|q|];
        assert (p + q)[|p|..] == q;
      }
    }
  }

  /** The prefix test with a token in the middle: `head TOKEN rest` begins with
      `head NAME ` exactly when the tokens agree, and then the rest is what
      remains. */
  lemma CutNamed(head: string, m: string, n: string, rest: string)
    requires IsToken(m) && IsToken(n)
    ensures CutPrefix(head + m + " " + rest, head + n + " ") == if m == n then Some(rest) else None
  {
    assert head + m + " " + rest == head + (m + " " + rest);
    assert head + n + " " == head + (n + " ");
    PrefixCancels(head, m + " " + rest, n + " ");
    TokenPrefix(m, n, rest);
    if m == n {
      CutOwnPrefix(head + n + " ", rest);
      assert head + m + " " + rest == head + n + " " + rest;
    }
  }

  /** Text that can stand at the end of a trimmed line: one line, and nothing to trim at
      its end. */
  predicate EndsLine(s: string) {
    s != "" ==> '\n' !in s && !IsSpace(s[|s| - 1])
  }

  lemma TailEndsLine(line: string, head: string, tail: string)
    requires IsLine(line) && line == head + tail
    ensures EndsLine(tail)
  {
    if tail != "" {
      assert line[|line| - 1] == tail[|tail| - 1];
      assert forall i :: 0 <= i < |tail| ==> tail[i] == line[|head| + i];
    }
  }

  lemma CutEndsLine(s: string, head: string)
    requires EndsLine(s) && HasPrefix(s, head)
    ensures EndsLine(s[|head|..])
  {
    var tail := s[|head|..];
    if tail != "" {
      assert tail[|tail| - 1] == s[|s| - 1];
      assert forall i :: 0 <= i < |tail| ==> tail[i] == s[|head| + i];
    }
  }

  // ---- where a trimmed line stands -----------------------------------------------

  lemma ContainsMiddle(text: string, a: string, b: string, c: string)
    requires text == a + b + c
    ensures Contains(text, b)
  {
    assert text[|a|..][..|b|] == (a + b + c)[|a|..|a| + |b|] == b;
    assert HasPrefix(text[|a|..], b);
  }

  lemma ContainsStart(text: string, line: string, head: string)
    requires Contains(text, line) && HasPrefix(line, head)
    ensures Contains(text, head)
  {
    var i :| 0 <= i <= |text| && HasPrefix(text[i..], line);
    assert text[i..][..|head|] == line[..|head|];
    assert HasPrefix(text[i..], head);
  }

  lemma {:induction false} SplitPart(s: string, sep: char, i: nat) returns (before: string, after: string)
    requires i < |Split(s, sep)|
    ensures s == before + Split(s, sep)[i] + after
    decreases |s|
  {
    var k := IndexOf(s, sep);
    if k == |s| {
      before, after := "", "";
    } else if i == 0 {
      before, after := "", s[k..];
      PrefixParts(s, s[..k]);
    } else {
      var front: string;
      front, after := SplitPart(s[k + 1..], sep, i - 1);
      before := s[..k + 1] + front;
      PrefixParts(s, s[..k + 1]);
      ThreeParts(s[..k + 1], front, Split(s, sep)[i], after);
    }
  }

  lemma {:induction false} TrimLeftPart(s: string) returns (before: string)
    ensures s == before + TrimLeft(s)
  {
    if s != "" && IsSpace(s[0]) {
      before := TrimLeftPart(s[1..]);
      before := [s[0]] + before;
      Cons(s);
    } else {
      before := "";
    }
  }

  /** A text contains each of its trimmed lines. */
  lemma LineIsIn(text: string, i: nat)
    requires i < |TrimmedLines(text)|
    ensures Contains(text, TrimmedLines(text)[i])
  {
    var raw, line := Split(text, '\n')[i], TrimmedLines(text)[i];
    var before, after := SplitPart(text, '\n', i);
    var indent := TrimLeftPart(raw);
    var tail := TrimLeft(raw)[|line|..];
    PrefixParts(TrimLeft(raw), line);
    Nested(before, indent, line, tail, after);
    ContainsMiddle(text, before + indent, line, tail + after);
  }

  // ---- decimal numbers --------------------------------------------------------

  predicate AllDigits(s: string) {
    forall i :: 0 <= i < |s| ==> IsDigit(s[i])
  }

  function DigitChar(d: nat): (c: char)
    requires d < 10
    ensures IsDigit(c) && c as int - '0' as int == d
  {
    ('0' as int + d) as char
  }

  /** The value of a digit string, most significant digit first. */
  function DecValue(s: string): (v: int)
    requires AllDigits(s)
    ensures v >= 0
  {
    if s == "" then 0
    else DecValue(s[..|s| - 1]) * 10 + (s[|s| - 1] as int - '0' as int)
  }

  function NatToDec(n: nat): (s: string)
    ensures s != "" && AllDigits(s)
    ensures DecValue(s) == n
    ensures |s| > 1 ==> s[0] != '0'
    ensures n > 0 ==> s[0] != '0'
  {
    if n < 10 then
      var s := [DigitChar(n)];
      assert s[..0] == "";
      s
    else
      var front := NatToDec(n / 10);
      var s := front + [DigitChar(n % 10)];
      assert s[..|s| - 1] == front;
      s
  }

  /** `strconv.Itoa`. */
  function Itoa(n: int): string {
    if n < 0 then "-" + NatToDec(-n) else NatToDec(n)
  }

  /** `strconv.Atoi`: an optional sign, then decimal digits, in 64 bits. */
  function Atoi(s: string): Option<Int> {
    var body := if s != "" && (s[0] == '-' || s[0] == '+') then s[1..] else s;
    if body == "" || !AllDigits(body) then None
    else
      var v: int := if s[0] == '-' then -DecValue(body) else DecValue(body);
      if MIN_INT <= v <= MAX_INT then Some(v) else None
  }

  /** Reading back a printed number gives the number. */
  lemma AtoiItoa(n: Int)
    ensures Atoi(Itoa(n)) == Some(n)
  {
    if n < 0 {
      assert ("-" + NatToDec(-(n as int)))[1..] == NatToDec(-(n as int));
    } else {
      assert IsDigit(NatToDec(n)[0]);
    }
  }

  lemma ItoaToken(n: int)
    ensures IsToken(Itoa(n))
    ensures IsDigit(Itoa(n)[0]) || Itoa(n)[0] == '-'
    ensures forall i :: 0 <= i < |Itoa(n)| ==> IsDigit(Itoa(n)[i]) || Itoa(n)[i] == '-'
    ensures n >= 0 ==> AllDigits(Itoa(n))
  {
  }

  lemma ItoaInjective(m: Int, n: Int)
    requires Itoa(m) == Itoa(n)
    ensures m == n
  {
    AtoiItoa(m);
    AtoiItoa(n);
  }

  function ItoaAll(ns: seq<Int>): (r: seq<string>)
    ensures |r| == |ns|
    ensures forall i :: 0 <= i < |ns| ==> r[i] == Itoa(ns[i])
  {
    seq(|ns|, i requires 0 <= i < |ns| => Itoa(ns[i]))
  }
}
