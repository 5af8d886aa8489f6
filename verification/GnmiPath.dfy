/** gNMI path strings: elements separated by slashes, each a name and bracketed
    keys. */
module GnmiPath {
  import opened Seqs
  import opened Text

  /** A path element; no key map at all is different from an empty one. */
  datatype Elem = Elem(name: string, keys: Option<map<string, string>>)

  // ---- splitting at top-level slashes ---------------------------------------------------

  function Depth(before: nat, c: char): nat {
    if c == '[' then before + 1
    else if c == ']' && before > 0 then before - 1
    else before
  }

  /** The bracket depth after a text. */
  function DepthAfter(s: string): nat {
    if s == "" then 0 else Depth(DepthAfter(s[..|s| - 1]), s[|s| - 1])
  }

  /** The segments closed so far and the one being read. */
  datatype Cut = Cut(done: seq<string>, open: string)

  function CutAt(c: Cut, depth: nat, ch: char): Cut {
    if ch == '/' && depth == 0 then Cut(c.done + [c.open], "") else c.(open := c.open + [ch])
  }

  function CutUp(s: string): Cut {
    if s == "" then Cut([], "")
    else CutAt(CutUp(s[..|s| - 1]), DepthAfter(s[..|s| - 1]), s[|s| - 1])
  }

  function Segments(s: string): seq<string> {
    var c := CutUp(s);
    if c.open == "" then c.done else c.done + [c.open]
  }

  lemma CutStep(s: string, i: nat)
    requires i < |s|
    ensures CutUp(s[..i + 1]) == CutAt(CutUp(s[..i]), DepthAfter(s[..i]), s[i])
    ensures DepthAfter(s[..i + 1]) == Depth(DepthAfter(s[..i]), s[i])
  {
    TakeSnoc(s, i);
    SnocParts(s[..i], s[i]);
  }

  method SplitPath(s: string) returns (out: seq<string>)
    ensures out == Segments(s)
  {
    out := [];
    var depth: nat := 0;
    var start := 0;
    for i := 0 to |s|
      invariant 0 <= start <= i
      invariant depth == DepthAfter(s[..i])
      invariant Cut(out, s[start..i]) == CutUp(s[..i])
    {
      CutStep(s, i);
      SliceSnoc(s, start, i);
      match s[i] {
        case '[' => depth := depth + 1;
        case ']' =>
          if depth > 0 {
            depth := depth - 1;
          }
        case '/' =>
          if depth == 0 {
            out := out + [s[start..i]];
            start := i + 1;
          }
        case _ =>
      }
    }
    TakeAll(s);
    SliceEnd(s, start);
    if start < |s| {
      out := out + [s[start..]];
    }
  }

  // ---- what splitting keeps ------------------------------------------------------------------

  function WithOpen(c: Cut): seq<string> {
    c.done + [c.open]
  }

  lemma JoinGrows(parts: seq<string>, last: string, c: char)
    ensures Join(parts + [last + [c]], "/") == Join(parts + [last], "/") + [c]
  {
    if parts != [] {
      JoinAppend(parts, [last + [c]], "/");
      JoinAppend(parts, [last], "/");
      Associate(Join(parts, "/") + "/", last, [c]);
    }
  }

  lemma JoinCloses(parts: seq<string>)
    requires parts != []
    ensures Join(parts + [""], "/") == Join(parts, "/") + "/"
  {
    JoinAppend(parts, [""], "/");
    AppendEmpty(Join(parts, "/") + "/");
  }

  /** Joining the cut with slashes gives the text back, for every text. */
  lemma {:induction false} CutJoins(s: string)
    ensures Join(WithOpen(CutUp(s)), "/") == s
  {
    if s != "" {
      var front, c := s[..|s| - 1], s[|s| - 1];
      var before := CutUp(front);
      CutJoins(front);
      Snoc(s);
      if c == '/' && DepthAfter(front) == 0 {
        JoinCloses(WithOpen(before));
      } else {
        JoinGrows(before.done, before.open, c);
      }
    }
  }

  /** For every string: joining the segments gives the input back, up to one slash
      dropped at the end. It is dropped exactly when the text is empty after its
      last top-level slash. */
  lemma SegmentsJoin(s: string)
    requires s != ""
    ensures CutUp(s).open != "" ==> Join(Segments(s), "/") == s
    ensures CutUp(s).open == "" ==> Join(Segments(s), "/") + "/" == s
  {
    var c := CutUp(s);
    CutJoins(s);
    if c.open == "" {
      assert c.done == [] ==> Join(WithOpen(c), "/") == "";
      JoinCloses(c.done);
    }
  }

  /** No slash outside brackets. */
  predicate NoTopSlash(s: string) {
    forall i :: 0 <= i < |s| && s[i] == '/' ==> DepthAfter(s[..i]) > 0
  }

  lemma NoTopSlashSnoc(s: string, c: char)
    requires NoTopSlash(s) && (c == '/' ==> DepthAfter(s) > 0)
    ensures NoTopSlash(s + [c])
    ensures DepthAfter(s + [c]) == Depth(DepthAfter(s), c)
  {
    var t := s + [c];
    SnocParts(s, c);
    forall i | 0 <= i < |t| && t[i] == '/'
      ensures DepthAfter(t[..i]) > 0
    {
      if i < |s| {
        assert t[..i] == s[..i] && t[i] == s[i];
      }
    }
  }

  /** No segment holds a slash outside brackets, for every text: each segment
      starts outside brackets, so its own depth is the depth in the text. */
  lemma {:induction false} SegmentsHoldNoTopSlash(s: string)
    ensures forall i :: 0 <= i < |CutUp(s).done| ==> NoTopSlash(CutUp(s).done[i])
    ensures NoTopSlash(CutUp(s).open) && DepthAfter(CutUp(s).open) == DepthAfter(s)
    ensures forall i :: 0 <= i < |Segments(s)| ==> NoTopSlash(Segments(s)[i])
  {
    if s != "" {
      var front, c := s[..|s| - 1], s[|s| - 1];
      SegmentsHoldNoTopSlash(front);
      if c != '/' || DepthAfter(front) != 0 {
        NoTopSlashSnoc(CutUp(front).open, c);
      }
    }
  }

  // ---- splitting joined segments --------------------------------------------------------------

  /** A text that can stand between two slashes. */
  predicate IsSegment(s: string) {
    s != "" && NoTopSlash(s) && DepthAfter(s) == 0
  }

  /** Reading a segment's text after a point outside brackets only extends the
      open segment. */
  lemma {:induction false} CutSegment(s: string, part: string)
    requires CutUp(s).open == "" && DepthAfter(s) == 0
    requires NoTopSlash(part)
    ensures CutUp(s + part) == Cut(CutUp(s).done, part)
    ensures DepthAfter(s + part) == DepthAfter(part)
    decreases |part|
  {
    if part == "" {
      AppendEmpty(s);
    } else {
      var k := |part| - 1;
      NoTopSlashFront(part);
      CutSegment(s, part[..k]);
      AppendFront(s, part);
      Snoc(part);
    }
  }

  lemma NoTopSlashFront(s: string)
    requires NoTopSlash(s) && s != ""
    ensures NoTopSlash(s[..|s| - 1])
    ensures s[|s| - 1] == '/' ==> DepthAfter(s[..|s| - 1]) > 0
  {
    var front := s[..|s| - 1];
    forall i | 0 <= i < |front| && front[i] == '/'
      ensures DepthAfter(front[..i]) > 0
    {
      assert front[..i] == s[..i];
    }
  }

  lemma {:induction false} CutJoined(parts: seq<string>)
    requires parts != []
    requires forall i :: 0 <= i < |parts| ==> IsSegment(parts[i])
    ensures CutUp(Join(parts, "/")) == Cut(parts[..|parts| - 1], parts[|parts| - 1])
    ensures DepthAfter(Join(parts, "/")) == 0
  {
    var k := |parts| - 1;
    var last := parts[k];
    assert IsSegment(last);
    if k == 0 {
      CutSegment("", last);
      AppendEmpty(last);
    } else {
      var front := parts[..k];
      CutJoined(front);
      Snoc(front);
      Snoc(parts);
      JoinAppend(front, [last], "/");
      SnocParts(Join(front, "/"), '/');
      CutSegment(Join(front, "/") + "/", last);
    }
  }

  /** Splitting undoes joining. */
  lemma SegmentsOfJoined(parts: seq<string>)
    requires parts != []
    requires forall i :: 0 <= i < |parts| ==> IsSegment(parts[i])
    ensures Segments(Join(parts, "/")) == parts
  {
    CutJoined(parts);
    assert IsSegment(parts[|parts| - 1]);
    Snoc(parts);
  }

  // ---- one element -----------------------------------------------------------------------------

  /** The keys of a bracket list; reading stops at the first thing that is not a
      complete `[k=v]`. */
  function KeysOf(rest: string, keys: map<string, string>): map<string, string>
    decreases |rest|
  {
    if rest == "" || rest[0] != '[' then keys
    else
      var end := IndexOf(rest, ']');
      if end == |rest| then keys
      else
        var kv := rest[1..end];
        var eq := IndexOf(kv, '=');
        if eq == |kv| then keys
        else KeysOf(rest[end + 1..], keys[kv[..eq] := kv[eq + 1..]])
  }

  function ElemOf(s: string): Elem {
    var i := IndexOf(s, '[');
    if i == |s| then Elem(s, None) else Elem(s[..i], Some(KeysOf(s[i..], map[])))
  }

  method SplitElem(elem: string) returns (e: Elem)
    ensures e == ElemOf(elem)
  {
    var idx := IndexOf(elem, '[');
    if idx == |elem| {
      return Elem(elem, None);
    }
    var name := elem[..idx];
    var rest := elem[idx..];
    var keys: map<string, string> := map[];
    while |rest| > 0
      invariant KeysOf(rest, keys) == KeysOf(elem[idx..], map[])
      decreases |rest|
    {
      if rest[0] != '[' {
        break;
      }
      var end := IndexOf(rest, ']');
      if end == |rest| {
        break;
      }
      var kv := rest[1..end];
      var eq := IndexOf(kv, '=');
      if eq == |kv| {
        break;
      }
      keys := keys[kv[..eq] := kv[eq + 1..]];
      rest := rest[end + 1..];
    }
    e := Elem(name, Some(keys));
  }

  // ---- paths ------------------------------------------------------------------------------------

  function ElemsOf(segments: seq<string>): (es: seq<Elem>)
    ensures |es| == |segments|
    ensures forall i :: 0 <= i < |es| ==> es[i] == ElemOf(segments[i])
  {
    seq(|segments|, i requires 0 <= i < |segments| => ElemOf(segments[i]))
  }

  /** Nothing for the empty string, which is an error. */
  function PathOf(s: string): Option<seq<Elem>> {
    if s == "" then None
    else
      var path := TrimPrefix(s, "/");
      if path == "" then Some([]) else Some(ElemsOf(Segments(path)))
  }

  method ParsePath(s: string) returns (path: Option<seq<Elem>>)
    ensures path == PathOf(s)
  {
    if s == "" {
      return None;
    }
    var trimmed := TrimPrefix(s, "/");
    if trimmed == "" {
      return Some([]);
    }
    var segments := SplitPath(trimmed);
    var elems: seq<Elem> := [];
    ghost var all := ElemsOf(segments);
    for i := 0 to |segments|
      invariant elems == all[..i]
    {
      var e := SplitElem(segments[i]);
      TakeSnoc(all, i);
      elems := elems + [e];
    }
    TakeAll(all);
    return Some(elems);
  }

  // ---- printing, and reading back -----------------------------------------------------------------

  /** An element as written: keys in the order of writing. */
  datatype Printed = Printed(name: string, keys: seq<(string, string)>)

  function KeyText(kv: (string, string)): string {
    "[" + kv.0 + "=" + kv.1 + "]"
  }

  function KeysText(kvs: seq<(string, string)>): string {
    if kvs == [] then "" else KeyText(kvs[0]) + KeysText(kvs[1..])
  }

  function ElemText(p: Printed): string {
    p.name + KeysText(p.keys)
  }

  function ElemTexts(ps: seq<Printed>): (texts: seq<string>)
    ensures |texts| == |ps|
    ensures forall i :: 0 <= i < |ps| ==> texts[i] == ElemText(ps[i])
  {
    seq(|ps|, i requires 0 <= i < |ps| => ElemText(ps[i]))
  }

  function PathText(ps: seq<Printed>): string {
    Join(ElemTexts(ps), "/")
  }

  function KeyMap(kvs: seq<(string, string)>, keys: map<string, string>): map<string, string> {
    if kvs == [] then keys else KeyMap(kvs[1..], keys[kvs[0].0 := kvs[0].1])
  }

  function Meaning(p: Printed): Elem {
    Elem(p.name, if p.keys == [] then None else Some(KeyMap(p.keys, map[])))
  }

  /** Names without slash or opening bracket; keys without `=`, `[` and `]`; values
      without brackets. Keys and values may hold slashes, values also `=`. */
  predicate Writable(p: Printed) {
    && p.name != "" && '/' !in p.name && '[' !in p.name
    && forall i :: 0 <= i < |p.keys| ==> WritableKey(p.keys[i])
  }

  predicate WritableKey(kv: (string, string)) {
    && '=' !in kv.0 && '[' !in kv.0 && ']' !in kv.0
    && '[' !in kv.1 && ']' !in kv.1
  }

  /** Outside brackets, with no slash so far. */
  predicate Balanced(s: string) {
    NoTopSlash(s) && DepthAfter(s) == 0
  }

  lemma {:induction false} NameBalanced(name: string)
    requires '/' !in name && '[' !in name
    ensures Balanced(name)
  {
    if name != "" {
      var k := |name| - 1;
      NameBalanced(name[..k]);
      NoTopSlashSnoc(name[..k], name[k]);
      Snoc(name);
    }
  }

  /** Text without brackets, read inside brackets. */
  lemma {:induction false} InsideBrackets(s: string, t: string)
    requires NoTopSlash(s) && DepthAfter(s) == 1
    requires '[' !in t && ']' !in t
    ensures NoTopSlash(s + t) && DepthAfter(s + t) == 1
    decreases |t|
  {
    if t == "" {
      AppendEmpty(s);
    } else {
      var k := |t| - 1;
      InsideBrackets(s, t[..k]);
      NoTopSlashSnoc(s + t[..k], t[k]);
      AppendFront(s, t);
      Snoc(s + t);
    }
  }

  lemma KeyBalanced(s: string, kv: (string, string))
    requires Balanced(s) && WritableKey(kv)
    ensures Balanced(s + KeyText(kv))
  {
    NoTopSlashSnoc(s, '[');
    InsideBrackets(s + "[", kv.0);
    InsideBrackets(s + "[" + kv.0, "=");
    InsideBrackets(s + "[" + kv.0 + "=", kv.1);
    NoTopSlashSnoc(s + "[" + kv.0 + "=" + kv.1, ']');
    KeyTextFrom(s, kv);
  }

  lemma KeyTextFrom(s: string, kv: (string, string))
    ensures s + KeyText(kv) == s + "[" + kv.0 + "=" + kv.1 + "]"
  {
  }

  lemma {:induction false} KeysBalanced(s: string, kvs: seq<(string, string)>)
    requires Balanced(s)
    requires forall i :: 0 <= i < |kvs| ==> WritableKey(kvs[i])
    ensures Balanced(s + KeysText(kvs))
    decreases |kvs|
  {
    if kvs == [] {
      AppendEmpty(s);
    } else {
      KeyBalanced(s, kvs[0]);
      KeysBalanced(s + KeyText(kvs[0]), kvs[1..]);
      Associate(s, KeyText(kvs[0]), KeysText(kvs[1..]));
    }
  }

  lemma ElemTextIsSegment(p: Printed)
    requires Writable(p)
    ensures IsSegment(ElemText(p))
  {
    NameBalanced(p.name);
    KeysBalanced(p.name, p.keys);
  }

  /** Reading one key gives it back, and leaves the rest to read. */
  lemma KeyRead(kv: (string, string), rest: string, keys: map<string, string>)
    requires WritableKey(kv)
    ensures KeysOf(KeyText(kv) + rest, keys) == KeysOf(rest, keys[kv.0 := kv.1])
  {
    var inside := kv.0 + "=" + kv.1;
    KeyTextAround(kv, rest);
    var s := ("[" + inside) + [']'] + rest;
    AroundParts("[" + inside, ']', rest);
    IndexOfUnique(s, ']', |"[" + inside|);
    assert s[1..|"[" + inside|] == inside;
    AroundParts(kv.0, '=', kv.1);
    IndexOfUnique(inside, '=', |kv.0|);
  }

  lemma KeyTextAround(kv: (string, string), rest: string)
    ensures KeyText(kv) + rest == ("[" + (kv.0 + "=" + kv.1)) + [']'] + rest
  {
    assert KeyText(kv) == ("[" + (kv.0 + "=" + kv.1)) + "]";
  }

  lemma {:induction false} KeysRead(kvs: seq<(string, string)>, keys: map<string, string>)
    requires forall i :: 0 <= i < |kvs| ==> WritableKey(kvs[i])
    ensures KeysOf(KeysText(kvs), keys) == KeyMap(kvs, keys)
    decreases |kvs|
  {
    if kvs != [] {
      KeyRead(kvs[0], KeysText(kvs[1..]), keys);
      KeysRead(kvs[1..], keys[kvs[0].0 := kvs[0].1]);
    }
  }

  lemma ElemRead(p: Printed)
    requires Writable(p)
    ensures ElemOf(ElemText(p)) == Meaning(p)
  {
    var tail := KeysText(p.keys);
    AppendSplit(p.name, tail);
    IndexOfUnique(ElemText(p), '[', |p.name|);
    KeysRead(p.keys, map[]);
    if p.keys == [] {
      AppendEmpty(p.name);
    }
  }

  predicate AllWritable(ps: seq<Printed>) {
    forall i :: 0 <= i < |ps| ==> Writable(ps[i])
  }

  function Meanings(ps: seq<Printed>): (es: seq<Elem>)
    ensures |es| == |ps|
    ensures forall i :: 0 <= i < |ps| ==> es[i] == Meaning(ps[i])
  {
    seq(|ps|, i requires 0 <= i < |ps| => Meaning(ps[i]))
  }

  lemma PathRead(ps: seq<Printed>)
    requires AllWritable(ps) && ps != []
    ensures ElemsOf(Segments(PathText(ps))) == Meanings(ps)
    ensures PathText(ps) != "" && PathText(ps)[0] != '/'
  {
    var texts := ElemTexts(ps);
    forall i | 0 <= i < |ps| ensures IsSegment(texts[i]) && ElemOf(texts[i]) == Meaning(ps[i]) {
      assert Writable(ps[i]);
      ElemTextIsSegment(ps[i]);
      ElemRead(ps[i]);
    }
    SegmentsOfJoined(texts);
    assert Writable(ps[0]) && texts[0][0] == ps[0].name[0];
    assert PathText(ps)[0] == texts[0][0];
  }

  /** The parser inverts the printer, with or without a leading slash. */
  lemma ParseInvertsPrint(ps: seq<Printed>)
    requires AllWritable(ps)
    ensures ps != [] ==> PathOf(PathText(ps)) == Some(Meanings(ps))
    ensures PathOf("/" + PathText(ps)) == Some(Meanings(ps))
  {
    CutOwnPrefix("/", PathText(ps));
    if ps != [] {
      PathRead(ps);
      NoPrefix(PathText(ps), "/", 0);
    }
  }

  /** With distinct keys no written key is lost: the map holds exactly the pairs. */
  lemma {:induction false} DistinctKeysKept(kvs: seq<(string, string)>, keys: map<string, string>, i: nat)
    requires i < |kvs|
    requires forall a, b :: 0 <= a < b < |kvs| ==> kvs[a].0 != kvs[b].0
    ensures kvs[i].0 in KeyMap(kvs, keys) && KeyMap(kvs, keys)[kvs[i].0] == kvs[i].1
    decreases |kvs|
  {
    if i == 0 {
      KeyUntouched(kvs[1..], keys[kvs[0].0 := kvs[0].1], kvs[0].0);
    } else {
      DistinctKeysKept(kvs[1..], keys[kvs[0].0 := kvs[0].1], i - 1);
    }
  }

  lemma {:induction false} KeyUntouched(kvs: seq<(string, string)>, keys: map<string, string>, k: string)
    requires forall i :: 0 <= i < |kvs| ==> kvs[i].0 != k
    ensures k in KeyMap(kvs, keys) <==> k in keys
    ensures k in keys ==> KeyMap(kvs, keys)[k] == keys[k]
    decreases |kvs|
  {
    if kvs != [] {
      KeyUntouched(kvs[1..], keys[kvs[0].0 := kvs[0].1], k);
    }
  }
}
