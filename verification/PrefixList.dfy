/** IPv4 prefix-lists: validation, the staged command list, and reading back. */
module PrefixList {
  import opened Text
  import opened Seqs
  import opened Sorting
  import Netip

  datatype Entry = Entry(
    seqNo: Int,
    action: string,
    prefix: string,
    eq: Option<Int>,
    ge: Option<Int>,
    le: Option<Int>)

  datatype Args = Args(name: string, remark: Option<string>, entries: seq<Entry>)

  function SeqOf(e: Entry): int {
    e.seqNo
  }

  // ---- validation --------------------------------------------------------------------

  datatype Invalid =
    | NameRequired | EntriesEmpty
    | SeqOutOfRange | SeqDuplicate
    | ActionInvalid | BadPrefix
    | MaskCombo | MaskOutOfRange | GeLeOrder | GeBelowPrefix

  predicate MaskInRange(m: Option<Int>) {
    m.Some? ==> 1 <= m.value <= 32
  }

  predicate ValidEntry(e: Entry) {
    && 0 <= e.seqNo <= 65535
    && (e.action == "permit" || e.action == "deny")
    && Netip.PrefixBits(e.prefix).Some?
    && (e.eq.Some? ==> e.ge.None? && e.le.None?)
    && MaskInRange(e.eq) && MaskInRange(e.ge) && MaskInRange(e.le)
    && (e.ge.Some? ==> Netip.PrefixBits(e.prefix).value <= e.ge.value)
    && (e.ge.Some? && e.le.Some? ==> e.ge.value <= e.le.value)
  }

  predicate ValidArgs(args: Args) {
    && TrimSpace(args.name) != ""
    && args.entries != []
    && ValidEntries(args.entries)
    && DistinctKeys(args.entries, SeqOf)
  }

  function ValidateEntry(e: Entry): (err: Option<Invalid>)
    ensures err == None <==> ValidEntry(e)
  {
    if e.seqNo < 0 || e.seqNo > 65535 then Some(SeqOutOfRange)
    else if e.action != "permit" && e.action != "deny" then Some(ActionInvalid)
    else
      match Netip.PrefixBits(e.prefix)
      case None => Some(BadPrefix)
      case Some(bits) =>
        if e.eq.Some? && (e.ge.Some? || e.le.Some?) then Some(MaskCombo)
        else if !MaskInRange(e.eq) || !MaskInRange(e.ge) || !MaskInRange(e.le) then Some(MaskOutOfRange)
        else if e.ge.Some? && e.le.Some? && e.ge.value > e.le.value then Some(GeLeOrder)
        else if e.ge.Some? && e.ge.value < bits then Some(GeBelowPrefix)
        else None
  }

  method Validate(args: Args) returns (err: Option<Invalid>)
    ensures err == None <==> ValidArgs(args)
    ensures err == Some(SeqDuplicate) ==> !DistinctKeys(args.entries, SeqOf)
  {
    if TrimSpace(args.name) == "" {
      return Some(NameRequired);
    }
    if |args.entries| == 0 {
      return Some(EntriesEmpty);
    }
    err := ValidateEntries(args.entries);
  }

  predicate ValidEntries(es: seq<Entry>) {
    forall i :: 0 <= i < |es| ==> ValidEntry(es[i])
  }

  method ValidateEntries(es: seq<Entry>) returns (err: Option<Invalid>)
    ensures err == None <==> ValidEntries(es) && DistinctKeys(es, SeqOf)
    ensures err == Some(SeqDuplicate) ==> !DistinctKeys(es, SeqOf)
  {
    // the sequence numbers met so far, each with its place
    var seen: map<int, nat> := map[];
    for i := 0 to |es|
      invariant ValidEntries(es[..i])
      invariant forall k :: 0 <= k < i ==> SeqOf(es[k]) in seen && seen[SeqOf(es[k])] == k
      invariant forall n :: n in seen ==> seen[n] < i && SeqOf(es[seen[n]]) == n
    {
      var e := es[i];
      TakeSnoc(es, i);
      var entryErr := ValidateEntry(e);
      if entryErr.Some? {
        return entryErr;
      }
      if e.seqNo in seen {
        assert SeqOf(es[seen[e.seqNo]]) == SeqOf(es[i]);
        return Some(SeqDuplicate);
      }
      seen := seen[e.seqNo := i];
    }
    TakeAll(es);
    return None;
  }

  // ---- the staged commands -------------------------------------------------------------

  function Bounds(e: Entry): seq<string> {
    if e.eq.Some? then ["eq", Itoa(e.eq.value)]
    else if e.ge.Some? && e.le.Some? then ["ge", Itoa(e.ge.value), "le", Itoa(e.le.value)]
    else if e.ge.Some? then ["ge", Itoa(e.ge.value)]
    else if e.le.Some? then ["le", Itoa(e.le.value)]
    else []
  }

  /** The words of an entry after the list name. */
  function EntryWords(e: Entry): seq<string> {
    ["seq", Itoa(e.seqNo), e.action, e.prefix] + Bounds(e)
  }

  function EntryCmd(name: string, e: Entry): string {
    Join(["ip", "prefix-list", name] + EntryWords(e), " ")
  }

  function EntryCmds(name: string, es: seq<Entry>): (cmds: seq<string>)
    ensures |cmds| == |es|
    ensures forall i :: 0 <= i < |es| ==> cmds[i] == EntryCmd(name, es[i])
  {
    seq(|es|, i requires 0 <= i < |es| => EntryCmd(name, es[i]))
  }

  function RemarkCmds(args: Args): seq<string> {
    if args.remark.Some? && args.remark.value != ""
    then ["ip prefix-list " + args.name + " remark " + args.remark.value] else []
  }

  function NegateCmd(name: string): string {
    "no ip prefix-list " + name
  }

  /** The lines that declare a list, in canonical order. */
  function ConfigCmds(args: Args): seq<string> {
    RemarkCmds(args) + EntryCmds(args.name, Ascending(args.entries, SeqOf))
  }

  function Rendered(args: Args, remove: bool): seq<string> {
    if remove then [NegateCmd(args.name)] else [NegateCmd(args.name)] + ConfigCmds(args)
  }

  method PrefixListEntryCmd(name: string, e: Entry) returns (cmd: string)
    ensures cmd == EntryCmd(name, e)
  {
    var parts := ["ip", "prefix-list", name, "seq", Itoa(e.seqNo), e.action, e.prefix];
    if e.eq.Some? {
      parts := parts + ["eq", Itoa(e.eq.value)];
    } else if e.ge.Some? && e.le.Some? {
      parts := parts + ["ge", Itoa(e.ge.value), "le", Itoa(e.le.value)];
    } else if e.ge.Some? {
      parts := parts + ["ge", Itoa(e.ge.value)];
    } else if e.le.Some? {
      parts := parts + ["le", Itoa(e.le.value)];
    }
    assert parts == ["ip", "prefix-list", name] + EntryWords(e);
    cmd := Join(parts, " ");
  }

  /** Called on validated arguments, whose sequence numbers differ: the library
      sort then has no freedom left. */
  method BuildPrefixListCmds(args: Args, remove: bool) returns (cmds: seq<string>)
    requires !remove ==> DistinctKeys(args.entries, SeqOf)
    ensures cmds == Rendered(args, remove)
  {
    if remove {
      return ["no ip prefix-list " + args.name];
    }
    cmds := ["no ip prefix-list " + args.name];
    if args.remark.Some? && args.remark.value != "" {
      cmds := cmds + ["ip prefix-list " + args.name + " remark " + args.remark.value];
    }
    assert cmds == [NegateCmd(args.name)] + RemarkCmds(args);
    var entries := SortSlice(args.entries, SeqOf);
    SortSliceDetermined(args.entries, entries, SeqOf);
    cmds := AppendEntryCmds(cmds, args.name, entries);
    Associate([NegateCmd(args.name)], RemarkCmds(args), EntryCmds(args.name, entries));
  }

  method AppendEntryCmds(head: seq<string>, name: string, entries: seq<Entry>) returns (cmds: seq<string>)
    ensures cmds == head + EntryCmds(name, entries)
  {
    cmds := head;
    ghost var all := EntryCmds(name, entries);
    for i := 0 to |entries|
      invariant cmds == head + all[..i]
    {
      var cmd := PrefixListEntryCmd(name, entries[i]);
      TakeSnoc(all, i);
      Associate(head, all[..i], [cmd]);
      cmds := cmds + [cmd];
    }
    TakeAll(all);
  }

  /** The command list is a canonical form: it does not depend on the order in
      which the entries were declared, and numbers them strictly upwards. */
  lemma RenderedCanonically(a: Args, b: Args, remove: bool)
    requires a.name == b.name && a.remark == b.remark
    requires multiset(a.entries) == multiset(b.entries)
    requires DistinctKeys(a.entries, SeqOf)
    ensures Rendered(a, remove) == Rendered(b, remove)
    ensures var es := Ascending(a.entries, SeqOf);
            forall i, j :: 0 <= i < j < |es| ==> es[i].seqNo < es[j].seqNo
  {
    AscendingOfPermutation(a.entries, b.entries, SeqOf);
    var es := Ascending(a.entries, SeqOf);
    forall i, j | 0 <= i < j < |es| ensures es[i].seqNo < es[j].seqNo {
      assert SeqOf(es[i]) <= SeqOf(es[j]) && SeqOf(es[i]) != SeqOf(es[j]);
    }
  }

  lemma AscendingValid(args: Args)
    requires ValidArgs(args)
    ensures Ascending(args.entries, SeqOf) != [] && ValidEntries(Ascending(args.entries, SeqOf))
  {
    var es := Ascending(args.entries, SeqOf);
    forall i | 0 <= i < |es| ensures ValidEntry(es[i]) {
      SameElements(es, args.entries, i);
    }
    SameLength(es, args.entries);
  }
}
