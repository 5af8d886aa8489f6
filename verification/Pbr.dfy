/** Policy-based routing: the staged policy-map with its interface attachments, and
    reading a policy back from `show running-config section policy-map`. */
module Pbr {
  import opened Seqs
  import opened Text
  import opened Rendering
  import opened Sorting

  datatype Action = Action(
    nexthop: Option<string>,
    nexthopVrf: Option<string>,
    nexthopGroup: Option<string>,
    drop: Option<bool>)

  datatype Sequence = Sequence(seqNo: Int, class_: string, action: Action)

  datatype Attachment = Attachment(iface: string, direction: Option<string>)

  datatype Args = Args(name: string, sequences: seq<Sequence>, attachments: seq<Attachment>)

  // ---- validation --------------------------------------------------------------------

  datatype Invalid =
    | NameRequired | EmptySequences | SeqRange | ClassMissing
    | NexthopBadIP | ActionEmpty | ActionMutex
    | InterfaceBadName | InterfaceDirection

  /** How many of the three actions are asked for. */
  function ActionCount(a: Action): int {
    One(Given(a.nexthop)) + One(Given(a.nexthopGroup)) + One(a.drop == Some(true))
  }

  predicate ValidAction(a: Action, isAddr: string -> bool) {
    ActionCount(a) == 1 && (Given(a.nexthop) ==> isAddr(a.nexthop.value))
  }

  predicate ValidSequence(s: Sequence, isAddr: string -> bool) {
    1 <= s.seqNo <= 65535 && TrimSpace(s.class_) != "" && ValidAction(s.action, isAddr)
  }

  predicate IsNumbering(rest: string) {
    rest != "" && IsDigit(rest[0]) && forall i :: 0 <= i < |rest| ==> IsDigit(rest[i]) || rest[i] == '/'
  }

  predicate AfterKind(name: string, kind: string) {
    HasPrefix(name, kind) && IsNumbering(name[|kind|..])
  }

  /** The interface names a policy may be attached to. */
  predicate IsInterface(name: string) {
    AfterKind(name, "Ethernet") || AfterKind(name, "Port-Channel") || AfterKind(name, "Vlan")
      || AfterKind(name, "Loopback")
  }

  lemma InterfaceToken(name: string)
    requires IsInterface(name)
    ensures IsToken(name)
  {
    forall kind | AfterKind(name, kind) && IsToken(kind) ensures IsToken(name) {
      assert name == kind + name[|kind|..];
    }
    KindTokens();
  }

  lemma KindTokens()
    ensures IsToken("Ethernet") && IsToken("Port-Channel") && IsToken("Vlan") && IsToken("Loopback")
  {
  }

  predicate ValidAttachment(a: Attachment) {
    IsInterface(a.iface) && (Given(a.direction) ==> a.direction.value == "input")
  }

  predicate ValidArgs(args: Args, isAddr: string -> bool) {
    && TrimSpace(args.name) != ""
    && args.sequences != []
    && (forall i :: 0 <= i < |args.sequences| ==> ValidSequence(args.sequences[i], isAddr))
    && (forall i :: 0 <= i < |args.attachments| ==> ValidAttachment(args.attachments[i]))
  }

  method ValidatePbrAction(a: Action, isAddr: string -> bool) returns (err: Option<Invalid>)
    ensures err == None <==> ValidAction(a, isAddr)
  {
    var count := 0;
    if a.nexthop.Some? && a.nexthop.value != "" {
      count := count + 1;
      if !isAddr(a.nexthop.value) {
        return Some(NexthopBadIP);
      }
    }
    if a.nexthopGroup.Some? && a.nexthopGroup.value != "" {
      count := count + 1;
    }
    if a.drop == Some(true) {
      count := count + 1;
    }
    match count {
      case 0 => return Some(ActionEmpty);
      case 1 => return None;
      case _ => return Some(ActionMutex);
    }
  }

  method ValidatePbrSequence(s: Sequence, isAddr: string -> bool) returns (err: Option<Invalid>)
    ensures err == None <==> ValidSequence(s, isAddr)
  {
    if s.seqNo < 1 || s.seqNo > 65535 {
      return Some(SeqRange);
    }
    if TrimSpace(s.class_) == "" {
      return Some(ClassMissing);
    }
    err := ValidatePbrAction(s.action, isAddr);
  }

  method ValidatePbrAttachment(a: Attachment) returns (err: Option<Invalid>)
    ensures err == None <==> ValidAttachment(a)
  {
    if !IsInterface(a.iface) {
      return Some(InterfaceBadName);
    }
    if a.direction.Some? && a.direction.value != "" && a.direction.value != "input" {
      return Some(InterfaceDirection);
    }
    return None;
  }

  method ValidatePbr(args: Args, isAddr: string -> bool) returns (err: Option<Invalid>)
    ensures err == None <==> ValidArgs(args, isAddr)
  {
    if TrimSpace(args.name) == "" {
      return Some(NameRequired);
    }
    if |args.sequences| == 0 {
      return Some(EmptySequences);
    }
    for i := 0 to |args.sequences|
      invariant forall k :: 0 <= k < i ==> ValidSequence(args.sequences[k], isAddr)
    {
      err := ValidatePbrSequence(args.sequences[i], isAddr);
      if err != None {
        return;
      }
    }
    for i := 0 to |args.attachments|
      invariant forall k :: 0 <= k < i ==> ValidAttachment(args.attachments[k])
    {
      err := ValidatePbrAttachment(args.attachments[i]);
      if err != None {
        return;
      }
    }
    return None;
  }

  // ---- the staged commands -------------------------------------------------------------

  function Header(name: string): string {
    "policy-map type pbr " + name
  }

  function NexthopLine(a: Action): string
    requires Given(a.nexthop)
  {
    var line := "set nexthop " + a.nexthop.value;
    if Given(a.nexthopVrf) then line + " vrf " + a.nexthopVrf.value else line
  }

  function ActionLines(a: Action): seq<string> {
    if Given(a.nexthop) then [NexthopLine(a)]
    else if Given(a.nexthopGroup) then ["set nexthop-group " + a.nexthopGroup.value]
    else if a.drop == Some(true) then ["drop"]
    else []
  }

  function SequenceHeader(s: Sequence): string {
    Itoa(s.seqNo) + " class " + s.class_
  }

  const SequenceLines := (s: Sequence) => [SequenceHeader(s)] + ActionLines(s.action) + ["exit"]

  function DetachLines(name: string): Attachment -> seq<string> {
    (a: Attachment) => ["interface " + a.iface, "no service-policy type pbr input " + name, "exit"]
  }

  function AttachLines(name: string): Attachment -> seq<string> {
    (a: Attachment) => ["interface " + a.iface, "service-policy type pbr input " + name, "exit"]
  }

  function Lead(args: Args): seq<string> {
    Collect(args.attachments, DetachLines(args.name)) + ["no " + Header(args.name)]
  }

  function Tail(args: Args): seq<string> {
    ["exit"] + Collect(args.attachments, AttachLines(args.name))
  }

  function Rendered(args: Args): seq<string> {
    Lead(args) + ([Header(args.name)] + Collect(args.sequences, SequenceLines)) + Tail(args)
  }

  function Staged(args: Args, remove: bool): seq<string> {
    if remove then Lead(args) else Rendered(args)
  }

  method AppendPbrSequence(cmds: seq<string>, s: Sequence) returns (r: seq<string>)
    ensures r == cmds + SequenceLines(s)
  {
    r := cmds + [Itoa(s.seqNo) + " class " + s.class_];
    if s.action.nexthop.Some? && s.action.nexthop.value != "" {
      var line := "set nexthop " + s.action.nexthop.value;
      if s.action.nexthopVrf.Some? && s.action.nexthopVrf.value != "" {
        line := line + " vrf " + s.action.nexthopVrf.value;
      }
      r := r + [line];
    } else if s.action.nexthopGroup.Some? && s.action.nexthopGroup.value != "" {
      r := r + ["set nexthop-group " + s.action.nexthopGroup.value];
    } else if s.action.drop == Some(true) {
      r := r + ["drop"];
    }
    assert r == cmds + [SequenceHeader(s)] + ActionLines(s.action);
    r := r + ["exit"];
    ThreeParts(cmds, [SequenceHeader(s)], ActionLines(s.action), ["exit"]);
  }

  method AppendSequences(cmds: seq<string>, sequences: seq<Sequence>) returns (r: seq<string>)
    ensures r == cmds + Collect(sequences, SequenceLines)
  {
    r := cmds;
    for i := 0 to |sequences|
      invariant r == cmds + Collect(sequences[..i], SequenceLines)
    {
      TakeSnoc(sequences, i);
      CollectSnoc(sequences[..i], sequences[i], SequenceLines);
      Associate(cmds, Collect(sequences[..i], SequenceLines), SequenceLines(sequences[i]));
      r := AppendPbrSequence(r, sequences[i]);
    }
    TakeAll(sequences);
  }

  /** The loops over the attachments: detaching, and attaching again. */
  method AppendAttachments(cmds: seq<string>, attachments: seq<Attachment>, policy: string,
                           ghost f: Attachment -> seq<string>)
    returns (r: seq<string>)
    requires forall a :: f(a) == ["interface " + a.iface, policy, "exit"]
    ensures r == cmds + Collect(attachments, f)
  {
    r := cmds;
    for i := 0 to |attachments|
      invariant r == cmds + Collect(attachments[..i], f)
    {
      var lines := ["interface " + attachments[i].iface, policy, "exit"];
      TakeSnoc(attachments, i);
      CollectSnoc(attachments[..i], attachments[i], f);
      Associate(cmds, Collect(attachments[..i], f), lines);
      r := r + lines;
    }
    TakeAll(attachments);
  }

  method BuildPbrCmds(args: Args, remove: bool) returns (cmds: seq<string>)
    ensures cmds == Staged(args, remove)
  {
    cmds := AppendAttachments([], args.attachments, "no service-policy type pbr input " + args.name,
      DetachLines(args.name));
    cmds := cmds + ["no policy-map type pbr " + args.name];
    NoHeader(args.name);
    assert cmds == Lead(args);
    if remove {
      return;
    }
    cmds := cmds + ["policy-map type pbr " + args.name];
    cmds := AppendSequences(cmds, args.sequences);
    cmds := cmds + ["exit"];
    cmds := AppendAttachments(cmds, args.attachments, "service-policy type pbr input " + args.name,
      AttachLines(args.name));
    FiveParts(Lead(args), [Header(args.name)], Collect(args.sequences, SequenceLines), ["exit"],
              Collect(args.attachments, AttachLines(args.name)));
  }

  lemma NoHeader(name: string)
    ensures "no policy-map type pbr " + name == "no " + Header(name)
  {
    assert "no policy-map type pbr " == "no " + "policy-map type pbr ";
    Associate("no ", "policy-map type pbr ", name);
  }

  lemma FiveParts<T>(a: seq<T>, b: seq<T>, c: seq<T>, d: seq<T>, e: seq<T>)
    ensures a + b + c + d + e == a + (b + c) + (d + e)
  {
  }
}
