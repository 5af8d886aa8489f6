/** A VRRP group under an interface: the staged lines. */
module Vrrp {
  import opened Seqs
  import opened Text
  import opened Rendering
  import opened Sorting
  import Netip
  import Pbr

  datatype Track = Track(object_: string, action: string, decrement: Option<Int>)

  datatype Args = Args(
    iface: string,
    vrid: Int,
    description: Option<string>,
    priority: Option<Int>,
    preempt: Option<bool>,
    preemptDelay: Option<Int>,
    advertise: Option<Int>,
    addresses: seq<string>,
    tracks: seq<Track>,
    bfdPeer: Option<string>,
    shutdown: Option<bool>)

  // ---- validation --------------------------------------------------------------------

  datatype Invalid =
    | InterfaceRequired | InterfaceBadName | VridRange | PriorityRange | AdvertiseRange | PreemptDelayRange
    | VirtualAddrInvalid | TrackInterfaceEmpty | TrackActionInvalid | TrackDecrementRange | BfdPeerBadIPv4

  predicate ValidTrack(t: Track) {
    && TrimSpace(t.object_) != ""
    && (t.action == "decrement" || t.action == "shutdown")
    && (t.action == "decrement" ==> t.decrement.Some? && 1 <= t.decrement.value <= 254)
  }

  predicate IsAddress(a: string, isIPv6: string -> bool) {
    Netip.IsIPv4(a) || isIPv6(a)
  }

  predicate ValidArgs(args: Args, isIPv6: string -> bool) {
    && TrimSpace(args.iface) != "" && Pbr.IsInterface(args.iface)
    && 1 <= args.vrid <= 255
    && (args.priority.Some? ==> 1 <= args.priority.value <= 254)
    && (args.advertise.Some? ==> args.advertise.value > 0)
    && (args.preemptDelay.Some? ==> args.preemptDelay.value >= 0)
    && (forall i :: 0 <= i < |args.addresses| ==> IsAddress(args.addresses[i], isIPv6))
    && (forall i :: 0 <= i < |args.tracks| ==> ValidTrack(args.tracks[i]))
    && (Deref(args.bfdPeer) != "" ==> Netip.IsIPv4(args.bfdPeer.value))
  }

  function ValidateTrack(t: Track): (err: Option<Invalid>)
    ensures err == None <==> ValidTrack(t)
  {
    if TrimSpace(t.object_) == "" then Some(TrackInterfaceEmpty)
    else if t.action != "decrement" && t.action != "shutdown" then Some(TrackActionInvalid)
    else if t.action == "decrement" && (t.decrement.None? || t.decrement.value < 1 || t.decrement.value > 254) then
      Some(TrackDecrementRange)
    else None
  }

  method ValidateVrrp(args: Args, isIPv6: string -> bool) returns (err: Option<Invalid>)
    ensures err == None <==> ValidArgs(args, isIPv6)
  {
    if TrimSpace(args.iface) == "" {
      return Some(InterfaceRequired);
    }
    if !Pbr.IsInterface(args.iface) {
      return Some(InterfaceBadName);
    }
    if args.vrid < 1 || args.vrid > 255 {
      return Some(VridRange);
    }
    if args.priority.Some? && (args.priority.value < 1 || args.priority.value > 254) {
      return Some(PriorityRange);
    }
    if args.advertise.Some? && args.advertise.value <= 0 {
      return Some(AdvertiseRange);
    }
    if args.preemptDelay.Some? && args.preemptDelay.value < 0 {
      return Some(PreemptDelayRange);
    }
    for i := 0 to |args.addresses|
      invariant forall k :: 0 <= k < i ==> IsAddress(args.addresses[k], isIPv6)
    {
      if !IsAddress(args.addresses[i], isIPv6) {
        return Some(VirtualAddrInvalid);
      }
    }
    for i := 0 to |args.tracks|
      invariant forall k :: 0 <= k < i ==> ValidTrack(args.tracks[k])
    {
      err := ValidateTrack(args.tracks[i]);
      if err != None {
        return;
      }
    }
    if args.bfdPeer.Some? && args.bfdPeer.value != "" && !Netip.IsIPv4(args.bfdPeer.value) {
      return Some(BfdPeerBadIPv4);
    }
    return None;
  }

  // ---- the staged lines ------------------------------------------------------------------

  function Head(vrid: Int): string {
    "vrrp " + Itoa(vrid) + " "
  }

  /** One line of a group for each thing it says. */
  function Lines(vrid: Int, rests: seq<string>): (lines: seq<string>)
    ensures |lines| == |rests|
    ensures forall i :: 0 <= i < |lines| ==> lines[i] == Head(vrid) + rests[i]
  {
    Each(Head(vrid), rests)
  }

  predicate SeenIPv4(addresses: seq<string>, isIPv6: string -> bool) {
    exists i :: 0 <= i < |addresses| && Netip.IsIPv4(addresses[i]) && !isIPv6(addresses[i])
  }

  /** How an address is said after the addresses before it. */
  function AddressRest(before: seq<string>, a: string, isIPv6: string -> bool): seq<string> {
    if isIPv6(a) then ["ipv6 " + a]
    else if !Netip.IsIPv4(a) then []
    else if SeenIPv4(before, isIPv6) then ["ipv4 " + a + " secondary"]
    else ["ipv4 " + a]
  }

  function AddressRests(addresses: seq<string>, isIPv6: string -> bool): seq<string> {
    if addresses == [] then []
    else
      var n := |addresses| - 1;
      AddressRests(addresses[..n], isIPv6) + AddressRest(addresses[..n], addresses[n], isIPv6)
  }

  function PreemptRests(args: Args): seq<string> {
    if args.preempt == Some(true) then ["preempt"] else []
  }

  function DescriptionRests(args: Args): seq<string> {
    if Deref(args.description) != "" then ["session description " + args.description.value] else []
  }

  function ScalarRests(args: Args): seq<string> {
    Numbered("priority-level ", args.priority) + PreemptRests(args)
    + Numbered("preempt delay minimum ", args.preemptDelay)
    + Numbered("advertisement interval ", args.advertise)
    + DescriptionRests(args)
  }

  function TrackRest(t: Track): seq<string> {
    if t.action == "decrement" then
      ["tracked-object " + t.object_ + " decrement " + Itoa(if t.decrement.Some? then t.decrement.value else 0)]
    else if t.action == "shutdown" then ["tracked-object " + t.object_ + " shutdown"]
    else []
  }

  const TrackRests := (t: Track) => TrackRest(t)

  function BfdRests(args: Args): seq<string> {
    if Deref(args.bfdPeer) != "" then ["bfd ip " + args.bfdPeer.value] else []
  }

  function DisabledRests(args: Args): seq<string> {
    if args.shutdown == Some(true) then ["disabled"] else []
  }

  /** What the group's own lines say, in order. */
  function Says(args: Args, isIPv6: string -> bool): seq<string> {
    AddressRests(args.addresses, isIPv6) + ScalarRests(args) + Collect(args.tracks, TrackRests)
    + BfdRests(args) + DisabledRests(args)
  }

  /** Enabling a group is a negation, outside the group's own lines. */
  function EnableLines(args: Args): seq<string> {
    if args.shutdown == Some(false) then ["no " + Head(args.vrid) + "disabled"] else []
  }

  function GroupLines(args: Args, isIPv6: string -> bool): seq<string> {
    Lines(args.vrid, Says(args, isIPv6)) + EnableLines(args)
  }

  function Staged(args: Args, isIPv6: string -> bool, remove: bool): seq<string> {
    if remove then ["interface " + args.iface, "no vrrp " + Itoa(args.vrid)]
    else ["interface " + args.iface] + GroupLines(args, isIPv6)
  }

  lemma LinesAppend(vrid: Int, a: seq<string>, b: seq<string>)
    ensures Lines(vrid, a + b) == Lines(vrid, a) + Lines(vrid, b)
  {
  }

  /** A line is the concatenation it is written as. */
  lemma OneLine(cmds: seq<string>, vrid: Int, says: seq<string>, rest: string)
    ensures cmds + Lines(vrid, says + [rest]) == cmds + Lines(vrid, says) + [Head(vrid) + rest]
  {
    LinesAppend(vrid, says, [rest]);
    Associate(cmds, Lines(vrid, says), Lines(vrid, [rest]));
    assert Lines(vrid, [rest]) == [Head(vrid) + rest];
  }

  method AppendVrrpAddresses(cmds: seq<string>, addresses: seq<string>, vrid: Int, isIPv6: string -> bool)
    returns (r: seq<string>)
    ensures r == cmds + Lines(vrid, AddressRests(addresses, isIPv6))
  {
    r := cmds;
    var v4Primary := false;
    for i := 0 to |addresses|
      invariant v4Primary == SeenIPv4(addresses[..i], isIPv6)
      invariant r == cmds + Lines(vrid, AddressRests(addresses[..i], isIPv6))
    {
      var a := addresses[i];
      ghost var says := AddressRests(addresses[..i], isIPv6);
      TakeSnoc(addresses, i);
      SnocParts(addresses[..i], a);
      if isIPv6(a) {
        OneLine(cmds, vrid, says, "ipv6 " + a);
        r := r + [Head(vrid) + ("ipv6 " + a)];
        SeenMore(addresses[..i], a, isIPv6);
      } else if Netip.IsIPv4(a) {
        if !v4Primary {
          OneLine(cmds, vrid, says, "ipv4 " + a);
          r := r + [Head(vrid) + ("ipv4 " + a)];
          v4Primary := true;
        } else {
          OneLine(cmds, vrid, says, "ipv4 " + a + " secondary");
          r := r + [Head(vrid) + ("ipv4 " + a + " secondary")];
        }
        SeenMore(addresses[..i], a, isIPv6);
      } else {
        AppendEmpty(says);
        SeenMore(addresses[..i], a, isIPv6);
      }
    }
    TakeAll(addresses);
  }

  lemma SeenMore(before: seq<string>, a: string, isIPv6: string -> bool)
    ensures SeenIPv4(before + [a], isIPv6) <==> SeenIPv4(before, isIPv6) || (Netip.IsIPv4(a) && !isIPv6(a))
  {
    var all := before + [a];
    assert forall i :: 0 <= i < |before| ==> all[i] == before[i];
    assert all[|before|] == a;
  }

  method AppendVrrpScalars(cmds: seq<string>, args: Args) returns (r: seq<string>)
    ensures r == cmds + Lines(args.vrid, ScalarRests(args))
  {
    var says := AppendNumbered([], "priority-level ", args.priority);
    assert says == Numbered("priority-level ", args.priority);
    if args.preempt == Some(true) {
      says := says + ["preempt"];
    }
    assert says == Numbered("priority-level ", args.priority) + PreemptRests(args);
    says := AppendNumbered(says, "preempt delay minimum ", args.preemptDelay);
    says := AppendNumbered(says, "advertisement interval ", args.advertise);
    if args.description.Some? && args.description.value != "" {
      says := says + ["session description " + args.description.value];
    }
    r := AppendEach(cmds, Head(args.vrid), says);
  }

  method AppendVrrpTracks(cmds: seq<string>, tracks: seq<Track>, vrid: Int) returns (r: seq<string>)
    ensures r == cmds + Lines(vrid, Collect(tracks, TrackRests))
  {
    r := cmds;
    for i := 0 to |tracks|
      invariant r == cmds + Lines(vrid, Collect(tracks[..i], TrackRests))
    {
      ghost var said := Collect(tracks[..i], TrackRests);
      TakeSnoc(tracks, i);
      CollectSnoc(tracks[..i], tracks[i], TrackRests);
      var t := tracks[i];
      match t.action {
        case "decrement" =>
          var d := if t.decrement.Some? then t.decrement.value else 0;
          OneLine(cmds, vrid, said, "tracked-object " + t.object_ + " decrement " + Itoa(d));
          r := r + [Head(vrid) + ("tracked-object " + t.object_ + " decrement " + Itoa(d))];
        case "shutdown" =>
          OneLine(cmds, vrid, said, "tracked-object " + t.object_ + " shutdown");
          r := r + [Head(vrid) + ("tracked-object " + t.object_ + " shutdown")];
        case _ =>
          AppendEmpty(said);
      }
    }
    TakeAll(tracks);
  }

  method AppendVrrpState(cmds: seq<string>, args: Args) returns (r: seq<string>)
    ensures r == cmds + Lines(args.vrid, BfdRests(args)) + Lines(args.vrid, DisabledRests(args)) + EnableLines(args)
  {
    r := cmds;
    if args.bfdPeer.Some? && args.bfdPeer.value != "" {
      r := r + [Head(args.vrid) + ("bfd ip " + args.bfdPeer.value)];
    }
    assert r == cmds + Lines(args.vrid, BfdRests(args));
    if args.shutdown.Some? {
      if args.shutdown.value {
        r := r + [Head(args.vrid) + "disabled"];
      } else {
        r := r + ["no " + Head(args.vrid) + "disabled"];
      }
    }
  }

  method BuildVrrpCmds(args: Args, isIPv6: string -> bool, remove: bool) returns (cmds: seq<string>)
    ensures cmds == Staged(args, isIPv6, remove)
  {
    cmds := ["interface " + args.iface];
    if remove {
      return cmds + ["no vrrp " + Itoa(args.vrid)];
    }
    cmds := AppendVrrpAddresses(cmds, args.addresses, args.vrid, isIPv6);
    cmds := AppendVrrpScalars(cmds, args);
    cmds := AppendVrrpTracks(cmds, args.tracks, args.vrid);
    cmds := AppendVrrpState(cmds, args);
    SaidTogether(["interface " + args.iface], args.vrid, AddressRests(args.addresses, isIPv6), ScalarRests(args),
                 Collect(args.tracks, TrackRests), BfdRests(args), DisabledRests(args), EnableLines(args));
  }

  lemma SaidTogether(cmds: seq<string>, vrid: Int, a: seq<string>, b: seq<string>, c: seq<string>, d: seq<string>,
                     e: seq<string>, f: seq<string>)
    ensures cmds + Lines(vrid, a) + Lines(vrid, b) + Lines(vrid, c) + Lines(vrid, d) + Lines(vrid, e) + f
         == cmds + (Lines(vrid, a + b + c + d + e) + f)
  {
    LinesAppend(vrid, a, b);
    LinesAppend(vrid, a + b, c);
    LinesAppend(vrid, a + b + c, d);
    LinesAppend(vrid, a + b + c + d, e);
    SixParts(cmds, Lines(vrid, a), Lines(vrid, b), Lines(vrid, c), Lines(vrid, d), Lines(vrid, e), f);
  }

  /** Every validated address has its line, in the declared order; among the IPv4
      lines exactly the first lacks `secondary`. */
  lemma {:induction false} FirstIsPrimary(addresses: seq<string>, isIPv6: string -> bool, i: nat)
    requires forall k :: 0 <= k < |addresses| ==> IsAddress(addresses[k], isIPv6)
    requires i < |addresses|
    ensures |AddressRests(addresses, isIPv6)| == |addresses|
    ensures var rest, a := AddressRests(addresses, isIPv6)[i], addresses[i];
            if isIPv6(a) then rest == "ipv6 " + a
            else
              && HasPrefix(rest, "ipv4 " + a)
              && (HasSuffix(rest, " secondary") <==> SeenIPv4(addresses[..i], isIPv6))
  {
    var n := |addresses| - 1;
    var front := addresses[..n];
    assert forall k :: 0 <= k < n ==> front[k] == addresses[k];
    FrontRests(addresses, isIPv6);
    if i < n {
      FirstIsPrimary(front, isIPv6, i);
      assert front[..i] == addresses[..i];
    } else {
      LastAddress(front, addresses[n], isIPv6);
    }
  }

  /** The line of an address after others. */
  lemma LastAddress(before: seq<string>, a: string, isIPv6: string -> bool)
    requires IsAddress(a, isIPv6)
    ensures |AddressRest(before, a, isIPv6)| == 1
    ensures var rest := AddressRest(before, a, isIPv6)[0];
            if isIPv6(a) then rest == "ipv6 " + a
            else HasPrefix(rest, "ipv4 " + a) && (HasSuffix(rest, " secondary") <==> SeenIPv4(before, isIPv6))
  {
    if !isIPv6(a) {
      Netip.IPv4Token(a);
      Netip.IPv4Chars(a);
      PrimaryLine("ipv4 ", a);
    }
  }

  lemma {:induction false} FrontRests(addresses: seq<string>, isIPv6: string -> bool)
    requires forall k :: 0 <= k < |addresses| ==> IsAddress(addresses[k], isIPv6)
    ensures |AddressRests(addresses, isIPv6)| == |addresses|
  {
    if addresses != [] {
      var front := addresses[..|addresses| - 1];
      assert forall k :: 0 <= k < |front| ==> front[k] == addresses[k];
      FrontRests(front, isIPv6);
    }
  }

  lemma PrimaryLine(head: string, a: string)
    requires IsToken(a) && Netip.IsIPv4Char(a[|a| - 1])
    ensures HasPrefix(head + a, head + a) && HasPrefix(head + a + " secondary", head + a)
    ensures !HasSuffix(head + a, " secondary") && HasSuffix(head + a + " secondary", " secondary")
  {
    CutOwnSuffix(head + a, " secondary");
    CutOwnPrefix(head + a, " secondary");
    var p := " secondary";
    assert (head + a)[|head + a| - 1] == a[|a| - 1] && p[|p| - 1] == 'y';
    NoSuffix(head + a, p, |p| - 1);
  }
}
