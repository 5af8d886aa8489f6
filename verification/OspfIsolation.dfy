/** Exactly when the lines that follow an OSPF process in the same text leave its
    reading alone. */
module OspfIsolation {
  import opened Text
  import opened Rendering
  import opened Scanner
  import opened OspfSection
  import opened OspfRead
  import Netip

  /** Every validated process of this instance and VRF reads back as declared between these
      two texts. */
  ghost predicate ReadsIntact(instance: Int, vrf: string, pre: seq<string>, post: seq<string>) {
    forall args: Args ::
      args.instance == instance && Deref(args.vrf) == vrf && ValidScalars(args) ==>
        Reading(pre + ([HeaderOf(args)] + Body(args)) + post, instance, vrf) == Some(RowOf(args))
  }

  // ---- lines that say nothing about a process ----------------------------------------------

  predicate Harmless(line: string) {
    if HasPrefix(line, "router-id ") || line == "shutdown" || line == "no shutdown" then false
    else if HasPrefix(line, "max-lsa ") then
      var fields := Fields(TrimPrefix(line, "max-lsa "));
      fields == [] || Atoi(fields[0]) == None
    else if HasPrefix(line, "maximum-paths ") then Atoi(TrimPrefix(line, "maximum-paths ")) == None
    else line != "passive-interface default"
  }

  predicate AllHarmless(lines: seq<string>) {
    forall i :: 0 <= i < |lines| ==> Harmless(lines[i])
  }

  lemma HarmlessIdle(row: Row, lines: seq<string>)
    requires AllHarmless(lines)
    ensures Scan(row, lines, ApplyLine) == row
  {
    forall i | 0 <= i < |lines| ensures ApplyLine(row, lines[i]) == row {
      assert Harmless(lines[i]);
    }
    ScanIdle(row, lines, ApplyLine);
  }

  // ---- and lines that overwrite a field ------------------------------------------------------

  predicate AgreeSomewhere(a: Row, b: Row) {
    || a.routerId == b.routerId
    || a.shutdown == b.shutdown
    || a.maxLsa == b.maxLsa
    || a.maximumPaths == b.maximumPaths
    || a.passiveDefault == b.passiveDefault
  }

  /** What a line sets. */
  datatype Says =
    | RouterId(id: string) | Shutdown(on: bool) | MaxLsa(n: Int) | MaximumPaths(n: Int) | PassiveDefault
    | Nothing

  function NumberSays(n: Option<Int>, says: Int -> Says): Says {
    if n.Some? then says(n.value) else Nothing
  }

  function SaysOf(line: string): Says {
    if HasPrefix(line, "router-id ") then RouterId(TrimPrefix(line, "router-id "))
    else if line == "shutdown" then Shutdown(true)
    else if line == "no shutdown" then Shutdown(false)
    else if HasPrefix(line, "max-lsa ") then
      var fields := Fields(TrimPrefix(line, "max-lsa "));
      NumberSays(if fields == [] then None else Atoi(fields[0]), (n: Int) => MaxLsa(n))
    else if HasPrefix(line, "maximum-paths ") then
      NumberSays(Atoi(TrimPrefix(line, "maximum-paths ")), (n: Int) => MaximumPaths(n))
    else if line == "passive-interface default" then PassiveDefault
    else Nothing
  }

  function Put(row: Row, says: Says): Row {
    match says
    case RouterId(id) => row.(routerId := id)
    case Shutdown(on) => row.(shutdown := Some(on))
    case MaxLsa(n) => row.(maxLsa := n)
    case MaximumPaths(n) => row.(maximumPaths := n)
    case PassiveDefault => row.(passiveDefault := Some(true))
    case Nothing => row
  }

  lemma LineSays(row: Row, line: string)
    ensures ApplyRouterOspfLine(row, line) == Put(row, SaysOf(line))
  {
  }

  lemma HarmfulSays(line: string)
    ensures !Harmless(line) ==> SaysOf(line) != Nothing
  {
  }

  lemma PutAgrees(a: Row, b: Row, says: Says)
    ensures AgreeSomewhere(a, b) || says != Nothing ==> AgreeSomewhere(Put(a, says), Put(b, says))
  {
  }

  /** A field that a line overwrites is the same afterwards, whatever it was. */
  lemma LineAgrees(a: Row, b: Row, line: string)
    ensures AgreeSomewhere(a, b) || !Harmless(line) ==>
              AgreeSomewhere(ApplyRouterOspfLine(a, line), ApplyRouterOspfLine(b, line))
  {
    LineSays(a, line);
    LineSays(b, line);
    HarmfulSays(line);
    PutAgrees(a, b, SaysOf(line));
  }

  lemma {:induction false} LinesAgree(a: Row, b: Row, lines: seq<string>)
    ensures AgreeSomewhere(a, b) || !AllHarmless(lines) ==>
              AgreeSomewhere(Scan(a, lines, ApplyLine), Scan(b, lines, ApplyLine))
  {
    if lines != [] {
      var n := |lines| - 1;
      LinesAgree(a, b, lines[..n]);
      LineAgrees(Scan(a, lines[..n], ApplyLine), Scan(b, lines[..n], ApplyLine), lines[n]);
      if !AllHarmless(lines) && Harmless(lines[n]) {
        var i :| 0 <= i < |lines| && !Harmless(lines[i]);
        assert lines[..n][i] == lines[i];
      }
    }
  }

  // ---- two processes that differ in every field -------------------------------------------------

  /** A process with nothing but these fields. */
  function Process(instance: Int, vrf: string, routerId: Option<string>, given: bool): Args {
    Args(instance, Some(vrf), routerId,
         if given then Some(true) else None,
         if given then Some(5) else None,
         if given then Some(5) else None,
         None,
         if given then Some(true) else None,
         [], [], [], [], [], None, [], None, None, None, None)
  }

  lemma DifferEverywhere(instance: Int, vrf: string, id: string)
    requires id != ""
    ensures !AgreeSomewhere(RowOf(Process(instance, vrf, None, false)), RowOf(Process(instance, vrf, Some(id), true)))
  {
  }

  // ---- the exact condition ---------------------------------------------------------------------------

  lemma ProcessValid(instance: Int, vrf: string, routerId: Option<string>, given: bool)
    requires 1 <= instance <= 65535 && (Deref(routerId) != "" ==> Netip.IsIPv4(routerId.value))
    ensures ValidScalars(Process(instance, vrf, routerId, given))
    ensures HeaderOf(Process(instance, vrf, routerId, given)) == Header(instance, vrf)
  {
  }

  lemma NotBoth(a: Args, b: Args, pre: seq<string>, post: seq<string>)
    requires ValidScalars(a) && ValidScalars(b) && a.instance == b.instance && Deref(a.vrf) == Deref(b.vrf)
    requires HeaderOf(a) !in pre && HeaderOf(a) !in post && !AgreeSomewhere(RowOf(a), RowOf(b))
    requires !AllHarmless(Closing(post))
    ensures !ReadsIntact(a.instance, Deref(a.vrf), pre, post)
  {
    SectionScanned(pre, a, post);
    SectionScanned(pre, b, post);
    LinesAgree(RowOf(a), RowOf(b), Closing(post));
  }

  lemma HarmIsRead(instance: Int, vrf: string, pre: seq<string>, post: seq<string>)
    requires 1 <= instance <= 65535 && Header(instance, vrf) !in pre && Header(instance, vrf) !in post
    requires !AllHarmless(Closing(post))
    ensures !ReadsIntact(instance, vrf, pre, post)
  {
    var id := Netip.SomeAddress();
    Netip.IPv4Token(id);
    ProcessValid(instance, vrf, None, false);
    ProcessValid(instance, vrf, Some(id), true);
    DifferEverywhere(instance, vrf, id);
    NotBoth(Process(instance, vrf, None, false), Process(instance, vrf, Some(id), true), pre, post);
  }

  /** Between two texts without its header, every process of an instance and VRF reads back
      as declared if and only if no line that follows it, up to the next process, sets one of
      the five fields. */
  lemma IntactExactly(instance: Int, vrf: string, pre: seq<string>, post: seq<string>)
    requires 1 <= instance <= 65535 && Header(instance, vrf) !in pre && Header(instance, vrf) !in post
    ensures ReadsIntact(instance, vrf, pre, post) <==> AllHarmless(Closing(post))
  {
    if AllHarmless(Closing(post)) {
      forall args: Args | args.instance == instance && Deref(args.vrf) == vrf && ValidScalars(args)
        ensures Reading(pre + ([HeaderOf(args)] + Body(args)) + post, instance, vrf) == Some(RowOf(args))
      {
        SectionScanned(pre, args, post);
        HarmlessIdle(RowOf(args), Closing(post));
      }
    } else {
      HarmIsRead(instance, vrf, pre, post);
    }
  }

  /** Another routing protocol does the damage: its router-id is read as the process's. */
  lemma RouterIdLeaks(instance: Int, vrf: string, id: string)
    requires 1 <= instance <= 65535
    ensures !ReadsIntact(instance, vrf, [], ["exit", "router bgp 65000", "router-id " + id])
  {
    var line := "router-id " + id;
    var post := ["exit", "router bgp 65000", line];
    CutOwnPrefix("router-id ", id);
    NoPrefix("exit", "router ospf", 0);
    NoPrefix("router bgp 65000", "router ospf", 7);
    NoPrefix(line, "router ospf", 6);
    HeaderStarts(instance, vrf);
    assert post == ["exit"] + (["router bgp 65000"] + ([line] + []));
    ClosingStep(line, []);
    ClosingStep("router bgp 65000", [line] + []);
    ClosingStep("exit", ["router bgp 65000"] + ([line] + []));
    assert Closing(post)[2] == line && !Harmless(line);
    IntactExactly(instance, vrf, [], post);
  }

  lemma HeaderStarts(instance: Int, vrf: string)
    ensures IsHeader(Header(instance, vrf))
  {
    HeaderIsHeader(Process(instance, vrf, None, false));
  }
}
