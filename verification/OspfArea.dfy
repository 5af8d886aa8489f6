/** OSPF area identifiers: one 32-bit number, written in decimal or as a dotted
    quad (RFC 2328, appendix C.2). The provider turns both into the form the
    device prints. */
module OspfArea {
  import opened Seqs
  import opened Text
  import Netip

  // ---- what an identifier denotes ------------------------------------------------

  const AREA_IDS := 0x1_0000_0000

  predicate IsGroup(s: string) {
    1 <= |s| <= 3 && AllDigits(s)
  }

  /** The dotted-quad pattern: four groups of one to three digits. */
  predicate IsDottedQuad(s: string) {
    var parts := Split(s, '.');
    |parts| == 4 && forall i :: 0 <= i < |parts| ==> IsGroup(parts[i])
  }

  predicate OctetsInRange(parts: seq<string>) {
    forall i :: 0 <= i < |parts| ==> IsGroup(parts[i]) && DecValue(parts[i]) <= 255
  }

  function QuadValue(a: int, b: int, c: int, d: int): int {
    ((a * 256 + b) * 256 + c) * 256 + d
  }

  /** The number a decimal numeral or a dotted quad stands for. */
  function AreaValue(s: string): (v: Option<int>)
    ensures v.Some? ==> 0 <= v.value < AREA_IDS
  {
    var parts := Split(s, '.');
    if IsDottedQuad(s) then
      if OctetsInRange(parts) then
        Some(QuadValue(DecValue(parts[0]), DecValue(parts[1]), DecValue(parts[2]), DecValue(parts[3])))
      else None
    else if s != "" && AllDigits(s) && DecValue(s) < AREA_IDS then Some(DecValue(s))
    else None
  }

  // ---- the canonical form --------------------------------------------------------

  function OctetOf(v: int, shift: int): int
    requires shift > 0
  {
    (v / shift) % 256
  }

  function Quad(v: int): string {
    Join([Itoa(OctetOf(v, 0x100_0000)), Itoa(OctetOf(v, 0x1_0000)), Itoa(OctetOf(v, 0x100)), Itoa(OctetOf(v, 1))], ".")
  }

  function Canonical(id: string): Option<string> {
    var s := TrimSpace(id);
    if IsDottedQuad(s) then
      if OctetsInRange(Split(s, '.')) then Some(s) else None
    else if s != "" && AllDigits(s) && DecValue(s) < AREA_IDS then Some(Quad(DecValue(s)))
    else None
  }

  method CanonicaliseOspfArea(id: string) returns (area: Option<string>)
    ensures area == Canonical(id)
  {
    var s := TrimSpace(id);
    if s == "" {
      return None;
    }
    if IsDottedQuad(s) {
      var parts := Split(s, '.');
      for i := 0 to |parts|
        invariant forall k :: 0 <= k < i ==> IsGroup(parts[k]) && DecValue(parts[k]) <= 255
      {
        GroupAtoi(parts[i]);
        var v := Atoi(parts[i]);
        if v == None || v.value < 0 || v.value > 255 {
          return None;
        }
      }
      return Some(s);
    }
    if AllDigits(s) && DecValue(s) < AREA_IDS {
      return Some(Quad(DecValue(s)));
    }
    return None;
  }

  lemma GroupAtoi(s: string)
    requires IsGroup(s)
    ensures DecValue(s) <= 999 && Atoi(s) == Some(DecValue(s))
  {
    var a := s[..|s| - 1];
    assert DecValue(s) <= DecValue(a) * 10 + 9;
    if a != "" {
      var b := a[..|a| - 1];
      assert DecValue(a) <= DecValue(b) * 10 + 9;
      assert b == "" || b[..|b| - 1] == "";
    }
  }

  // ---- the octets of a number -------------------------------------------------------

  lemma OctetsRebuild(v: int)
    requires 0 <= v < AREA_IDS
    ensures QuadValue(OctetOf(v, 0x100_0000), OctetOf(v, 0x1_0000), OctetOf(v, 0x100), OctetOf(v, 1)) == v
  {
    assert v / 0x100_0000 < 256;
    TwoShifts(v, 0x1_0000);
    TwoShifts(v, 0x100);
    TwoShifts(v, 1);
  }

  lemma TwoShifts(v: int, shift: int)
    requires 0 <= v && shift in {1, 0x100, 0x1_0000}
    ensures v / shift == v / (shift * 256) * 256 + OctetOf(v, shift)
  {
  }

  lemma OctetsDetermined(a: int, b: int, c: int, d: int)
    requires 0 <= a <= 255 && 0 <= b <= 255 && 0 <= c <= 255 && 0 <= d <= 255
    ensures var v := QuadValue(a, b, c, d);
            OctetOf(v, 0x100_0000) == a && OctetOf(v, 0x1_0000) == b && OctetOf(v, 0x100) == c && OctetOf(v, 1) == d
  {
  }

  lemma OctetPrinted(n: int)
    requires 0 <= n <= 255
    ensures IsGroup(Itoa(n)) && DecValue(Itoa(n)) == n && Netip.IsPlainNumber(Itoa(n)) && '.' !in Itoa(n)
  {
    var s := NatToDec(n);
    if n >= 10 {
      assert NatToDec(n) == NatToDec(n / 10) + [DigitChar(n % 10)];
      if n >= 100 {
        assert NatToDec(n / 10) == NatToDec(n / 100) + [DigitChar(n / 10 % 10)];
      }
    }
  }

  /** The printed quad is a dotted quad of plain octets and denotes the number. */
  lemma QuadDenotes(v: int)
    requires 0 <= v < AREA_IDS
    ensures IsDottedQuad(Quad(v)) && OctetsInRange(Split(Quad(v), '.'))
    ensures AreaValue(Quad(v)) == Some(v)
    ensures PlainQuad(Quad(v))
  {
    var a, b, c, d := OctetOf(v, 0x100_0000), OctetOf(v, 0x1_0000), OctetOf(v, 0x100), OctetOf(v, 1);
    OctetPrinted(a); OctetPrinted(b); OctetPrinted(c); OctetPrinted(d);
    SplitJoin([Itoa(a), Itoa(b), Itoa(c), Itoa(d)], '.');
    OctetsRebuild(v);
  }

  /** A dotted quad whose groups have no leading zeros. */
  predicate PlainQuad(s: string) {
    var parts := Split(s, '.');
    IsDottedQuad(s) && forall i :: 0 <= i < |parts| ==> Netip.IsPlainNumber(parts[i])
  }

  lemma {:induction false} DigitsPrinted(s: string)
    requires Netip.IsPlainNumber(s)
    ensures NatToDec(DecValue(s)) == s
  {
    var front := s[..|s| - 1];
    Snoc(s);
    if |s| > 1 {
      DigitsPrinted(front);
      var last := s[|s| - 1] as int - '0' as int;
      assert DecValue(s) == DecValue(front) * 10 + last;
      assert front[0] != '0';
      assert DecValue(front) > 0;
    }
  }

  /** A plain quad is the printed form of its own number. */
  lemma PlainQuadPrinted(s: string)
    requires PlainQuad(s) && OctetsInRange(Split(s, '.'))
    ensures AreaValue(s).Some? && Quad(AreaValue(s).value) == s
  {
    var parts := Split(s, '.');
    OctetsDetermined(DecValue(parts[0]), DecValue(parts[1]), DecValue(parts[2]), DecValue(parts[3]));
    DigitsPrinted(parts[0]); DigitsPrinted(parts[1]); DigitsPrinted(parts[2]); DigitsPrinted(parts[3]);
    assert parts == [parts[0], parts[1], parts[2], parts[3]];
    JoinSplit(s, '.');
  }

  // ---- the properties ------------------------------------------------------------

  /** Exactly the identifiers that denote a 32-bit number are accepted, and the
      canonical form is a dotted quad of octets that denotes the same number. */
  lemma CanonicalDenotes(id: string)
    ensures Canonical(id).Some? <==> AreaValue(TrimSpace(id)).Some?
    ensures Canonical(id).Some? ==>
              && IsDottedQuad(Canonical(id).value)
              && OctetsInRange(Split(Canonical(id).value, '.'))
              && AreaValue(Canonical(id).value) == AreaValue(TrimSpace(id))
  {
    var s := TrimSpace(id);
    if !IsDottedQuad(s) && s != "" && AllDigits(s) && DecValue(s) < AREA_IDS {
      QuadDenotes(DecValue(s));
    }
  }

  lemma QuadIsToken(s: string)
    requires IsDottedQuad(s)
    ensures IsToken(s)
  {
    var parts := Split(s, '.');
    GroupsJoined(parts);
    JoinSplit(s, '.');
  }

  lemma {:induction false} GroupsJoined(parts: seq<string>)
    requires parts != []
    requires forall i :: 0 <= i < |parts| ==> IsGroup(parts[i])
    ensures IsToken(Join(parts, "."))
  {
    assert IsGroup(parts[0]);
    if |parts| > 1 {
      GroupsJoined(parts[1..]);
    }
  }

  lemma CanonicalIdempotent(id: string)
    requires Canonical(id).Some?
    ensures Canonical(Canonical(id).value) == Canonical(id)
  {
    CanonicalDenotes(id);
    QuadIsToken(Canonical(id).value);
  }

  /** Written without leading zeros: a decimal numeral always, a dotted quad when
      its groups are. */
  predicate OneSpelling(id: string) {
    IsDottedQuad(TrimSpace(id)) ==> PlainQuad(TrimSpace(id))
  }

  lemma CanonicalPrinted(id: string)
    requires Canonical(id).Some?
    ensures OneSpelling(id) <==> Canonical(id).value == Quad(AreaValue(TrimSpace(id)).value)
  {
    var s := TrimSpace(id);
    QuadDenotes(AreaValue(s).value);
    if PlainQuad(s) {
      PlainQuadPrinted(s);
    }
  }

  /** Two accepted identifiers with one canonical form denote one area. The
      converse, one form for one area, holds for every other spelling of the area
      exactly when the identifier has no leading zeros in a dotted quad. */
  lemma SameForm(a: string, b: string)
    requires Canonical(a).Some? && Canonical(b).Some?
    ensures Canonical(a) == Canonical(b) ==> AreaValue(TrimSpace(a)) == AreaValue(TrimSpace(b))
    ensures OneSpelling(a) && AreaValue(TrimSpace(a)) == AreaValue(TrimSpace(b)) ==>
              (Canonical(a) == Canonical(b) <==> OneSpelling(b))
  {
    CanonicalDenotes(a);
    CanonicalDenotes(b);
    CanonicalPrinted(a);
    CanonicalPrinted(b);
  }

  /** Decimal identifiers collide only when they are equal numbers. */
  lemma DecimalInjective(a: string, b: string)
    requires AllDigits(TrimSpace(a)) && AllDigits(TrimSpace(b))
    requires Canonical(a).Some? && Canonical(b).Some?
    ensures Canonical(a) == Canonical(b) <==> DecValue(TrimSpace(a)) == DecValue(TrimSpace(b))
  {
    DigitsAreNoQuad(TrimSpace(a));
    DigitsAreNoQuad(TrimSpace(b));
    SameForm(a, b);
  }

  lemma DigitsAreNoQuad(s: string)
    requires AllDigits(s)
    ensures !IsDottedQuad(s)
  {
    assert '.' !in s;
    SplitNone(s, '.');
  }

  predicate FourGroups(parts: seq<string>) {
    |parts| == 4 && forall i :: 0 <= i < |parts| ==> IsGroup(parts[i])
  }

  lemma JoinedQuad(parts: seq<string>)
    requires FourGroups(parts) && OctetsInRange(parts)
    ensures var s := Join(parts, ".");
            && Split(s, '.') == parts && Canonical(s) == Some(s)
            && AreaValue(s) == Some(QuadValue(DecValue(parts[0]), DecValue(parts[1]), DecValue(parts[2]),
              DecValue(parts[3])))
  {
    SplitJoin(parts, '.');
    QuadIsToken(Join(parts, "."));
  }

  /** Leading zeros survive: quads whose groups agree in value denote one area, and
      have one canonical form only if they agree digit by digit. */
  lemma LeadingZerosKept(p: seq<string>, q: seq<string>)
    requires FourGroups(p) && FourGroups(q)
    requires forall i :: 0 <= i < 4 ==> DecValue(p[i]) == DecValue(q[i]) <= 255
    ensures var a, b := Join(p, "."), Join(q, ".");
            && Canonical(a).Some? && Canonical(b).Some? && AreaValue(a) == AreaValue(b)
            && (Canonical(a) == Canonical(b) <==> p == q)
  {
    JoinedQuad(p);
    JoinedQuad(q);
  }

  /** Such groups exist: "1" and "01". */
  lemma PaddedGroup()
    ensures IsGroup("1") && IsGroup("01") && DecValue("1") == DecValue("01") == 1
  {
    assert "01"[..1] == "0" && "1"[..0] == "";
    assert DecValue("0") == 0;
  }

  // ---- the lines that carry an identifier ----------------------------------------

  datatype Network = Network(prefix: string, area: string)

  datatype Area = Area(
    id: string,
    kind: Option<string>,
    defaultCost: Option<Int>,
    ranges: seq<string>,
    nssaMetric: Option<Int>,
    nssaMetricType: Option<Int>,
    nssaOnly: Option<bool>)

  datatype Invalid =
    | PrefixInvalid | AreaInvalid | TypeInvalid
    | DefaultCostRange | SummaryPrefixInvalid | MetricTypeInvalid

  predicate ValidNetwork(n: Network, isPrefix: string -> bool) {
    isPrefix(n.prefix) && AreaValue(TrimSpace(n.area)).Some?
  }

  predicate IsAreaType(kind: string) {
    kind in {"normal", "stub", "stub-no-summary", "nssa", "nssa-default-information-originate"}
  }

  predicate ValidArea(a: Area, isPrefix: string -> bool) {
    && AreaValue(TrimSpace(a.id)).Some?
    && (a.kind.Some? && a.kind.value != "" ==> IsAreaType(a.kind.value))
    && (a.defaultCost.Some? ==> 1 <= a.defaultCost.value <= 65535)
    && (forall i :: 0 <= i < |a.ranges| ==> isPrefix(a.ranges[i]))
    && (a.nssaMetricType.Some? ==> a.nssaMetricType.value == 1 || a.nssaMetricType.value == 2)
  }

  lemma AcceptedExactly(id: string)
    ensures Canonical(id) == None <==> AreaValue(TrimSpace(id)) == None
  {
    CanonicalDenotes(id);
  }

  method ValidateNetwork(n: Network, isPrefix: string -> bool) returns (err: Option<Invalid>)
    ensures err == None <==> ValidNetwork(n, isPrefix)
  {
    if !isPrefix(n.prefix) {
      return Some(PrefixInvalid);
    }
    var area := CanonicaliseOspfArea(n.area);
    AcceptedExactly(n.area);
    return if area == None then Some(AreaInvalid) else None;
  }

  method ValidateNetworks(networks: seq<Network>, isPrefix: string -> bool) returns (err: Option<Invalid>)
    ensures err == None <==> forall i :: 0 <= i < |networks| ==> ValidNetwork(networks[i], isPrefix)
  {
    for i := 0 to |networks|
      invariant forall k :: 0 <= k < i ==> ValidNetwork(networks[k], isPrefix)
    {
      err := ValidateNetwork(networks[i], isPrefix);
      if err != None {
        return;
      }
    }
    return None;
  }

  method ValidateRanges(ranges: seq<string>, isPrefix: string -> bool) returns (err: Option<Invalid>)
    ensures err == None <==> forall i :: 0 <= i < |ranges| ==> isPrefix(ranges[i])
  {
    for i := 0 to |ranges|
      invariant forall k :: 0 <= k < i ==> isPrefix(ranges[k])
    {
      if !isPrefix(ranges[i]) {
        return Some(SummaryPrefixInvalid);
      }
    }
    return None;
  }

  method ValidateArea(a: Area, isPrefix: string -> bool) returns (err: Option<Invalid>)
    ensures err == None <==> ValidArea(a, isPrefix)
  {
    var area := CanonicaliseOspfArea(a.id);
    AcceptedExactly(a.id);
    if area == None {
      return Some(AreaInvalid);
    }
    if a.kind.Some? && a.kind.value != "" && !IsAreaType(a.kind.value) {
      return Some(TypeInvalid);
    }
    if a.defaultCost.Some? && (a.defaultCost.value < 1 || a.defaultCost.value > 65535) {
      return Some(DefaultCostRange);
    }
    err := ValidateRanges(a.ranges, isPrefix);
    if err != None {
      return;
    }
    if a.nssaMetricType.Some? && a.nssaMetricType.value != 1 && a.nssaMetricType.value != 2 {
      return Some(MetricTypeInvalid);
    }
    return None;
  }

  method ValidateAreas(areas: seq<Area>, isPrefix: string -> bool) returns (err: Option<Invalid>)
    ensures err == None <==> forall i :: 0 <= i < |areas| ==> ValidArea(areas[i], isPrefix)
  {
    for i := 0 to |areas|
      invariant forall k :: 0 <= k < i ==> ValidArea(areas[k], isPrefix)
    {
      err := ValidateArea(areas[i], isPrefix);
      if err != None {
        return;
      }
    }
    return None;
  }

  /** The identifier a line is rendered with. The renderer drops the error. */
  function Rendered(id: string): string {
    match Canonical(id)
    case Some(area) => area
    case None => ""
  }

  function NetworkLine(n: Network): string {
    "network " + n.prefix + " area " + Rendered(n.area)
  }

  function NssaLine(head: string, a: Area): string {
    var line := head + "nssa default-information-originate";
    var line := if a.nssaMetric.Some? then line + " metric " + Itoa(a.nssaMetric.value) else line;
    var line := if a.nssaMetricType.Some? then line + " metric-type " + Itoa(a.nssaMetricType.value) else line;
    if a.nssaOnly == Some(true) then line + " nssa-only" else line
  }

  function TypeLines(head: string, a: Area): seq<string> {
    if a.kind == Some("stub") then [head + "stub"]
    else if a.kind == Some("stub-no-summary") then [head + "stub no-summary"]
    else if a.kind == Some("nssa") then [head + "nssa"]
    else if a.kind == Some("nssa-default-information-originate") then [NssaLine(head, a)]
    else []
  }

  function CostLines(head: string, a: Area): seq<string> {
    if a.defaultCost.Some? then [head + "default-cost " + Itoa(a.defaultCost.value)] else []
  }

  function RangeLines(head: string, ranges: seq<string>): (lines: seq<string>)
    ensures |lines| == |ranges|
    ensures forall i :: 0 <= i < |lines| ==> lines[i] == head + "range " + ranges[i]
  {
    seq(|ranges|, i requires 0 <= i < |ranges| => head + "range " + ranges[i])
  }

  function AreaHead(a: Area): string {
    "area " + Rendered(a.id) + " "
  }

  function AreaLines(a: Area): seq<string> {
    TypeLines(AreaHead(a), a) + CostLines(AreaHead(a), a) + RangeLines(AreaHead(a), a.ranges)
  }

  method RenderType(head: string, a: Area) returns (lines: seq<string>)
    ensures lines == TypeLines(head, a)
  {
    lines := [];
    if a.kind.Some? && a.kind.value != "" && a.kind.value != "normal" {
      match a.kind.value {
        case "stub" => lines := lines + [head + "stub"];
        case "stub-no-summary" => lines := lines + [head + "stub no-summary"];
        case "nssa" => lines := lines + [head + "nssa"];
        case "nssa-default-information-originate" =>
          var line := head + "nssa default-information-originate";
          if a.nssaMetric.Some? {
            line := line + " metric " + Itoa(a.nssaMetric.value);
          }
          if a.nssaMetricType.Some? {
            line := line + " metric-type " + Itoa(a.nssaMetricType.value);
          }
          if a.nssaOnly == Some(true) {
            line := line + " nssa-only";
          }
          lines := lines + [line];
        case _ =>
      }
    }
  }

  method RenderArea(a: Area) returns (lines: seq<string>)
    ensures lines == AreaLines(a)
  {
    var area := CanonicaliseOspfArea(a.id);
    var head := AreaHead(a);
    lines := RenderType(head, a);
    if a.defaultCost.Some? {
      lines := lines + [head + "default-cost " + Itoa(a.defaultCost.value)];
    }
    ghost var front := lines;
    ghost var all := RangeLines(head, a.ranges);
    for i := 0 to |a.ranges|
      invariant lines == front + all[..i]
    {
      TakeSnoc(all, i);
      Associate(front, all[..i], [all[i]]);
      lines := lines + [head + "range " + a.ranges[i]];
    }
    TakeAll(all);
  }

  /** Every line of an area starts with its identifier. */
  lemma AreaLinesNameArea(a: Area, i: nat)
    requires i < |AreaLines(a)|
    ensures HasPrefix(AreaLines(a)[i], AreaHead(a))
  {
    var head := AreaHead(a);
    TypeLineHead(head, a);
    CostLineHead(head, a);
    RangeLineHead(head, a.ranges);
    AllHeads(head, TypeLines(head, a), CostLines(head, a), RangeLines(head, a.ranges));
  }

  predicate Headed(head: string, lines: seq<string>) {
    forall i :: 0 <= i < |lines| ==> HasPrefix(lines[i], head)
  }

  lemma AllHeads(head: string, a: seq<string>, b: seq<string>, c: seq<string>)
    requires Headed(head, a) && Headed(head, b) && Headed(head, c)
    ensures Headed(head, a + b + c)
  {
  }

  lemma NssaLineHead(head: string, a: Area)
    ensures HasPrefix(NssaLine(head, a), head)
  {
    var line := head + "nssa default-information-originate";
    assert head <= line;
    line := if a.nssaMetric.Some? then line + " metric " + Itoa(a.nssaMetric.value) else line;
    assert head <= line;
    line := if a.nssaMetricType.Some? then line + " metric-type " + Itoa(a.nssaMetricType.value) else line;
    assert head <= line;
  }

  lemma TypeLineHead(head: string, a: Area)
    ensures Headed(head, TypeLines(head, a))
  {
    NssaLineHead(head, a);
    CutOwnPrefix(head, "stub");
    CutOwnPrefix(head, "stub no-summary");
    CutOwnPrefix(head, "nssa");
  }

  lemma CostLineHead(head: string, a: Area)
    ensures Headed(head, CostLines(head, a))
  {
    if a.defaultCost.Some? {
      Associate(head, "default-cost ", Itoa(a.defaultCost.value));
      CutOwnPrefix(head, "default-cost " + Itoa(a.defaultCost.value));
    }
  }

  lemma RangeLineHead(head: string, ranges: seq<string>)
    ensures Headed(head, RangeLines(head, ranges))
  {
    forall i | 0 <= i < |ranges| ensures HasPrefix(RangeLines(head, ranges)[i], head) {
      Associate(head, "range ", ranges[i]);
      CutOwnPrefix(head, "range " + ranges[i]);
    }
  }

  /** After validation every rendered network and area line names its area, by a
      dotted quad that denotes the declared number. */
  lemma ValidatedIdRendered(id: string)
    requires AreaValue(TrimSpace(id)).Some?
    ensures IsToken(Rendered(id)) && IsDottedQuad(Rendered(id))
    ensures AreaValue(Rendered(id)) == AreaValue(TrimSpace(id))
  {
    CanonicalDenotes(id);
    QuadIsToken(Rendered(id));
  }

  /** Without validation the identifier would be missing from the line. */
  lemma RejectedIdEmpty(id: string)
    ensures Rendered(id) == "" <==> AreaValue(TrimSpace(id)).None?
  {
    CanonicalDenotes(id);
    if Canonical(id).Some? {
      QuadIsToken(Canonical(id).value);
    }
  }
}
