/** Reading a VRRP group back from `show running-config interfaces X`. */
module VrrpRead {
  import opened Seqs
  import opened Text
  import opened Rendering
  import opened Scanner
  import opened Sorting
  import opened Vrrp
  import Netip

  datatype Row = Row(
    description: string,
    priority: Int,
    preempt: bool,
    preemptDelay: Int,
    advertise: Int,
    addresses: seq<string>,
    tracks: seq<Track>,
    bfdPeer: string,
    shutdown: Option<bool>)

  const EMPTY := Row("", 0, false, 0, 0, [], [], "", None)

  // ---- one line -------------------------------------------------------------------------

  function WithIPv4(row: Row, rest: string): Row {
    row.(addresses := row.addresses + [TrimSuffix(rest, " secondary")])
  }

  function AddrLine(row: Row, rest: string): Option<Row> {
    if HasPrefix(rest, "ipv4 ") then Some(WithIPv4(row, TrimPrefix(rest, "ipv4 ")))
    else if HasPrefix(rest, "ip ") then Some(WithIPv4(row, TrimPrefix(rest, "ip ")))
    else if HasPrefix(rest, "ipv6 ") then Some(row.(addresses := row.addresses + [TrimPrefix(rest, "ipv6 ")]))
    else None
  }

  function OrKeep(n: Option<Int>, keep: Int): Int {
    if n.Some? then n.value else keep
  }

  function ScalarLine(row: Row, rest: string): Option<Row> {
    if HasPrefix(rest, "priority-level ") then
      Some(row.(priority := OrKeep(Atoi(TrimPrefix(rest, "priority-level ")), row.priority)))
    else if HasPrefix(rest, "priority ") then
      Some(row.(priority := OrKeep(Atoi(TrimPrefix(rest, "priority ")), row.priority)))
    else if rest == "preempt" then Some(row.(preempt := true))
    else if HasPrefix(rest, "preempt delay minimum ") then
      Some(row.(preemptDelay := OrKeep(Atoi(TrimPrefix(rest, "preempt delay minimum ")), row.preemptDelay)))
    else if HasPrefix(rest, "advertisement interval ") then
      Some(row.(advertise := OrKeep(Atoi(TrimPrefix(rest, "advertisement interval ")), row.advertise)))
    else if HasPrefix(rest, "timers advertise ") then
      Some(row.(advertise := OrKeep(Atoi(TrimPrefix(rest, "timers advertise ")), row.advertise)))
    else None
  }

  function TrackOfWords(words: seq<string>): Option<Track> {
    if |words| < 2 then None
    else if words[1] == "decrement" then
      if |words| < 3 || Atoi(words[2]) == None then None else Some(Track(words[0], "decrement", Atoi(words[2])))
    else if words[1] == "shutdown" then Some(Track(words[0], "shutdown", None))
    else None
  }

  function WithTrack(row: Row, rest: string): Row {
    match TrackOfWords(Fields(rest))
    case Some(t) => row.(tracks := row.tracks + [t])
    case None => row
  }

  function ExtrasLine(row: Row, rest: string): Row {
    if HasPrefix(rest, "session description ") then row.(description := TrimPrefix(rest, "session description "))
    else if HasPrefix(rest, "description ") then row.(description := TrimPrefix(rest, "description "))
    else if HasPrefix(rest, "tracked-object ") then WithTrack(row, TrimPrefix(rest, "tracked-object "))
    else if HasPrefix(rest, "track ") then WithTrack(row, TrimPrefix(rest, "track "))
    else if HasPrefix(rest, "bfd ip ") then row.(bfdPeer := TrimPrefix(rest, "bfd ip "))
    else if HasPrefix(rest, "bfd peer ") then row.(bfdPeer := TrimPrefix(rest, "bfd peer "))
    else if rest == "disabled" || rest == "shutdown" then row.(shutdown := Some(true))
    else if rest == "no disabled" || rest == "no shutdown" then row.(shutdown := Some(false))
    else row
  }

  function ApplyVrrpLine(row: Row, rest: string): Row {
    match AddrLine(row, rest)
    case Some(r) => r
    case None =>
      match ScalarLine(row, rest)
      case Some(r) => r
      case None => ExtrasLine(row, rest)
  }

  const ApplyLine := (row: Row, rest: string) => ApplyVrrpLine(row, rest)

  // ---- the text ----------------------------------------------------------------------------

  /** What follows `vrrp N ` on a line of that group. */
  function Rest(vrid: Int): string -> seq<string> {
    (line: string) => match CutPrefix(line, Head(vrid)) case Some(rest) => [rest] case None => []
  }

  function Rests(lines: seq<string>, vrid: Int): seq<string> {
    Collect(lines, Rest(vrid))
  }

  function Reading(text: string, iface: string, vrid: Int): Option<Row> {
    var rests := Rests(TrimmedLines(text), vrid);
    if !Contains(text, "interface " + iface) || rests == [] then None
    else Some(Scan(EMPTY, rests, ApplyLine))
  }

  method ParseVrrpSection(out: string, iface: string, vrid: Int) returns (row: Row, found: bool)
    ensures Reading(out, iface, vrid) == if found then Some(row) else None
    ensures !found ==> row == EMPTY
  {
    row, found := EMPTY, false;
    if !Contains(out, "interface " + iface) {
      return;
    }
    var prefix := "vrrp " + Itoa(vrid) + " ";
    var raws := Split(out, '\n');
    ghost var lines := TrimmedLines(out);
    for i := 0 to |raws|
      invariant row == Scan(EMPTY, Rests(lines[..i], vrid), ApplyLine)
      invariant found == (Rests(lines[..i], vrid) != [])
    {
      var line := TrimSpace(raws[i]);
      assert line == lines[i];
      TakeSnoc(lines, i);
      CollectSnoc(lines[..i], line, Rest(vrid));
      var rest := CutPrefix(line, prefix);
      if rest == None {
        AppendEmpty(Rests(lines[..i], vrid));
        continue;
      }
      ScanSnoc(EMPTY, Rests(lines[..i], vrid), rest.value, ApplyLine);
      row := ApplyVrrpLine(row, rest.value);
      found := true;
    }
    TakeAll(lines);
  }

  // ---- what each line says ---------------------------------------------------------------

  lemma NotAddr(row: Row, rest: string)
    requires rest != "" && rest[0] != 'i'
    ensures AddrLine(row, rest) == None
  {
    NoPrefix(rest, "ipv4 ", 0);
    NoPrefix(rest, "ip ", 0);
    NoPrefix(rest, "ipv6 ", 0);
  }

  lemma NotScalar(row: Row, rest: string)
    requires rest != "" && rest[0] != 'p' && rest[0] != 'a'
    requires rest[0] == 't' ==> |rest| > 1 && rest[1] != 'i'
    ensures ScalarLine(row, rest) == None
  {
    NoPrefix(rest, "priority-level ", 0);
    NoPrefix(rest, "priority ", 0);
    NoPrefix(rest, "preempt delay minimum ", 0);
    NoPrefix(rest, "advertisement interval ", 0);
    NoPrefix(rest, "timers advertise ", if rest[0] == 't' then 1 else 0);
  }

  lemma IPv6Read(row: Row, a: string)
    ensures ApplyVrrpLine(row, "ipv6 " + a) == row.(addresses := row.addresses + [a])
  {
    var rest := "ipv6 " + a;
    CutOwnPrefix("ipv6 ", a);
    assert rest[2] == 'v' && rest[3] == '6';
    NoPrefix(rest, "ipv4 ", 3);
    NoPrefix(rest, "ip ", 2);
  }

  lemma IPv4Said(row: Row, tail: string)
    ensures ApplyVrrpLine(row, "ipv4 " + tail) == WithIPv4(row, tail)
  {
    CutOwnPrefix("ipv4 ", tail);
  }

  lemma IPv4Read(row: Row, a: string)
    requires Netip.IsIPv4(a)
    ensures ApplyVrrpLine(row, "ipv4 " + a) == row.(addresses := row.addresses + [a])
    ensures ApplyVrrpLine(row, "ipv4 " + a + " secondary") == row.(addresses := row.addresses + [a])
  {
    Netip.IPv4Token(a);
    IPv4Said(row, a);
    NoSuffixInToken(a, " secondary", 0);
    Associate("ipv4 ", a, " secondary");
    IPv4Said(row, a + " secondary");
    CutOwnSuffix(a, " secondary");
  }

  lemma AddressRead(row: Row, before: seq<string>, a: string, isIPv6: string -> bool)
    requires IsAddress(a, isIPv6)
    ensures |AddressRest(before, a, isIPv6)| == 1
    ensures ApplyVrrpLine(row, AddressRest(before, a, isIPv6)[0]) == row.(addresses := row.addresses + [a])
  {
    IPv6Read(row, a);
    if !isIPv6(a) {
      IPv4Read(row, a);
    }
  }

  lemma {:induction false} AddressesRead(row: Row, addresses: seq<string>, isIPv6: string -> bool)
    requires forall i :: 0 <= i < |addresses| ==> IsAddress(addresses[i], isIPv6)
    ensures Scan(row, AddressRests(addresses, isIPv6), ApplyLine) == row.(addresses := row.addresses + addresses)
  {
    if addresses == [] {
      AppendEmpty(row.addresses);
    } else {
      var n := |addresses| - 1;
      var front := addresses[..n];
      assert forall i :: 0 <= i < n ==> front[i] == addresses[i];
      AddressesRead(row, front, isIPv6);
      var mid := row.(addresses := row.addresses + front);
      AddressRead(mid, front, addresses[n], isIPv6);
      Snoc(addresses);
      Associate(row.addresses, front, [addresses[n]]);
      One(AddressRest(front, addresses[n], isIPv6));
      ScanSnoc(row, AddressRests(front, isIPv6), AddressRest(front, addresses[n], isIPv6)[0], ApplyLine);
    }
  }

  lemma One<T>(s: seq<T>)
    requires |s| == 1
    ensures s == [s[0]]
  {
  }

  lemma PriorityRead(row: Row, digits: string, n: Int)
    requires Atoi(digits) == Some(n)
    ensures ApplyVrrpLine(row, "priority-level " + digits) == row.(priority := n)
  {
    CutOwnPrefix("priority-level ", digits);
    NotAddr(row, "priority-level " + digits);
  }

  lemma PreemptRead(row: Row)
    ensures ApplyVrrpLine(row, "preempt") == row.(preempt := true)
  {
    NotAddr(row, "preempt");
    NoPrefix("preempt", "priority-level ", 2);
    NoPrefix("preempt", "priority ", 2);
  }

  lemma DelayRead(row: Row, digits: string, n: Int)
    requires Atoi(digits) == Some(n)
    ensures ApplyVrrpLine(row, "preempt delay minimum " + digits) == row.(preemptDelay := n)
  {
    var rest := "preempt delay minimum " + digits;
    CutOwnPrefix("preempt delay minimum ", digits);
    NotAddr(row, rest);
    assert rest[2] == 'e' && |rest| > 7;
    NoPrefix(rest, "priority-level ", 2);
    NoPrefix(rest, "priority ", 2);
  }

  lemma AdvertiseRead(row: Row, digits: string, n: Int)
    requires Atoi(digits) == Some(n)
    ensures ApplyVrrpLine(row, "advertisement interval " + digits) == row.(advertise := n)
  {
    var rest := "advertisement interval " + digits;
    CutOwnPrefix("advertisement interval ", digits);
    NotAddr(row, rest);
    assert rest[0] == 'a';
    NoPrefix(rest, "priority-level ", 0);
    NoPrefix(rest, "priority ", 0);
    NoPrefix(rest, "preempt delay minimum ", 0);
  }

  lemma DescriptionRead(row: Row, text: string)
    ensures ApplyVrrpLine(row, "session description " + text) == row.(description := text)
  {
    var rest := "session description " + text;
    CutOwnPrefix("session description ", text);
    assert rest[0] == 's';
    NotAddr(row, rest);
    NotScalar(row, rest);
  }

  lemma TrackedRead(row: Row, tail: string)
    ensures ApplyVrrpLine(row, "tracked-object " + tail) == WithTrack(row, tail)
  {
    var rest := "tracked-object " + tail;
    CutOwnPrefix("tracked-object ", tail);
    assert rest[0] == 't' && rest[1] == 'r';
    NotAddr(row, rest);
    NotScalar(row, rest);
    NoPrefix(rest, "session description ", 0);
    NoPrefix(rest, "description ", 0);
  }

  lemma BfdRead(row: Row, peer: string)
    ensures ApplyVrrpLine(row, "bfd ip " + peer) == row.(bfdPeer := peer)
  {
    var rest := "bfd ip " + peer;
    CutOwnPrefix("bfd ip ", peer);
    assert rest[0] == 'b';
    NotAddr(row, rest);
    NotScalar(row, rest);
    NoPrefix(rest, "session description ", 0);
    NoPrefix(rest, "description ", 0);
    NoPrefix(rest, "tracked-object ", 0);
    NoPrefix(rest, "track ", 0);
  }

  lemma DisabledRead(row: Row)
    ensures ApplyVrrpLine(row, "disabled") == row.(shutdown := Some(true))
  {
    var rest := "disabled";
    NotAddr(row, rest);
    NotScalar(row, rest);
    NoPrefix(rest, "session description ", 0);
    NoPrefix(rest, "description ", 1);
    NoPrefix(rest, "tracked-object ", 0);
    NoPrefix(rest, "track ", 0);
    NoPrefix(rest, "bfd ip ", 0);
    NoPrefix(rest, "bfd peer ", 0);
  }

  // ---- tracked objects ------------------------------------------------------------------------

  function NormTrack(t: Track): Track {
    if t.action == "decrement" then t else t.(decrement := None)
  }

  predicate ReadableTrack(t: Track) {
    ValidTrack(t) && IsToken(t.object_)
  }

  lemma DecrementWords(name: string, word: string, digits: string)
    requires IsToken(name) && IsToken(word) && IsToken(digits) && word == "decrement"
    ensures Fields(name + " decrement " + digits) == [name, word, digits]
  {
    Words3(name, word, digits);
    assert " decrement " == " " + word + " ";
    assert name + " decrement " + digits == name + " " + word + " " + digits;
  }

  lemma ShutdownWords(name: string, word: string)
    requires IsToken(name) && IsToken(word) && word == "shutdown"
    ensures Fields(name + " shutdown") == [name, word]
  {
    Words2(name, word);
    assert name + " shutdown" == name + " " + word;
  }

  /** What a track line says after its keyword, and what is read there. */
  function TrackTail(t: Track): string
    requires ValidTrack(t)
  {
    if t.action == "decrement" then t.object_ + " decrement " + Itoa(t.decrement.value) else t.object_ + " shutdown"
  }

  function ReadTrack(t: Track): seq<Track> {
    if !ValidTrack(t) then []
    else
      match TrackOfWords(Fields(TrackTail(t)))
      case Some(r) => [r]
      case None => []
  }

  const ReadOne := (t: Track) => ReadTrack(t)

  function ReadTracks(tracks: seq<Track>): seq<Track> {
    Collect(tracks, ReadOne)
  }

  lemma TrackScanned(row: Row, t: Track)
    requires ValidTrack(t)
    ensures Scan(row, TrackRest(t), ApplyLine) == row.(tracks := row.tracks + ReadTrack(t))
  {
    var rest := "tracked-object " + TrackTail(t);
    if t.action == "decrement" {
      Associate("tracked-object ", t.object_, " decrement ");
      Associate("tracked-object ", t.object_ + " decrement ", Itoa(t.decrement.value));
    } else {
      Associate("tracked-object ", t.object_, " shutdown");
    }
    assert TrackRest(t) == [rest];
    TrackedRead(row, TrackTail(t));
    ScanOne(row, rest, ApplyLine);
    AppendEmpty(row.tracks);
  }

  lemma TracksTogether(row: Row, a: seq<Track>, b: seq<Track>)
    ensures row.(tracks := row.tracks + a).(tracks := row.tracks + a + b) == row.(tracks := row.tracks + (a + b))
  {
    Associate(row.tracks, a, b);
  }

  predicate ValidTracks(tracks: seq<Track>) {
    forall i :: 0 <= i < |tracks| ==> ValidTrack(tracks[i])
  }

  lemma {:induction false} TracksScanned(row: Row, tracks: seq<Track>)
    requires ValidTracks(tracks)
    ensures Scan(row, Collect(tracks, TrackRests), ApplyLine) == row.(tracks := row.tracks + ReadTracks(tracks))
  {
    if tracks == [] {
      AppendEmpty(row.tracks);
    } else {
      var n := |tracks| - 1;
      assert forall i :: 0 <= i < n ==> tracks[..n][i] == tracks[i];
      TracksScanned(row, tracks[..n]);
      TrackScanned(row.(tracks := row.tracks + ReadTracks(tracks[..n])), tracks[n]);
      ScanAppend(row, Collect(tracks[..n], TrackRests), TrackRest(tracks[n]), ApplyLine);
      TracksTogether(row, ReadTracks(tracks[..n]), ReadTrack(tracks[n]));
    }
  }

  lemma DecrementTrack(name: string, digits: string, d: Int)
    requires Atoi(digits) == Some(d)
    ensures TrackOfWords([name, "decrement", digits]) == Some(Track(name, "decrement", Some(d)))
  {
  }

  lemma ShutdownTrack(name: string)
    ensures TrackOfWords([name, "shutdown"]) == Some(Track(name, "shutdown", None))
  {
  }

  lemma DecrementRead(t: Track)
    requires ReadableTrack(t) && t.action == "decrement"
    ensures ReadTrack(t) == [t]
  {
    var d := t.decrement.value;
    ItoaToken(d);
    AtoiItoa(d);
    DecrementWords(t.object_, "decrement", Itoa(d));
    DecrementTrack(t.object_, Itoa(d), d);
  }

  lemma ShutdownRead(t: Track)
    requires ReadableTrack(t) && t.action == "shutdown"
    ensures ReadTrack(t) == [Track(t.object_, "shutdown", None)]
  {
    ShutdownWords(t.object_, "shutdown");
    ShutdownTrack(t.object_);
  }

  lemma TrackRead(t: Track)
    requires ReadableTrack(t)
    ensures ReadTrack(t) == [NormTrack(t)]
  {
    if t.action == "decrement" {
      DecrementRead(t);
    } else {
      ShutdownRead(t);
    }
  }

  function NormTracks(tracks: seq<Track>): (r: seq<Track>)
    ensures |r| == |tracks|
    ensures forall i :: 0 <= i < |r| ==> r[i] == NormTrack(tracks[i])
  {
    seq(|tracks|, i requires 0 <= i < |tracks| => NormTrack(tracks[i]))
  }

  predicate ReadableTracks(tracks: seq<Track>) {
    forall i :: 0 <= i < |tracks| ==> ReadableTrack(tracks[i])
  }

  predicate NamesWords(t: Track) {
    IsToken(t.object_)
  }

  /** Whatever is read, the tracked objects are single words. */
  lemma ReadTracksNameWords(tracks: seq<Track>)
    ensures All(ReadTracks(tracks), NamesWords)
  {
    forall i | 0 <= i < |tracks| ensures All(ReadOne(tracks[i]), NamesWords) {
      ReadTrackNamesWord(tracks[i]);
    }
    CollectAll(tracks, ReadOne, NamesWords);
  }

  lemma ReadTrackNamesWord(t: Track)
    ensures All(ReadTrack(t), NamesWords)
  {
    if ReadTrack(t) != [] {
      var words := Fields(TrackTail(t));
      assert IsToken(words[0]);
      assert ReadTrack(t)[0].object_ == words[0];
    }
  }

  lemma ReadBackNameWords(tracks: seq<Track>)
    requires ValidTracks(tracks)
    ensures ReadTracks(tracks) == NormTracks(tracks) ==> ReadableTracks(tracks)
  {
    ReadTracksNameWords(tracks);
    if ReadTracks(tracks) == NormTracks(tracks) {
      forall i | 0 <= i < |tracks| ensures ReadableTrack(tracks[i]) {
        assert NamesWords(NormTracks(tracks)[i]);
      }
    }
  }

  /** Tracks read back in normal form if and only if their objects are single words. */
  lemma TracksReadExactly(tracks: seq<Track>)
    requires ValidTracks(tracks)
    ensures ReadTracks(tracks) == NormTracks(tracks) <==> ReadableTracks(tracks)
  {
    ReadBackNameWords(tracks);
    if ReadableTracks(tracks) {
      forall i | 0 <= i < |tracks| ensures ReadOne(tracks[i]) == [NormTracks(tracks)[i]] {
        TrackRead(tracks[i]);
      }
      CollectOneEach(tracks, NormTracks(tracks), ReadOne);
    }
  }

  // ---- the whole group --------------------------------------------------------------------------

  /** What a reader recovers. An explicit `not shut down` is staged as a negation that
      the reader does not see. */
  function RowOf(args: Args): Row {
    Row(
      Deref(args.description),
      OrKeep(args.priority, 0),
      args.preempt == Some(true),
      OrKeep(args.preemptDelay, 0),
      OrKeep(args.advertise, 0),
      args.addresses,
      NormTracks(args.tracks),
      Deref(args.bfdPeer),
      if args.shutdown == Some(true) then args.shutdown else None)
  }

  /** What the reader sees of a valid group, tracked objects of several words included. */
  function RowSeen(args: Args): Row {
    RowOf(args).(tracks := ReadTracks(args.tracks))
  }

  lemma NumberedRead(args: Args, row: Row)
    ensures Scan(row, Numbered("priority-level ", args.priority), ApplyLine)
         == row.(priority := OrKeep(args.priority, row.priority))
    ensures Scan(row, Numbered("preempt delay minimum ", args.preemptDelay), ApplyLine)
         == row.(preemptDelay := OrKeep(args.preemptDelay, row.preemptDelay))
    ensures Scan(row, Numbered("advertisement interval ", args.advertise), ApplyLine)
         == row.(advertise := OrKeep(args.advertise, row.advertise))
  {
    if args.priority.Some? {
      AtoiItoa(args.priority.value);
      PriorityRead(row, Itoa(args.priority.value), args.priority.value);
      ScanOne(row, "priority-level " + Itoa(args.priority.value), ApplyLine);
    }
    if args.preemptDelay.Some? {
      AtoiItoa(args.preemptDelay.value);
      DelayRead(row, Itoa(args.preemptDelay.value), args.preemptDelay.value);
      ScanOne(row, "preempt delay minimum " + Itoa(args.preemptDelay.value), ApplyLine);
    }
    if args.advertise.Some? {
      AtoiItoa(args.advertise.value);
      AdvertiseRead(row, Itoa(args.advertise.value), args.advertise.value);
      ScanOne(row, "advertisement interval " + Itoa(args.advertise.value), ApplyLine);
    }
  }

  lemma WordsRead(args: Args, row: Row)
    ensures Scan(row, PreemptRests(args), ApplyLine) == row.(preempt := row.preempt || args.preempt == Some(true))
    ensures Scan(row, DescriptionRests(args), ApplyLine)
         == row.(description := if Deref(args.description) != "" then args.description.value else row.description)
  {
    if args.preempt == Some(true) {
      PreemptRead(row);
      ScanOne(row, "preempt", ApplyLine);
    }
    if Deref(args.description) != "" {
      DescriptionRead(row, args.description.value);
      ScanOne(row, "session description " + args.description.value, ApplyLine);
    }
  }

  lemma ScalarsRead(args: Args, row: Row)
    requires row == EMPTY.(addresses := row.addresses)
    ensures Scan(row, ScalarRests(args), ApplyLine)
         == row.(priority := OrKeep(args.priority, 0), preempt := args.preempt == Some(true),
                 preemptDelay := OrKeep(args.preemptDelay, 0), advertise := OrKeep(args.advertise, 0),
                 description := Deref(args.description))
  {
    var r1 := row.(priority := OrKeep(args.priority, 0));
    var r2 := r1.(preempt := args.preempt == Some(true));
    var r3 := r2.(preemptDelay := OrKeep(args.preemptDelay, 0));
    var r4 := r3.(advertise := OrKeep(args.advertise, 0));
    NumberedRead(args, row);
    WordsRead(args, r1);
    NumberedRead(args, r2);
    NumberedRead(args, r3);
    WordsRead(args, r4);
    var a, b, c, d, e := Numbered("priority-level ", args.priority), PreemptRests(args),
      Numbered("preempt delay minimum ", args.preemptDelay), Numbered("advertisement interval ", args.advertise),
      DescriptionRests(args);
    ScanFive(row, a, b, c, d, e);
  }

  lemma ScanFive(row: Row, a: seq<string>, b: seq<string>, c: seq<string>, d: seq<string>, e: seq<string>)
    ensures Scan(row, a + b + c + d + e, ApplyLine)
         == Scan(Scan(Scan(Scan(Scan(row, a, ApplyLine), b, ApplyLine), c, ApplyLine), d, ApplyLine), e, ApplyLine)
  {
    ScanThree(row, a + b + c, d, e, ApplyLine);
    ScanThree(row, a, b, c, ApplyLine);
  }

  lemma StateRead(args: Args, row: Row)
    requires row.bfdPeer == "" && row.shutdown == None
    ensures Scan(row, BfdRests(args), ApplyLine) == row.(bfdPeer := Deref(args.bfdPeer))
    ensures Scan(row, DisabledRests(args), ApplyLine)
         == row.(shutdown := if args.shutdown == Some(true) then args.shutdown else None)
  {
    if Deref(args.bfdPeer) != "" {
      BfdRead(row, args.bfdPeer.value);
      ScanOne(row, "bfd ip " + args.bfdPeer.value, ApplyLine);
    }
    DisabledSaid(args, row);
  }

  lemma DisabledSaid(args: Args, row: Row)
    requires row.shutdown == None
    ensures Scan(row, DisabledRests(args), ApplyLine)
         == row.(shutdown := if args.shutdown == Some(true) then args.shutdown else None)
  {
    if args.shutdown == Some(true) {
      DisabledRead(row);
      ScanOne(row, "disabled", ApplyLine);
    }
  }

  lemma GroupScanned(args: Args, isIPv6: string -> bool)
    requires ValidArgs(args, isIPv6)
    ensures Scan(EMPTY, Says(args, isIPv6), ApplyLine) == RowSeen(args)
  {
    var r1 := EMPTY.(addresses := args.addresses);
    var r2 := r1.(priority := OrKeep(args.priority, 0), preempt := args.preempt == Some(true),
                  preemptDelay := OrKeep(args.preemptDelay, 0), advertise := OrKeep(args.advertise, 0),
                  description := Deref(args.description));
    var r3 := r2.(tracks := ReadTracks(args.tracks));
    var r4 := r3.(bfdPeer := Deref(args.bfdPeer));
    AddressesRead(EMPTY, args.addresses, isIPv6);
    AppendEmpty(args.addresses);
    ScalarsRead(args, r1);
    TracksScanned(r2, args.tracks);
    AppendEmpty(ReadTracks(args.tracks));
    StateRead(args, r3);
    DisabledSaid(args, r4);
    ScanFive(EMPTY, AddressRests(args.addresses, isIPv6), ScalarRests(args), Collect(args.tracks, TrackRests),
             BfdRests(args), DisabledRests(args));
  }

  lemma SeenExactly(args: Args)
    requires ValidTracks(args.tracks)
    ensures RowSeen(args) == RowOf(args) <==> ReadableTracks(args.tracks)
  {
    TracksReadExactly(args.tracks);
  }

  /** The group's lines read back as all its fields if and only if the tracked objects are
      single words. */
  lemma GroupRead(args: Args, isIPv6: string -> bool)
    requires ValidArgs(args, isIPv6)
    ensures Scan(EMPTY, Says(args, isIPv6), ApplyLine) == RowOf(args) <==> ReadableTracks(args.tracks)
  {
    GroupScanned(args, isIPv6);
    SeenExactly(args);
  }

  // ---- one group among others ----------------------------------------------------------------

  /** `vrrp 1 ` never begins a line of group 10. */
  lemma LinesSeenBy(m: Int, n: Int, rests: seq<string>)
    ensures Rests(Lines(m, rests), n) == if m == n then rests else []
  {
    forall i | 0 <= i < |rests| ensures Rest(n)(Lines(m, rests)[i]) == if m == n then [rests[i]] else [] {
      HeadSeenBy(m, n, rests[i]);
    }
    if m == n {
      CollectOneEach(Lines(m, rests), rests, Rest(n));
    } else {
      CollectNothing(Lines(m, rests), Rest(n));
    }
  }

  lemma HeadSeenBy(m: Int, n: Int, rest: string)
    ensures CutPrefix(Head(m) + rest, Head(n)) == if m == n then Some(rest) else None
  {
    ItoaToken(m);
    ItoaToken(n);
    CutNamed("vrrp ", Itoa(m), Itoa(n), rest);
    if Itoa(m) == Itoa(n) {
      ItoaInjective(m, n);
    }
  }

  lemma EnableNotSeen(args: Args, n: Int)
    ensures Rests(EnableLines(args), n) == []
  {
    if EnableLines(args) != [] {
      var line := EnableLines(args)[0];
      NoPrefix(line, Head(n), 0);
      CollectOne(line, Rest(n));
    }
  }

  lemma GroupSeenBy(args: Args, isIPv6: string -> bool, n: Int)
    ensures Rests(GroupLines(args, isIPv6), n) == if args.vrid == n then Says(args, isIPv6) else []
  {
    LinesSeenBy(args.vrid, n, Says(args, isIPv6));
    EnableNotSeen(args, n);
    CollectAppend(Lines(args.vrid, Says(args, isIPv6)), EnableLines(args), Rest(n));
    AppendEmpty(Says(args, isIPv6));
  }

  function Groups(groups: seq<Args>, isIPv6: string -> bool): seq<string> {
    if groups == [] then []
    else Groups(groups[..|groups| - 1], isIPv6) + GroupLines(groups[|groups| - 1], isIPv6)
  }

  predicate NoGroup(groups: seq<Args>, n: Int) {
    forall i :: 0 <= i < |groups| ==> groups[i].vrid != n
  }

  lemma LastGroup(groups: seq<Args>, isIPv6: string -> bool, n: Int)
    requires groups != []
    ensures var last, others := groups[|groups| - 1], Rests(Groups(groups[..|groups| - 1], isIPv6), n);
            && (last.vrid != n ==> Rests(Groups(groups, isIPv6), n) == others)
            && (last.vrid == n && others == [] ==> Rests(Groups(groups, isIPv6), n) == Says(last, isIPv6))
  {
    var k := |groups| - 1;
    GroupSeenBy(groups[k], isIPv6, n);
    CollectAppend(Groups(groups[..k], isIPv6), GroupLines(groups[k], isIPv6), Rest(n));
    AppendEmpty(Rests(Groups(groups[..k], isIPv6), n));
    AppendEmpty(Says(groups[k], isIPv6));
  }

  lemma {:induction false} OthersNotSeen(groups: seq<Args>, isIPv6: string -> bool, n: Int)
    requires NoGroup(groups, n)
    ensures Rests(Groups(groups, isIPv6), n) == []
  {
    if groups != [] {
      var k := |groups| - 1;
      assert forall i :: 0 <= i < k ==> groups[..k][i] == groups[i];
      OthersNotSeen(groups[..k], isIPv6, n);
      LastGroup(groups, isIPv6, n);
    }
  }

  predicate VridsApart(groups: seq<Args>) {
    forall i, j :: 0 <= i < j < |groups| ==> groups[i].vrid != groups[j].vrid
  }

  lemma FrontApart(groups: seq<Args>)
    requires VridsApart(groups) && groups != []
    ensures VridsApart(groups[..|groups| - 1]) && NoGroup(groups[..|groups| - 1], groups[|groups| - 1].vrid)
  {
  }

  lemma LastSeen(groups: seq<Args>, isIPv6: string -> bool)
    requires VridsApart(groups) && groups != []
    ensures var last := groups[|groups| - 1]; Rests(Groups(groups, isIPv6), last.vrid) == Says(last, isIPv6)
  {
    var k := |groups| - 1;
    FrontApart(groups);
    OthersNotSeen(groups[..k], isIPv6, groups[k].vrid);
    LastGroup(groups, isIPv6, groups[k].vrid);
  }

  lemma LastOther(groups: seq<Args>, i: nat)
    requires VridsApart(groups) && i < |groups| - 1
    ensures VridsApart(groups[..|groups| - 1]) && groups[..|groups| - 1][i] == groups[i]
    ensures groups[|groups| - 1].vrid != groups[i].vrid
  {
  }

  lemma {:induction false} OwnSeen(groups: seq<Args>, isIPv6: string -> bool, i: nat)
    requires VridsApart(groups) && i < |groups|
    ensures Rests(Groups(groups, isIPv6), groups[i].vrid) == Says(groups[i], isIPv6)
  {
    if i == |groups| - 1 {
      LastSeen(groups, isIPv6);
    } else {
      LastOther(groups, i);
      OwnSeen(groups[..|groups| - 1], isIPv6, i);
      LastGroup(groups, isIPv6, groups[i].vrid);
    }
  }

  /** The lines of a text that speak of VRRP; the rest is other configuration of the
      interface. */
  const VrrpOnly := (line: string) => if HasPrefix(line, "vrrp ") then [line] else []

  lemma {:induction false} OnlyVrrpMatters(lines: seq<string>, n: Int)
    ensures Rests(Collect(lines, VrrpOnly), n) == Rests(lines, n)
  {
    if lines != [] {
      var k := |lines| - 1;
      var front, last := lines[..k], lines[k];
      OnlyVrrpMatters(front, n);
      if HasPrefix(last, "vrrp ") {
        CollectSnoc(Collect(front, VrrpOnly), last, Rest(n));
      } else {
        HeadStart(n, last);
        AppendEmpty(Collect(front, VrrpOnly));
        AppendEmpty(Rests(front, n));
      }
    }
  }

  lemma HeadStart(n: Int, line: string)
    ensures CutPrefix(line, Head(n)).Some? ==> HasPrefix(line, "vrrp ")
  {
    if HasPrefix(line, Head(n)) {
      assert Head(n) == "vrrp " + (Itoa(n) + " ");
      CutOwnPrefix("vrrp ", Itoa(n) + " ");
      assert line[..5] == line[..|Head(n)|][..5];
    }
  }

  /** Under one interface, in a text whose VRRP lines are those of several groups with
      distinct ids, whatever other lines stand between them, each group is seen by its own
      lines alone. */
  lemma ReadsOwn(groups: seq<Args>, k: nat, isIPv6: string -> bool, text: string)
    requires k < |groups| && VridsApart(groups) && ValidArgs(groups[k], isIPv6)
    requires Contains(text, "interface " + groups[k].iface)
    requires Collect(TrimmedLines(text), VrrpOnly) == Collect(Groups(groups, isIPv6), VrrpOnly)
    ensures Reading(text, groups[k].iface, groups[k].vrid)
         == if Says(groups[k], isIPv6) == [] then None else Some(RowSeen(groups[k]))
  {
    OnlyVrrpMatters(TrimmedLines(text), groups[k].vrid);
    OnlyVrrpMatters(Groups(groups, isIPv6), groups[k].vrid);
    OwnSeen(groups, isIPv6, k);
    GroupScanned(groups[k], isIPv6);
  }

  /** The round trip, with isolation: there each group reads back as declared, the addresses
      in the declared order without their `secondary`, and every other field, if and only if
      its tracked objects are single words. */
  lemma ReadsBack(groups: seq<Args>, k: nat, isIPv6: string -> bool, text: string)
    requires k < |groups| && VridsApart(groups) && ValidArgs(groups[k], isIPv6)
    requires Contains(text, "interface " + groups[k].iface)
    requires Collect(TrimmedLines(text), VrrpOnly) == Collect(Groups(groups, isIPv6), VrrpOnly)
    ensures Reading(text, groups[k].iface, groups[k].vrid)
         == (if Says(groups[k], isIPv6) == [] then None else Some(RowOf(groups[k])))
       <==> ReadableTracks(groups[k].tracks)
  {
    ReadsOwn(groups, k, isIPv6, text);
    SeenExactly(groups[k]);
    SaysTracks(groups[k], isIPv6);
  }

  lemma SaysTracks(args: Args, isIPv6: string -> bool)
    requires ValidArgs(args, isIPv6)
    ensures args.tracks != [] ==> Says(args, isIPv6) != []
  {
    if args.tracks != [] {
      var n := |args.tracks| - 1;
      assert ValidTrack(args.tracks[n]) && |TrackRest(args.tracks[n])| == 1;
      assert Collect(args.tracks, TrackRests) == Collect(args.tracks[..n], TrackRests) + TrackRest(args.tracks[n]);
    }
  }

  /** A group that says nothing, or that is not there, is not found. */
  lemma AbsentNotFound(groups: seq<Args>, isIPv6: string -> bool, text: string, iface: string, n: Int)
    requires NoGroup(groups, n)
    requires Collect(TrimmedLines(text), VrrpOnly) == Collect(Groups(groups, isIPv6), VrrpOnly)
    ensures Reading(text, iface, n) == None
  {
    OnlyVrrpMatters(TrimmedLines(text), n);
    OnlyVrrpMatters(Groups(groups, isIPv6), n);
    OthersNotSeen(groups, isIPv6, n);
  }

  // ---- what can be read at all ---------------------------------------------------------------

  /** Descriptions are read from trimmed lines, and tracked objects as words. */
  predicate PlainRow(row: Row) {
    EndsLine(row.description) && All(row.tracks, NamesWords)
  }

  lemma TrackStaysPlain(row: Row, rest: string)
    requires PlainRow(row)
    ensures PlainRow(WithTrack(row, rest))
  {
    var words := Fields(rest);
    if TrackOfWords(words).Some? {
      assert TrackOfWords(words).value.object_ == words[0];
      var t := TrackOfWords(words).value;
      assert NamesWords(t);
      forall i | 0 <= i < |row.tracks + [t]| ensures NamesWords((row.tracks + [t])[i]) {
        if i < |row.tracks| {
          assert NamesWords(row.tracks[i]);
        }
      }
    }
  }

  lemma ExtrasStayPlain(row: Row, rest: string)
    requires PlainRow(row) && EndsLine(rest)
    ensures PlainRow(ExtrasLine(row, rest))
  {
    if HasPrefix(rest, "session description ") {
      CutEndsLine(rest, "session description ");
    } else if HasPrefix(rest, "description ") {
      CutEndsLine(rest, "description ");
    }
    TrackStaysPlain(row, TrimPrefix(rest, "tracked-object "));
    TrackStaysPlain(row, TrimPrefix(rest, "track "));
  }

  lemma LineStaysPlain(row: Row, rest: string)
    requires PlainRow(row) && EndsLine(rest)
    ensures PlainRow(ApplyVrrpLine(row, rest))
  {
    ExtrasStayPlain(row, rest);
  }

  const Ends := (s: string) => EndsLine(s)

  lemma {:induction false} ScanStaysPlain(rests: seq<string>)
    requires All(rests, Ends)
    ensures PlainRow(Scan(EMPTY, rests, ApplyLine))
  {
    if rests != [] {
      var n := |rests| - 1;
      assert forall i :: 0 <= i < n ==> Ends(rests[i]) && rests[..n][i] == rests[i];
      ScanStaysPlain(rests[..n]);
      assert Ends(rests[n]);
      LineStaysPlain(Scan(EMPTY, rests[..n], ApplyLine), rests[n]);
    }
  }

  lemma RestsEnd(lines: seq<string>, n: Int)
    requires AllLines(lines)
    ensures All(Rests(lines, n), Ends)
  {
    forall i | 0 <= i < |lines| ensures All(Rest(n)(lines[i]), Ends) {
      if CutPrefix(lines[i], Head(n)).Some? {
        TailEndsLine(lines[i], Head(n), CutPrefix(lines[i], Head(n)).value);
      }
    }
    CollectAll(lines, Rest(n), Ends);
  }

  lemma ReadIsPlain(text: string, iface: string, n: Int)
    ensures Reading(text, iface, n).Some? ==> PlainRow(Reading(text, iface, n).value)
  {
    RestsEnd(TrimmedLines(text), n);
    ScanStaysPlain(Rests(TrimmedLines(text), n));
  }

  lemma PlainRowTells(args: Args)
    requires ValidTracks(args.tracks) && PlainRow(RowOf(args))
    ensures EndsLine(Deref(args.description)) && ReadableTracks(args.tracks)
  {
    forall i | 0 <= i < |args.tracks| ensures ReadableTrack(args.tracks[i]) {
      assert NamesWords(NormTracks(args.tracks)[i]);
    }
  }

  lemma SaysAll(args: Args, isIPv6: string -> bool)
    requires ValidArgs(args, isIPv6)
    ensures Says(args, isIPv6) == [] ==> args.tracks == [] && Deref(args.description) == ""
  {
    SaysTracks(args, isIPv6);
    if Deref(args.description) != "" {
      assert DescriptionRests(args) != [];
      assert ScalarRests(args) != [];
    }
  }

  // ---- drift ---------------------------------------------------------------------------------

  function FillState(row: Row, state: Args): Args {
    state.(
      description := if row.description != "" then Some(row.description) else state.description,
      priority := if row.priority > 0 then Some(row.priority) else state.priority,
      preempt := if row.preempt then Some(true) else state.preempt,
      preemptDelay := if row.preemptDelay > 0 then Some(row.preemptDelay) else state.preemptDelay,
      advertise := if row.advertise > 0 then Some(row.advertise) else state.advertise,
      addresses := if row.addresses != [] then row.addresses else state.addresses,
      tracks := if row.tracks != [] then row.tracks else state.tracks,
      bfdPeer := if row.bfdPeer != "" then Some(row.bfdPeer) else state.bfdPeer,
      shutdown := if row.shutdown.Some? then row.shutdown else state.shutdown)
  }

  lemma FillSeen(args: Args, isIPv6: string -> bool)
    requires ValidArgs(args, isIPv6)
    ensures FillState(RowSeen(args), args) ==
            (if ReadTracks(args.tracks) != [] then args.(tracks := ReadTracks(args.tracks)) else args)
  {
  }

  /** A refresh leaves an applied group as it was declared, but for its tracks: those that
      were read take the place of the declared ones, if any was read. */
  lemma NoDrift(groups: seq<Args>, k: nat, isIPv6: string -> bool, text: string)
    requires k < |groups| && VridsApart(groups) && ValidArgs(groups[k], isIPv6) && Says(groups[k], isIPv6) != []
    requires Contains(text, "interface " + groups[k].iface)
    requires Collect(TrimmedLines(text), VrrpOnly) == Collect(Groups(groups, isIPv6), VrrpOnly)
    ensures var args := groups[k];
            var row, seen := Reading(text, args.iface, args.vrid), ReadTracks(args.tracks);
            && row.Some? && FillState(row.value, args) == (if seen != [] then args.(tracks := seen) else args)
            && (seen == NormTracks(args.tracks) <==> ReadableTracks(args.tracks))
  {
    ReadsOwn(groups, k, isIPv6, text);
    FillSeen(groups[k], isIPv6);
    TracksReadExactly(groups[k].tracks);
  }

  lemma RowShutdown(args: Args, stored: Args)
    ensures RowSeen(args).shutdown == args.shutdown <==> args.shutdown != Some(false)
    ensures FillState(RowSeen(args), stored).shutdown
         == if args.shutdown == Some(true) then Some(true) else stored.shutdown
  {
    if args.shutdown.Some? && !args.shutdown.value {
      assert args.shutdown == Some(false);
    }
  }

  /** The reader recovers `shutdown` unless it was declared false: that is staged as a
      negation, which no reader of the group's lines sees. */
  lemma ShutdownReadExactly(groups: seq<Args>, k: nat, isIPv6: string -> bool, text: string)
    requires k < |groups| && VridsApart(groups) && ValidArgs(groups[k], isIPv6) && Says(groups[k], isIPv6) != []
    requires Contains(text, "interface " + groups[k].iface)
    requires Collect(TrimmedLines(text), VrrpOnly) == Collect(Groups(groups, isIPv6), VrrpOnly)
    ensures var row := Reading(text, groups[k].iface, groups[k].vrid);
            row.Some? && (row.value.shutdown == groups[k].shutdown <==> groups[k].shutdown != Some(false))
  {
    ReadsOwn(groups, k, isIPv6, text);
    RowShutdown(groups[k], groups[k]);
  }

  /** So a refresh shows the live `shutdown` of a group exactly when it is true, or is
      what was stored already: a group that was enabled on the device behind the
      provider's back is still shown as shut down. */
  lemma ShutdownDriftExactly(groups: seq<Args>, k: nat, isIPv6: string -> bool, text: string, stored: Args)
    requires k < |groups| && VridsApart(groups) && ValidArgs(groups[k], isIPv6) && Says(groups[k], isIPv6) != []
    requires Contains(text, "interface " + groups[k].iface)
    requires Collect(TrimmedLines(text), VrrpOnly) == Collect(Groups(groups, isIPv6), VrrpOnly)
    ensures var live, row := groups[k].shutdown, Reading(text, groups[k].iface, groups[k].vrid);
            && row.Some?
            && var shown := FillState(row.value, stored).shutdown;
               && (shown == live <==> live == Some(true) || stored.shutdown == live)
               && (shown != stored.shutdown <==> live == Some(true) && stored.shutdown != Some(true))
  {
    ReadsOwn(groups, k, isIPv6, text);
    RowShutdown(groups[k], stored);
  }
  /** What a refresh makes of stored arguments: a field that the live group declares stands
      as declared, any other as it was stored. A preempt delay of 0 and a group that is not
      shut down look like nothing declared. */
  predicate Refreshed(live: Args, stored: Args, s: Args) {
    && s.iface == stored.iface && s.vrid == stored.vrid
    && RefreshedNumbers(live, stored, s) && RefreshedTexts(live, stored, s)
    && s.preempt == (if live.preempt == Some(true) then live.preempt else stored.preempt)
    && s.shutdown == (if live.shutdown == Some(true) then live.shutdown else stored.shutdown)
  }

  predicate RefreshedNumbers(live: Args, stored: Args, s: Args) {
    && s.priority == (if live.priority.Some? then live.priority else stored.priority)
    && s.preemptDelay
       == (if live.preemptDelay.Some? && live.preemptDelay.value > 0 then live.preemptDelay else stored.preemptDelay)
    && s.advertise == (if live.advertise.Some? then live.advertise else stored.advertise)
  }

  predicate RefreshedTexts(live: Args, stored: Args, s: Args) {
    && s.description == (if Given(live.description) then live.description else stored.description)
    && s.addresses == (if live.addresses != [] then live.addresses else stored.addresses)
    && s.bfdPeer == (if Given(live.bfdPeer) then live.bfdPeer else stored.bfdPeer)
  }

  lemma NumbersRefresh(live: Args, stored: Args, isIPv6: string -> bool)
    requires ValidArgs(live, isIPv6)
    ensures RefreshedNumbers(live, stored, FillState(RowSeen(live), stored))
  {
  }

  lemma TextsRefresh(live: Args, stored: Args)
    ensures RefreshedTexts(live, stored, FillState(RowSeen(live), stored))
  {
  }

  lemma FillRefreshes(live: Args, stored: Args, isIPv6: string -> bool)
    requires ValidArgs(live, isIPv6)
    ensures Refreshed(live, stored, FillState(RowSeen(live), stored))
  {
    NumbersRefresh(live, stored, isIPv6);
    TextsRefresh(live, stored);
    RowShutdown(live, stored);
  }

  lemma FillTracks(live: Args, stored: Args)
    requires ReadableTracks(live.tracks) && ValidTracks(live.tracks)
    ensures FillState(RowSeen(live), stored).tracks
         == if live.tracks != [] then NormTracks(live.tracks) else stored.tracks
  {
    TracksReadExactly(live.tracks);
  }

  /** Drift is seen: whatever is stored for the group, after a refresh every field that the
      live group declares stands as the device has it, and the others as stored. */
  lemma DriftIsSeen(groups: seq<Args>, k: nat, isIPv6: string -> bool, text: string, stored: Args)
    requires k < |groups| && VridsApart(groups) && ValidArgs(groups[k], isIPv6) && Says(groups[k], isIPv6) != []
    requires stored.iface == groups[k].iface && stored.vrid == groups[k].vrid
    requires Contains(text, "interface " + groups[k].iface)
    requires Collect(TrimmedLines(text), VrrpOnly) == Collect(Groups(groups, isIPv6), VrrpOnly)
    ensures var live, row := groups[k], Reading(text, stored.iface, stored.vrid);
            && row.Some?
            && var s := FillState(row.value, stored);
               && Refreshed(live, stored, s)
               && (ReadableTracks(live.tracks) ==>
                     s.tracks == if live.tracks != [] then NormTracks(live.tracks) else stored.tracks)
  {
    ReadsOwn(groups, k, isIPv6, text);
    FillRefreshes(groups[k], stored, isIPv6);
    if ReadableTracks(groups[k].tracks) {
      FillTracks(groups[k], stored);
    }
  }
}
