/** IPv4 addresses and prefixes as `net/netip` reads them. */
module Netip {
  import opened Seqs
  import opened Text

  /** Decimal without a sign or a leading zero. */
  predicate IsPlainNumber(s: string) {
    s != "" && AllDigits(s) && (|s| > 1 ==> s[0] != '0')
  }

  predicate IsOctet(s: string) {
    IsPlainNumber(s) && DecValue(s) <= 255
  }

  /** `netip.ParseAddr` succeeds with an IPv4 address. */
  predicate IsIPv4(s: string) {
    var parts := Split(s, '.');
    |parts| == 4 && forall i :: 0 <= i < |parts| ==> IsOctet(parts[i])
  }

  /** `netip.ParsePrefix` of an IPv4 prefix: its length, or nothing. */
  function PrefixBits(s: string): Option<int> {
    var i := IndexOf(s, '/');
    if i == |s| then None
    else
      var bits := s[i + 1..];
      if IsIPv4(s[..i]) && IsPlainNumber(bits) && DecValue(bits) <= 32 then Some(DecValue(bits)) else None
  }

  predicate IsIPv4Char(c: char) {
    IsDigit(c) || c == '.'
  }

  lemma {:induction false} JoinedOctets(parts: seq<string>)
    requires parts != []
    requires forall i :: 0 <= i < |parts| ==> IsOctet(parts[i])
    ensures Join(parts, ".") != ""
    ensures forall i :: 0 <= i < |Join(parts, ".")| ==> IsIPv4Char(Join(parts, ".")[i])
  {
    if |parts| > 1 {
      JoinedOctets(parts[1..]);
      assert IsOctet(parts[0]);
    } else {
      assert IsOctet(parts[0]);
    }
  }

  lemma IPv4Chars(s: string)
    requires IsIPv4(s)
    ensures s != ""
    ensures forall i :: 0 <= i < |s| ==> IsIPv4Char(s[i])
  {
    JoinedOctets(Split(s, '.'));
    JoinSplit(s, '.');
  }

  lemma IPv4Token(s: string)
    requires IsIPv4(s)
    ensures IsToken(s) && '/' !in s && IsIPv4Char(s[0])
  {
    IPv4Chars(s);
    assert forall i :: 0 <= i < |s| ==> s[i] != '/';
  }

  lemma SlashedToken(address: string, bits: string)
    requires address != "" && forall i :: 0 <= i < |address| ==> IsIPv4Char(address[i])
    requires AllDigits(bits)
    ensures var s := address + ['/'] + bits;
            IsToken(s) && IsIPv4Char(s[0]) && IndexOf(s, '/') == |address| && '/' !in bits
  {
    AroundParts(address, '/', bits);
    IndexOfUnique(address + ['/'] + bits, '/', |address|);
  }

  /** An accepted prefix is one word with exactly one slash. */
  lemma PrefixToken(s: string)
    requires PrefixBits(s).Some?
    ensures IsToken(s) && IsIPv4Char(s[0])
    ensures var i := IndexOf(s, '/'); i < |s| && '/' !in s[i + 1..]
  {
    var i := IndexOf(s, '/');
    IPv4Chars(s[..i]);
    SlashedToken(s[..i], s[i + 1..]);
    Around(s, i);
  }

  lemma FourOctets(a: string, b: string, c: string, d: string)
    requires IsOctet(a) && IsOctet(b) && IsOctet(c) && IsOctet(d)
    ensures IsIPv4(Join([a, b, c, d], "."))
  {
    SplitJoin([a, b, c, d], '.');
  }

  lemma WithLength(address: string, bits: string)
    requires IsIPv4(address) && IsPlainNumber(bits) && DecValue(bits) <= 32
    ensures PrefixBits(address + ['/'] + bits) == Some(DecValue(bits))
  {
    IPv4Chars(address);
    SlashedToken(address, bits);
    AroundParts(address, '/', bits);
  }

  lemma SomeAddress() returns (address: string)
    ensures IsIPv4(address)
  {
    assert "0"[..0] == "" && DecValue("0") == 0;
    FourOctets("0", "0", "0", "0");
    address := Join(["0", "0", "0", "0"], ".");
  }

  lemma SomePrefix() returns (prefix: string)
    ensures PrefixBits(prefix) == Some(0)
  {
    assert "0"[..0] == "" && DecValue("0") == 0;
    var address := SomeAddress();
    WithLength(address, "0");
    prefix := address + ['/'] + "0";
  }
}
