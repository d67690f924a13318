/** The filter in front of the UDP endpoints (ESP32EndpointQueueFilter.h). */
module PacketFilter {
  import opened Ascii

  // An address of 16 bytes; an IPv4 address is mapped into the last four.
  type Address = a: seq<Byte> | |a| == 16 witness seq(16, _ => 0)

  const MDNS_PORT := 5353
  const MDNS_IPV4: Address := [0, 0, 0, 0, 0, 0, 0, 0, 0, 0, 0xff, 0xff, 224, 0, 0, 251]
  const MDNS_IPV6: Address := [0xff, 2, 0, 0, 0, 0, 0, 0, 0, 0, 0, 0, 0, 0, 0, 0xfb]

  const MATTER: seq<Byte> := ['m' as int, 'a' as int, 't' as int, 't' as int, 'e' as int, 'r' as int]
  const HOST_NAME_SIZE := 12

  // A chain of buffers, the first of which is `start`.
  datatype Payload = Payload(start: seq<Byte>, chained: seq<seq<Byte>>)

  datatype Outcome = AllowPacket | DropPacket

  function Length(buffers: seq<seq<Byte>>): nat {
    if buffers == [] then 0 else |buffers[0]| + Length(buffers[1..])
  }

  function TotalLength(p: Payload): nat { |p.start| + Length(p.chained) }

  predicate IsMdns(address: Address, port: nat, ipv4: bool) {
    port == MDNS_PORT && (address == MDNS_IPV6 || (ipv4 && address == MDNS_IPV4))
  }

  predicate MatchesAt(bytes: seq<Byte>, name: seq<Byte>, i: nat)
    requires i + |name| <= |bytes|
  {
    Folded(bytes[i..i + |name|]) == Folded(name)
  }

  predicate Contains(bytes: seq<Byte>, name: seq<Byte>) {
    exists i :: 0 <= i <= |bytes| - |name| && MatchesAt(bytes, name, i)
  }

  predicate HexDigit(b: Byte) { '0' as int <= b <= '9' as int || 'A' as int <= b <= 'F' as int }

  predicate Drops(address: Address, port: nat, p: Payload, hostName: seq<Byte>, ipv4: bool) {
    && IsMdns(address, port, ipv4)
    && (p.chained != [] || (!Contains(p.start, MATTER) && !Contains(p.start, hostName)))
  }

  // -------------------------------------------------------------------------
  // What the decision depends on
  // -------------------------------------------------------------------------

  // A 32-bit word of an address, in network order.
  function Word(a: Address, i: nat): nat
    requires i < 4
  {
    ((a[4 * i] as int * 256 + a[4 * i + 1]) * 256 + a[4 * i + 2]) * 256 + a[4 * i + 3]
  }

  lemma WordIs(a: Address, i: nat, b0: Byte, b1: Byte, b2: Byte, b3: Byte)
    requires i < 4
    ensures Word(a, i) == ((b0 as int * 256 + b1) * 256 + b2) * 256 + b3 <==>
            a[4 * i] == b0 && a[4 * i + 1] == b1 && a[4 * i + 2] == b2 && a[4 * i + 3] == b3
  {
  }

  predicate Mapped(a: Address) { Word(a, 0) == 0 && Word(a, 1) == 0 && Word(a, 2) == 0xffff }

  lemma MdnsIPv6Words(a: Address)
    ensures a == MDNS_IPV6 <==> Word(a, 0) == 0xff020000 && Word(a, 1) == 0 && Word(a, 2) == 0 && Word(a, 3) == 0xfb
  {
    WordIs(a, 0, 0xff, 2, 0, 0);
    WordIs(a, 1, 0, 0, 0, 0);
    WordIs(a, 2, 0, 0, 0, 0);
    WordIs(a, 3, 0, 0, 0, 0xfb);
  }

  lemma MdnsIPv4Words(a: Address)
    ensures a == MDNS_IPV4 <==> Mapped(a) && Word(a, 3) == 0xe00000fb
  {
    WordIs(a, 0, 0, 0, 0, 0);
    WordIs(a, 1, 0, 0, 0, 0);
    WordIs(a, 2, 0, 0, 0xff, 0xff);
    WordIs(a, 3, 224, 0, 0, 251);
  }

  // An IPv4 packet is one of the group iff IPv4 is configured and it goes to port 5353 of 224.0.0.251, an IPv6 one
  // iff it goes to that port of ff02::fb.
  lemma MdnsMeans(a: Address, port: nat, ipv4: bool)
    ensures Mapped(a) ==>
              (IsMdns(a, port, ipv4) <==>
                 ipv4 && port == 5353 && a[12] == 224 && a[13] == 0 && a[14] == 0 && a[15] == 251)
    ensures !Mapped(a) ==>
              (IsMdns(a, port, ipv4) <==>
                 port == 5353 && Word(a, 0) == 0xff020000 && Word(a, 1) == 0 && Word(a, 2) == 0 && Word(a, 3) == 0xfb)
  {
    MdnsIPv4Words(a);
    MdnsIPv6Words(a);
    WordIs(a, 3, 224, 0, 0, 251);
  }

  lemma FoldedSlice(a: seq<Byte>, i: nat, j: nat)
    requires i <= j <= |a|
    ensures Folded(a[i..j]) == Folded(a)[i..j]
  {
  }

  // A payload contains a name iff some part of it is the name but for the case of letters.
  lemma ContainsMeans(bytes: seq<Byte>, name: seq<Byte>)
    ensures Contains(bytes, name) <==>
            exists before, part, after :: bytes == before + part + after && Folded(part) == Folded(name)
  {
    if Contains(bytes, name) {
      var i :| 0 <= i <= |bytes| - |name| && MatchesAt(bytes, name, i);
      assert bytes == bytes[..i] + bytes[i..i + |name|] + bytes[i + |name|..];
    }
    forall before, part, after | bytes == before + part + after && Folded(part) == Folded(name)
      ensures Contains(bytes, name)
    {
      assert |part| == |Folded(part)| == |name|;
      assert bytes[|before|..|before| + |name|] == part;
      assert MatchesAt(bytes, name, |before|);
    }
  }

  lemma ContainsIgnoresCase(a: seq<Byte>, b: seq<Byte>, name: seq<Byte>)
    requires Folded(a) == Folded(b) && Contains(a, name)
    ensures Contains(b, name)
  {
    var i :| 0 <= i <= |a| - |name| && MatchesAt(a, name, i);
    assert |b| == |Folded(a)|;
    FoldedSlice(a, i, i + |name|);
    FoldedSlice(b, i, i + |name|);
    assert MatchesAt(b, name, i);
  }

  // The case of letters, in the payload or in the host name, never changes the decision.
  lemma CaseNeverMatters(address: Address, port: nat, p: Payload, q: Payload, hostName: seq<Byte>, other: seq<Byte>,
                         ipv4: bool)
    requires Folded(p.start) == Folded(q.start) && (p.chained == [] <==> q.chained == [])
    requires Folded(hostName) == Folded(other)
    ensures Drops(address, port, p, hostName, ipv4) <==> Drops(address, port, q, other, ipv4)
  {
    forall a, b | Folded(a) == Folded(b) ensures Contains(a, MATTER) ==> Contains(b, MATTER) {
      if Contains(a, MATTER) {
        ContainsIgnoresCase(a, b, MATTER);
      }
    }
    ContainsEither(p.start, q.start, hostName, other);
    ContainsEither(q.start, p.start, other, hostName);
  }

  lemma ContainsEither(a: seq<Byte>, b: seq<Byte>, name: seq<Byte>, other: seq<Byte>)
    requires Folded(a) == Folded(b) && Folded(name) == Folded(other)
    ensures Contains(a, name) ==> Contains(b, other)
  {
    if Contains(a, name) {
      ContainsIgnoresCase(a, b, name);
      var i :| 0 <= i <= |b| - |name| && MatchesAt(b, name, i);
      assert |other| == |Folded(other)| == |name|;
      assert MatchesAt(b, other, i);
    }
  }

  // A packet not sent to the mDNS group is never dropped, and one that mentions Matter in one buffer is not.
  lemma NeverDropped(address: Address, port: nat, p: Payload, hostName: seq<Byte>, ipv4: bool,
                     before: seq<Byte>, part: seq<Byte>, after: seq<Byte>)
    requires p == Payload(before + part + after, []) && Folded(part) in {MATTER, Folded(hostName)}
    ensures !Drops(address, port, p, hostName, ipv4)
  {
    assert Folded(MATTER) == MATTER;
    ContainsMeans(p.start, MATTER);
    ContainsMeans(p.start, hostName);
  }

  // -------------------------------------------------------------------------
  // The filter
  // -------------------------------------------------------------------------

  method BytesCaseInsensitiveCompare(buf1: seq<Byte>, at: nat, buf2: seq<Byte>) returns (same: bool)
    requires at + |buf2| <= |buf1|
    ensures same == MatchesAt(buf1, buf2, at)
  {
    ghost var part := buf1[at..at + |buf2|];
    for i := 0 to |buf2|
      invariant forall j :: 0 <= j < i ==> Lower(buf1[at + j]) == Lower(buf2[j])
    {
      var upper1 := 'A' as int <= buf1[at + i] <= 'Z' as int;
      var upper2 := 'A' as int <= buf2[i] <= 'Z' as int;
      var byte1: Byte := if upper1 then buf1[at + i] - 'A' as int + 'a' as int else buf1[at + i];
      var byte2: Byte := if upper2 then buf2[i] - 'A' as int + 'a' as int else buf2[i];
      if byte1 != byte2 {
        assert Folded(part)[i] != Folded(buf2)[i];
        return false;
      }
    }
    assert Folded(part) == Folded(buf2);
    return true;
  }

  method PayloadContainsCaseInsensitive(p: Payload, name: seq<Byte>) returns (found: bool)
    ensures found <==> p.chained == [] && Contains(p.start, name)
  {
    if p.chained != [] || TotalLength(p) < |name| {
      return false;
    }
    for i := 0 to TotalLength(p) - |name| + 1
      invariant forall j :: 0 <= j < i ==> !MatchesAt(p.start, name, j)
    {
      var same := BytesCaseInsensitiveCompare(p.start, i, name);
      if same {
        return true;
      }
    }
    return false;
  }

  method IsMdnsBroadcastPacket(address: Address, port: nat, ipv4: bool) returns (yes: bool)
    ensures yes == IsMdns(address, port, ipv4)
  {
    if port == 5353 {
      if ipv4 && address == MDNS_IPV4 {
        return true;
      }
      if address == MDNS_IPV6 {
        return true;
      }
    }
    return false;
  }

  method IsValidMdnsHostName(hostName: seq<Byte>) returns (valid: bool)
    ensures valid <==> forall b :: b in hostName ==> HexDigit(b)
  {
    for i := 0 to |hostName|
      invariant forall j :: 0 <= j < i ==> HexDigit(hostName[j])
    {
      if !HexDigit(hostName[i]) {
        return false;
      }
    }
    return true;
  }

  class ESP32EndpointQueueFilter {
    const ipv4: bool
    const hostNameBuffer: array<Byte>

    constructor (ipv4: bool)
      ensures this.ipv4 == ipv4 && fresh(hostNameBuffer)
      ensures hostNameBuffer[..] == seq(HOST_NAME_SIZE, _ => 0)
    {
      this.ipv4 := ipv4;
      hostNameBuffer := new Byte[HOST_NAME_SIZE](_ => 0);
    }

    // Only twelve upper-case hexadecimal digits are taken; anything else leaves the name as it was.
    method SetMdnsHostName(hostName: seq<Byte>) returns (ok: bool)
      modifies hostNameBuffer
      ensures ok <==> |hostName| == hostNameBuffer.Length && forall b :: b in hostName ==> HexDigit(b)
      ensures hostNameBuffer[..] == if ok then hostName else old(hostNameBuffer[..])
    {
      if |hostName| != hostNameBuffer.Length {
        return false;
      }
      ok := IsValidMdnsHostName(hostName);
      if ok {
        for i := 0 to |hostName|
          invariant hostNameBuffer[..i] == hostName[..i]
        {
          hostNameBuffer[i] := hostName[i];
        }
      }
    }

    method FilterBeforeEnqueue(address: Address, port: nat, p: Payload) returns (outcome: Outcome)
      ensures outcome.DropPacket? <==> Drops(address, port, p, hostNameBuffer[..], ipv4)
    {
      var mdns := IsMdnsBroadcastPacket(address, port, ipv4);
      if !mdns {
        return AllowPacket;
      }
      var matter := PayloadContainsCaseInsensitive(p, MATTER);
      if matter {
        return AllowPacket;
      }
      var host := PayloadContainsCaseInsensitive(p, hostNameBuffer[..]);
      if host {
        return AllowPacket;
      }
      return DropPacket;
    }
  }
}
