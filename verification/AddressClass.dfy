/** What kind of network an address belongs to, read from its text and stated by address blocks. */
module AddressClass {
  import opened Ipv6Text
  import opened Splitting
  import opened Wrappers

  datatype Class = Public | Private | Loopback | LinkLocal | Cgnat | Reserved | Multicast | UniqueLocal | Unknown

  // The classifiers.

  predicate Between(part: Option<nat>, low: nat, high: nat) {
    part.Some? && low <= part.value <= high
  }

  function ClassifyParts(first: Option<nat>, second: Option<nat>, third: Option<nat>): Class {
    if first == Some(0) then Reserved
    else if first == Some(10) then Private
    else if first == Some(127) then Loopback
    else if first == Some(100) && Between(second, 64, 127) then Cgnat
    else if first == Some(169) && second == Some(254) then LinkLocal
    else if first == Some(172) && Between(second, 16, 31) then Private
    else if first == Some(192) && second == Some(0) && third == Some(0) then Reserved
    else if first == Some(192) && second == Some(0) && third == Some(2) then Reserved
    else if first == Some(192) && second == Some(168) then Private
    else if first == Some(198) && (second == Some(18) || second == Some(19)) then Reserved
    else if first == Some(198) && second == Some(51) && third == Some(100) then Reserved
    else if first == Some(203) && second == Some(0) && third == Some(113) then Reserved
    else if Between(first, 224, 239) then Multicast
    else if first.Some? && first.value >= 240 then Reserved
    else Public
  }

  function ClassifyIpv4(address: string): Class {
    var parts := Split(address, '.');
    ClassifyParts(PartAt(parts, 0), PartAt(parts, 1), PartAt(parts, 2))
  }

  function PrintedQuad(a: nat, b: nat, c: nat, d: nat): seq<string> {
    [Printed(a, 10), Printed(b, 10), Printed(c, 10), Printed(d, 10)]
  }

  function EmbeddedIpv4(bytes: seq<nat>): string
    requires |bytes| == 16
  {
    Join(PrintedQuad(bytes[12], bytes[13], bytes[14], bytes[15]), '.')
  }

  predicate ZeroRange(bytes: seq<nat>, start: nat, end: nat)
    requires start <= end <= |bytes|
  {
    forall i :: start <= i < end ==> bytes[i] == 0
  }

  function ClassifyBytes(bytes: seq<nat>): Class
    requires |bytes| == 16
  {
    var low := ZeroRange(bytes, 0, 10);
    var nat64 := bytes[0] == 0x00 && bytes[1] == 0x64 && bytes[2] == 0xFF && bytes[3] == 0x9B;
    if low && bytes[10] == 0xFF && bytes[11] == 0xFF then ClassifyIpv4(EmbeddedIpv4(bytes))
    else if low && bytes[10] == 0 && bytes[11] == 0 then
      if ZeroRange(bytes, 12, 16) then Reserved
      else if ZeroRange(bytes, 12, 15) && bytes[15] == 1 then Loopback
      else ClassifyIpv4(EmbeddedIpv4(bytes))
    else if nat64 && (ZeroRange(bytes, 4, 12) || (bytes[4] == 0 && bytes[5] == 1))
    then ClassifyIpv4(EmbeddedIpv4(bytes))
    else if bytes[0] == 0xFE && bytes[1] / 0x40 == 0x80 / 0x40 then LinkLocal
    else if bytes[0] / 2 == 0xFC / 2 then UniqueLocal
    else if bytes[0] == 0xFF then Multicast
    else Public
  }

  function ClassifyIpv6(address: string): Class {
    var bytes := Ipv6Bytes(address);
    if bytes.None? then Unknown else ClassifyBytes(bytes.value)
  }

  method IsZeroRange(bytes: array<nat>, start: nat, end: nat) returns (zero: bool)
    requires start <= end <= bytes.Length
    ensures zero <==> ZeroRange(bytes[..], start, end)
  {
    var index := start;
    while index < end
      invariant start <= index <= end
      invariant forall i :: start <= i < index ==> bytes[i] == 0
    {
      if bytes[index] != 0 {
        assert bytes[..][index] != 0;
        return false;
      }
      index := index + 1;
    }
    zero := true;
  }

  // The blocks, as first address and size.

  function Address32(a: nat, b: nat, c: nat, d: nat): nat {
    a * 0x1000000 + b * 0x10000 + c * 0x100 + d
  }

  predicate InBlock(address: nat, first: nat, size: nat) {
    first <= address < first + size
  }

  predicate InPrivateBlock(address: nat) {
    || InBlock(address, 0x0A000000, 0x1000000)    // 10.0.0.0/8
    || InBlock(address, 0xAC100000, 0x100000)     // 172.16.0.0/12
    || InBlock(address, 0xC0A80000, 0x10000)      // 192.168.0.0/16
  }

  predicate InReservedBlock(address: nat) {
    || InBlock(address, 0x00000000, 0x1000000)    // 0.0.0.0/8
    || InBlock(address, 0xC0000000, 0x100)        // 192.0.0.0/24
    || InBlock(address, 0xC0000200, 0x100)        // 192.0.2.0/24
    || InBlock(address, 0xC6120000, 0x20000)      // 198.18.0.0/15
    || InBlock(address, 0xC6336400, 0x100)        // 198.51.100.0/24
    || InBlock(address, 0xCB007100, 0x100)        // 203.0.113.0/24
    || InBlock(address, 0xF0000000, 0x10000000)   // 240.0.0.0/4
  }

  /** The special-purpose blocks of IPv4, whatever is outside them being public. */
  function BlockClass(address: nat): Class {
    if InPrivateBlock(address) then Private
    else if InReservedBlock(address) then Reserved
    else if InBlock(address, 0x7F000000, 0x1000000) then Loopback       // 127.0.0.0/8
    else if InBlock(address, 0x64400000, 0x400000) then Cgnat           // 100.64.0.0/10
    else if InBlock(address, 0xA9FE0000, 0x10000) then LinkLocal        // 169.254.0.0/16
    else if InBlock(address, 0xE0000000, 0x10000000) then Multicast     // 224.0.0.0/4
    else Public
  }

  predicate ZeroGroup(groups: seq<nat>, start: nat, end: nat)
    requires start <= end <= |groups|
  {
    forall i :: start <= i < end ==> groups[i] == 0
  }

  /** The last two groups hold an IPv4 address: ::/96, ::ffff:0:0/96, 64:ff9b::/96 and 64:ff9b:1::/48. */
  predicate Embeds(groups: seq<nat>)
    requires |groups| == 8
  {
    || ZeroGroup(groups, 0, 6)
    || (ZeroGroup(groups, 0, 5) && groups[5] == 0xFFFF)
    || (groups[0] == 0x64 && groups[1] == 0xFF9B && (ZeroGroup(groups, 2, 6) || groups[2] == 1))
  }

  function GroupClass(groups: seq<nat>): Class
    requires |groups| == 8
  {
    if ZeroGroup(groups, 0, 8) then Reserved                                     // ::/128
    else if ZeroGroup(groups, 0, 7) && groups[7] == 1 then Loopback              // ::1/128
    else if Embeds(groups) then BlockClass(groups[6] * 0x10000 + groups[7])
    else if InBlock(groups[0], 0xFE80, 0x40) then LinkLocal                      // fe80::/10
    else if InBlock(groups[0], 0xFC00, 0x200) then UniqueLocal                   // fc00::/7
    else if InBlock(groups[0], 0xFF00, 0x100) then Multicast                     // ff00::/8
    else Public
  }

  /** A block of `size` times 65536 addresses within one first octet. */
  lemma BlockOfSeconds(a: nat, b: nat, c: nat, d: nat, first: nat, second: nat, size: nat)
    requires a < 256 && b < 256 && c < 256 && d < 256 && second + size <= 256
    ensures InBlock(Address32(a, b, c, d), first * 0x1000000 + second * 0x10000, size * 0x10000)
            <==> a == first && second <= b < second + size
  {
  }

  lemma BlockOfFirsts(a: nat, b: nat, c: nat, d: nat, first: nat, size: nat)
    requires a < 256 && b < 256 && c < 256 && d < 256
    ensures InBlock(Address32(a, b, c, d), first * 0x1000000, size * 0x1000000) <==> first <= a < first + size
  {
  }

  lemma BlockOfThirds(a: nat, b: nat, c: nat, d: nat, first: nat, second: nat, third: nat)
    requires a < 256 && b < 256 && c < 256 && d < 256 && second < 256 && third < 256
    ensures InBlock(Address32(a, b, c, d), first * 0x1000000 + second * 0x10000 + third * 0x100, 0x100)
            <==> a == first && b == second && c == third
  {
  }

  lemma PrivateParts(a: nat, b: nat, c: nat, d: nat)
    requires a < 256 && b < 256 && c < 256 && d < 256
    ensures InPrivateBlock(Address32(a, b, c, d)) <==> a == 10 || (a == 172 && 16 <= b <= 31) || (a == 192 && b == 168)
  {
    BlockOfFirsts(a, b, c, d, 10, 1);
    BlockOfSeconds(a, b, c, d, 172, 16, 16);
    BlockOfSeconds(a, b, c, d, 192, 168, 1);
  }

  lemma ReservedParts(a: nat, b: nat, c: nat, d: nat)
    requires a < 256 && b < 256 && c < 256 && d < 256
    ensures InReservedBlock(Address32(a, b, c, d)) <==>
            a == 0 || (a == 192 && b == 0 && (c == 0 || c == 2)) || (a == 198 && (b == 18 || b == 19))
            || (a == 198 && b == 51 && c == 100) || (a == 203 && b == 0 && c == 113) || a >= 240
  {
    BlockOfFirsts(a, b, c, d, 0, 1);
    BlockOfThirds(a, b, c, d, 192, 0, 0);
    BlockOfThirds(a, b, c, d, 192, 0, 2);
    BlockOfSeconds(a, b, c, d, 198, 18, 2);
    BlockOfThirds(a, b, c, d, 198, 51, 100);
    BlockOfThirds(a, b, c, d, 203, 0, 113);
    BlockOfFirsts(a, b, c, d, 240, 16);
  }

  lemma PartsMatchBlocks(a: nat, b: nat, c: nat, d: nat)
    requires a < 256 && b < 256 && c < 256 && d < 256
    ensures ClassifyParts(Some(a), Some(b), Some(c)) == BlockClass(Address32(a, b, c, d))
  {
    PrivateParts(a, b, c, d);
    ReservedParts(a, b, c, d);
    BlockOfFirsts(a, b, c, d, 127, 1);
    BlockOfSeconds(a, b, c, d, 100, 64, 64);
    BlockOfSeconds(a, b, c, d, 169, 254, 1);
    BlockOfFirsts(a, b, c, d, 224, 16);
  }

  /** However an IPv4 address is written, it gets the class of its block. */
  lemma Ipv4ClassIsItsBlock(quad: seq<string>, a: nat, b: nat, c: nat, d: nat)
    requires SpellsQuad(quad, a, b, c, d)
    ensures ClassifyIpv4(Join(quad, '.')) == BlockClass(Address32(a, b, c, d))
  {
    QuadIsRead(quad, a, b, c, d);
    PartsMatchBlocks(a, b, c, d);
  }

  lemma EmbeddedIsRead(bytes: seq<nat>)
    requires |bytes| == 16 && forall i :: 0 <= i < 16 ==> bytes[i] < 256
    ensures ClassifyIpv4(EmbeddedIpv4(bytes)) == BlockClass(Address32(bytes[12], bytes[13], bytes[14], bytes[15]))
  {
    Ipv4ClassIsItsBlock(PrintedQuad(bytes[12], bytes[13], bytes[14], bytes[15]),
                        bytes[12], bytes[13], bytes[14], bytes[15]);
  }

  lemma {:induction false} BytesAt(groups: seq<nat>, i: nat)
    requires i < |groups|
    ensures BytesOf(groups)[2 * i] == groups[i] / 256 && BytesOf(groups)[2 * i + 1] == groups[i] % 256
    decreases |groups|
  {
    if i > 0 {
      BytesAt(groups[1..], i - 1);
      assert BytesOf(groups)[2 * i] == BytesOf(groups[1..])[2 * (i - 1)];
      assert BytesOf(groups)[2 * i + 1] == BytesOf(groups[1..])[2 * (i - 1) + 1];
    }
  }

  lemma ZeroGroupBytes(groups: seq<nat>, i: nat)
    requires i < |groups|
    ensures groups[i] == 0 <==> BytesOf(groups)[2 * i] == 0 && BytesOf(groups)[2 * i + 1] == 0
  {
    BytesAt(groups, i);
  }

  lemma {:induction false} ZeroGroupsAreZeroBytes(groups: seq<nat>, start: nat, end: nat)
    requires start <= end <= |groups|
    ensures ZeroGroup(groups, start, end) <==> ZeroRange(BytesOf(groups), 2 * start, 2 * end)
    decreases end
  {
    if start < end {
      var bytes, last := BytesOf(groups), end - 1;
      ZeroGroupsAreZeroBytes(groups, start, last);
      ZeroGroupBytes(groups, last);
      assert ZeroRange(bytes, 2 * start, 2 * end) <==>
        ZeroRange(bytes, 2 * start, 2 * last) && bytes[2 * last] == 0 && bytes[2 * last + 1] == 0;
    }
  }

  // The two agree.

  lemma ZeroPrefixes(groups: seq<nat>)
    requires |groups| == 8
    ensures var bytes := BytesOf(groups);
            && (ZeroGroup(groups, 0, 5) <==> ZeroRange(bytes, 0, 10))
            && (ZeroGroup(groups, 2, 6) <==> ZeroRange(bytes, 4, 12))
            && (ZeroGroup(groups, 6, 8) <==> ZeroRange(bytes, 12, 16))
            && (groups[7] == 1 && groups[6] == 0 <==> ZeroRange(bytes, 12, 15) && bytes[15] == 1)
  {
    ZeroGroupsAreZeroBytes(groups, 0, 5);
    ZeroGroupsAreZeroBytes(groups, 2, 6);
    ZeroGroupsAreZeroBytes(groups, 6, 8);
    ZeroGroupsAreZeroBytes(groups, 6, 7);
    BytesAt(groups, 7);
    var bytes := BytesOf(groups);
    assert ZeroRange(bytes, 12, 15) <==> ZeroRange(bytes, 12, 14) && bytes[14] == 0;
    assert ZeroGroup(groups, 6, 7) <==> groups[6] == 0;
  }

  lemma EmbeddedClass(groups: seq<nat>)
    requires |groups| == 8 && forall i :: 0 <= i < 8 ==> groups[i] <= 0xFFFF
    ensures ClassifyIpv4(EmbeddedIpv4(BytesOf(groups))) == BlockClass(groups[6] * 0x10000 + groups[7])
  {
    var bytes := BytesOf(groups);
    BytesAreSmall(groups);
    EmbeddedIsRead(bytes);
    LastAddress(groups);
  }

  lemma LastAddress(groups: seq<nat>)
    requires |groups| == 8
    ensures var bytes := BytesOf(groups);
            Address32(bytes[12], bytes[13], bytes[14], bytes[15]) == groups[6] * 0x10000 + groups[7]
  {
    BytesAt(groups, 6);
    BytesAt(groups, 7);
  }

  lemma {:induction false} BytesAreSmall(groups: seq<nat>)
    requires forall i :: 0 <= i < |groups| ==> groups[i] <= 0xFFFF
    ensures forall k :: 0 <= k < 2 * |groups| ==> BytesOf(groups)[k] < 256
    decreases |groups|
  {
    if groups != [] { BytesAreSmall(groups[1..]); }
  }

  lemma EmbedsAtBytes(groups: seq<nat>)
    requires |groups| == 8
    ensures var bytes := BytesOf(groups);
            Embeds(groups) <==>
            || (ZeroRange(bytes, 0, 10)
                && ((bytes[10] == 0xFF && bytes[11] == 0xFF) || (bytes[10] == 0 && bytes[11] == 0)))
            || (bytes[0] == 0 && bytes[1] == 0x64 && bytes[2] == 0xFF && bytes[3] == 0x9B
                && (ZeroRange(bytes, 4, 12) || (bytes[4] == 0 && bytes[5] == 1)))
  {
    ZeroPrefixes(groups);
    BytesAt(groups, 0);
    BytesAt(groups, 1);
    BytesAt(groups, 2);
    BytesAt(groups, 5);
    assert ZeroGroup(groups, 0, 6) <==> ZeroGroup(groups, 0, 5) && groups[5] == 0;
  }

  lemma BytesHaveTheGroupsClass(groups: seq<nat>)
    requires |groups| == 8 && forall i :: 0 <= i < 8 ==> groups[i] <= 0xFFFF
    ensures ClassifyBytes(BytesOf(groups)) == GroupClass(groups)
  {
    ZeroPrefixes(groups);
    EmbedsAtBytes(groups);
    EmbeddedClass(groups);
    BytesAt(groups, 0);
    BytesAt(groups, 5);
    assert ZeroGroup(groups, 0, 8) <==> ZeroGroup(groups, 0, 5) && groups[5] == 0 && ZeroGroup(groups, 6, 8);
    assert ZeroGroup(groups, 0, 7) <==> ZeroGroup(groups, 0, 5) && groups[5] == 0 && groups[6] == 0;
  }

  lemma SpelledGroupsAreSmall(spelling: Spelling, groups: seq<nat>)
    requires Spells(spelling, groups)
    ensures forall i :: 0 <= i < 8 ==> groups[i] <= 0xFFFF
  {
    match spelling
    case Whole(side) => SideIsSmall(side, groups);
    case Gapped(head, tail) =>
      var h, t := |head|, 8 - Width(tail);
      SideIsSmall(tail, groups[t..]);
      forall i | 0 <= i < 8 ensures groups[i] <= 0xFFFF {
        if i < h { assert SpellsGroup(head[i], groups[..h][i]); }
        else if i >= t { assert groups[t..][i - t] <= 0xFFFF; }
      }
  }

  lemma SideIsSmall(side: Side, groups: seq<nat>)
    requires SpellsSide(side, groups)
    ensures forall i :: 0 <= i < |groups| ==> groups[i] <= 0xFFFF
  {
    var n := |side.groups|;
    forall i | 0 <= i < n ensures groups[i] <= 0xFFFF {
      assert SpellsGroup(side.groups[i], groups[..n][i]);
    }
  }

  /** However an IPv6 address is written, it gets the class of its block, an embedded IPv4 address its own. */
  lemma Ipv6ClassIsItsBlock(spelling: Spelling, groups: seq<nat>)
    requires Spells(spelling, groups)
    ensures ClassifyIpv6(Written(spelling)) == GroupClass(groups)
  {
    EverySpellingGivesTheBytes(spelling, groups);
    SpelledGroupsAreSmall(spelling, groups);
    BytesHaveTheGroupsClass(groups);
  }

  /** An IPv4-mapped address (section 2.5.5.2 of RFC 4291) or one under the NAT64 well-known prefix (section 2.1 of RFC
      6052) gets the class its IPv4 address gets when written on its own, whatever the spelling of either. */
  lemma EmbeddedIpv4Agrees(spelling: Spelling, quad: seq<string>, a: nat, b: nat, c: nat, d: nat, nat64: bool)
    requires SpellsQuad(quad, a, b, c, d)
    requires Spells(spelling, (if nat64 then [0x64, 0xFF9B, 0, 0, 0, 0] else [0, 0, 0, 0, 0, 0xFFFF])
                              + [a * 256 + b, c * 256 + d])
    ensures ClassifyIpv6(Written(spelling)) == ClassifyIpv4(Join(quad, '.'))
  {
    var groups := (if nat64 then [0x64, 0xFF9B, 0, 0, 0, 0] else [0, 0, 0, 0, 0, 0xFFFF]) + [a * 256 + b, c * 256 + d];
    Ipv6ClassIsItsBlock(spelling, groups);
    Ipv4ClassIsItsBlock(quad, a, b, c, d);
    EmbeddingClass(groups, a, b, c, d);
  }

  lemma EmbeddingClass(groups: seq<nat>, a: nat, b: nat, c: nat, d: nat)
    requires |groups| == 8 && groups[6] == a * 256 + b && groups[7] == c * 256 + d
    requires groups[..6] == [0x64, 0xFF9B, 0, 0, 0, 0] || groups[..6] == [0, 0, 0, 0, 0, 0xFFFF]
    ensures GroupClass(groups) == BlockClass(Address32(a, b, c, d))
  {
    forall i | 0 <= i < 6 ensures groups[i] == groups[..6][i] {}
    assert groups[0] == 0x64 || groups[5] == 0xFFFF;
    assert groups[6] * 0x10000 + groups[7] == Address32(a, b, c, d);
  }

  /** classifyIpv6, over the array the parser fills. */
  method ClassifyIpv6Text(address: string) returns (kind: Class)
    ensures kind == ClassifyIpv6(address)
  {
    var bytes := Ipv6ToBytes(address);
    if bytes == null { return Unknown; }
    var low := IsZeroRange(bytes, 0, 10);
    if low {
      if bytes[10] == 0xFF && bytes[11] == 0xFF {
        return ClassifyIpv4(EmbeddedIpv4(bytes[..]));
      }
      if bytes[10] == 0 && bytes[11] == 0 {
        var unspecified := IsZeroRange(bytes, 12, 16);
        if unspecified { return Reserved; }
        var nearly := IsZeroRange(bytes, 12, 15);
        if nearly && bytes[15] == 1 { return Loopback; }
        return ClassifyIpv4(EmbeddedIpv4(bytes[..]));
      }
    }
    var nat64 := bytes[0] == 0x00 && bytes[1] == 0x64 && bytes[2] == 0xFF && bytes[3] == 0x9B;
    var middle := IsZeroRange(bytes, 4, 12);
    if nat64 && (middle || (bytes[4] == 0x00 && bytes[5] == 0x01)) {
      return ClassifyIpv4(EmbeddedIpv4(bytes[..]));
    }
    if bytes[0] == 0xFE && bytes[1] / 0x40 == 0x80 / 0x40 { return LinkLocal; }
    if bytes[0] / 2 == 0xFC / 2 { return UniqueLocal; }
    if bytes[0] == 0xFF { return Multicast; }
    kind := Public;
  }
}
