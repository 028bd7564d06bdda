/** Reading the text of an IPv6 address: the parser gives the right sixteen bytes for every way of writing them. */
module Ipv6Text {
  import opened Splitting
  import opened Wrappers

  // Characters and numbers.

  predicate IsDecimal(c: char) {
    '0' <= c <= '9'
  }

  predicate IsHex(c: char) {
    IsDecimal(c) || 'a' <= c <= 'f' || 'A' <= c <= 'F'
  }

  function DigitValue(c: char): (v: nat)
    requires IsHex(c)
    ensures v < 16 && (IsDecimal(c) ==> v < 10)
  {
    if IsDecimal(c) then c as int - '0' as int
    else if 'a' <= c <= 'f' then c as int - 'a' as int + 10
    else c as int - 'A' as int + 10
  }

  predicate AllDecimal(s: string) {
    forall i :: 0 <= i < |s| ==> IsDecimal(s[i])
  }

  predicate AllHex(s: string) {
    forall i :: 0 <= i < |s| ==> IsHex(s[i])
  }

  /** What a run of digits stands for in the given base. */
  function Value(digits: string, base: nat): nat
    requires AllHex(digits)
    decreases |digits|
  {
    if digits == [] then 0
    else Value(digits[..|digits| - 1], base) * base + DigitValue(digits[|digits| - 1])
  }

  function Digit(v: nat): (c: char)
    requires v < 16
    ensures IsHex(c) && DigitValue(c) == v && c != '.' && c != ':' && (v < 10 ==> IsDecimal(c))
  {
    if v < 10 then '0' + v as char else 'a' + (v - 10) as char
  }

  /** Number.prototype.toString in base 10 or 16. */
  function Printed(v: nat, base: nat): (s: string)
    requires base == 10 || base == 16
    ensures s != [] && AllHex(s) && Value(s, base) == v && (base == 10 ==> AllDecimal(s))
    ensures '.' !in s && ':' !in s
    decreases v
  {
    if v < base then [Digit(v)]
    else
      var s := Printed(v / base, base) + [Digit(v % base)];
      assert s[..|s| - 1] == Printed(v / base, base);
      s
  }

  function LowerChar(c: char): char {
    if 'A' <= c <= 'Z' then c - 'A' + 'a' else c
  }

  function Lower(s: string): (r: string)
    ensures |r| == |s| && forall i :: 0 <= i < |s| ==> r[i] == LowerChar(s[i])
  {
    seq(|s|, i requires 0 <= i < |s| => LowerChar(s[i]))
  }

  predicate IsSpace(c: char) {
    c == ' ' || '\t' <= c <= '\r' || c == '\U{A0}' || c == '\U{FEFF}'
  }

  function TrimLeft(s: string): string {
    if s != [] && IsSpace(s[0]) then TrimLeft(s[1..]) else s
  }

  function HexPrefix(s: string): (r: string)
    ensures AllHex(r)
  {
    if s != [] && IsHex(s[0]) then [s[0]] + HexPrefix(s[1..]) else []
  }

  /** Number.parseInt(s, 16); None is NaN. White space, a sign and 0x are skipped, and so is whatever follows. */
  function ParseHex(s: string): Option<int> {
    var t := TrimLeft(s);
    var unsigned := if t != [] && (t[0] == '+' || t[0] == '-') then t[1..] else t;
    var prefixed := |unsigned| >= 2 && unsigned[0] == '0' && (unsigned[1] == 'x' || unsigned[1] == 'X');
    var bare := if prefixed then unsigned[2..] else unsigned;
    var digits := HexPrefix(bare);
    var v: int := Value(digits, 16);
    if digits == [] then None else Some(if t[0] == '-' then -v else v)
  }

  /** Number(s) on text without a sign, point, exponent or white space; None is NaN. */
  function ToNumber(s: string): Option<nat> {
    if AllDecimal(s) then Some(Value(s, 10)) else None
  }

  // Bitwise arithmetic on 32 bits.

  const WORD := 0x1_0000_0000

  function BitOr(x: nat, y: nat): nat {
    if x == 0 && y == 0 then 0 else 2 * BitOr(x / 2, y / 2) + if x % 2 == 1 || y % 2 == 1 then 1 else 0
  }

  function Power2(k: nat): nat {
    if k == 0 then 1 else 2 * Power2(k - 1)
  }

  lemma {:induction false} BitOrZero(x: nat)
    ensures BitOr(x, 0) == x
    decreases x
  {
    if x != 0 { BitOrZero(x / 2); }
  }

  lemma BitOrStep(half: nat, y: nat)
    ensures BitOr(2 * half, y) == 2 * BitOr(half, y / 2) + y % 2
  {
  }

  /** With the low k bits of one side free for the other, "or" is plus. */
  lemma {:induction false} BitOrApart(x: nat, y: nat, k: nat)
    requires y < Power2(k)
    ensures BitOr(x * Power2(k), y) == x * Power2(k) + y
    decreases k
  {
    if k == 0 {
      assert x * 1 == x;
      BitOrZero(x);
    } else {
      var half := x * Power2(k - 1);
      assert x * Power2(k) == 2 * half;
      BitOrApart(x, y / 2, k - 1);
      BitOrStep(half, y);
    }
  }

  /** ((high << 8) | low) >>> 0, where a missing or unreadable part counts as 0. */
  function Paired(high: Option<nat>, low: Option<nat>): nat {
    var h := if high.Some? then high.value else 0;
    var l := if low.Some? then low.value else 0;
    BitOr(h * 256 % WORD, l % WORD)
  }

  lemma Power2Of8()
    ensures Power2(8) == 256
  {
    assert Power2(4) == 16;
  }

  lemma BitOrByte(high: nat, low: nat)
    requires low < 256
    ensures BitOr(high * 256, low) == high * 256 + low
  {
    Power2Of8();
    BitOrApart(high, low, 8);
  }

  lemma PairedBytes(high: nat, low: nat)
    requires high < 256 && low < 256
    ensures Paired(Some(high), Some(low)) == high * 256 + low
  {
    BitOrByte(high, low);
    assert high * 256 % WORD == high * 256 && low % WORD == low;
  }

  // The parser.

  function PartAt(parts: seq<string>, i: nat): Option<nat> {
    if i < |parts| then ToNumber(parts[i]) else None
  }

  function ExpandIpv4Suffix(groups: seq<string>): seq<string> {
    if groups == [] || '.' !in groups[|groups| - 1] then groups
    else
      var parts := Split(groups[|groups| - 1], '.');
      groups[..|groups| - 1]
      + [Printed(Paired(PartAt(parts, 0), PartAt(parts, 1)), 16),
         Printed(Paired(PartAt(parts, 2), PartAt(parts, 3)), 16)]
  }

  function SplitGroups(part: string): seq<string> {
    if part == "" then [] else ExpandIpv4Suffix(Split(part, ':'))
  }

  /** The parts of a text between its "::"s, taken from the left. */
  function SplitAtGaps(s: string): (parts: seq<string>)
    ensures |parts| > 0
  {
    if s == [] then [[]]
    else if |s| >= 2 && s[0] == ':' && s[1] == ':' then [[]] + SplitAtGaps(s[2..])
    else
      var rest := SplitAtGaps(s[1..]);
      [[s[0]] + rest[0]] + rest[1..]
  }

  function Zeros(n: int): (texts: seq<string>)
    ensures |texts| == if n <= 0 then 0 else n
  {
    if n <= 0 then [] else ["0"] + Zeros(n - 1)
  }

  /** The eight texts, the gap filled in; None if there are not eight. */
  function Filled(leading: seq<string>, trailing: seq<string>): (r: Option<seq<string>>)
    ensures r.Some? ==> |r.value| == 8
  {
    var gap := 8 - |leading| - |trailing|;
    var groups := leading + Zeros(gap) + trailing;
    if |groups| != 8 || gap < 0 then None else Some(groups)
  }

  /** The texts of the groups; None if there is a second gap or there are not eight. */
  function GroupTexts(address: string): (r: Option<seq<string>>)
    ensures r.Some? ==> |r.value| == 8
  {
    var parts := SplitAtGaps(address);
    if |parts| > 2 then None
    else if |parts| == 2 then Filled(SplitGroups(parts[0]), SplitGroups(parts[1]))
    else if |SplitGroups(parts[0])| == 8 then Some(SplitGroups(parts[0])) else None
  }

  function GroupValue(text: string): (v: Option<nat>)
    ensures v.Some? ==> v.value <= 0xFFFF
  {
    var parsed := ParseHex(text);
    if parsed.None? || parsed.value < 0 || parsed.value > 0xFFFF then None else Some(parsed.value)
  }

  function GroupValues(texts: seq<string>): (r: Option<seq<nat>>)
    ensures r.Some? <==> forall i :: 0 <= i < |texts| ==> GroupValue(texts[i]).Some?
    ensures r.Some? ==>
              |r.value| == |texts| && forall i :: 0 <= i < |texts| ==> GroupValue(texts[i]) == Some(r.value[i])
  {
    if forall i :: 0 <= i < |texts| ==> GroupValue(texts[i]).Some?
    then Some(seq(|texts|, i requires 0 <= i < |texts| => GroupValue(texts[i]).value))
    else None
  }

  /** Big-endian bytes of a list of groups. */
  function BytesOf(groups: seq<nat>): (bytes: seq<nat>)
    ensures |bytes| == 2 * |groups|
  {
    if groups == [] then [] else [groups[0] / 256, groups[0] % 256] + BytesOf(groups[1..])
  }

  function Ipv6Bytes(address: string): (r: Option<seq<nat>>)
    ensures r.Some? ==> |r.value| == 16
  {
    var texts := GroupTexts(Lower(address));
    if texts.None? then None
    else
      var groups := GroupValues(texts.value);
      if groups.None? then None else Some(BytesOf(groups.value))
  }

  lemma {:induction false} BytesOfAt(bytes: seq<nat>, groups: seq<nat>)
    requires |bytes| == 2 * |groups|
    requires forall i :: 0 <= i < |groups| ==> bytes[2 * i] == groups[i] / 256 && bytes[2 * i + 1] == groups[i] % 256
    ensures bytes == BytesOf(groups)
    decreases |groups|
  {
    if groups != [] {
      var rest := bytes[2..];
      forall i | 0 <= i < |groups[1..]|
        ensures rest[2 * i] == groups[1..][i] / 256 && rest[2 * i + 1] == groups[1..][i] % 256
      {
        assert rest[2 * i] == bytes[2 * (i + 1)] && rest[2 * i + 1] == bytes[2 * (i + 1) + 1];
      }
      BytesOfAt(rest, groups[1..]);
      assert bytes == [bytes[2 * 0], bytes[2 * 0 + 1]] + rest;
    }
  }

  /** The loop over the eight groups, writing two bytes for each. */
  method Fill(groups: seq<string>) returns (filled: bool, bytes: array<nat>)
    requires |groups| == 8
    ensures filled <==> GroupValues(groups).Some?
    ensures fresh(bytes) && (filled ==> bytes[..] == BytesOf(GroupValues(groups).value))
  {
    bytes := new nat[16];
    var index := 0;
    while index < 8
      invariant 0 <= index <= 8
      invariant forall i :: 0 <= i < index ==> GroupValue(groups[i]).Some?
      invariant forall i :: 0 <= i < index ==>
        bytes[2 * i] == GroupValue(groups[i]).value / 256 && bytes[2 * i + 1] == GroupValue(groups[i]).value % 256
    {
      var group := ParseHex(groups[index]);
      if group == None || group.value < 0 || group.value > 0xFFFF {
        assert GroupValue(groups[index]) == None;
        return false, bytes;
      }
      bytes[index * 2] := group.value / 256;
      bytes[index * 2 + 1] := group.value % 256;
      index := index + 1;
    }
    filled := true;
    BytesOfAt(bytes[..], GroupValues(groups).value);
  }

  /** ipv6ToBytes. */
  method Ipv6ToBytes(address: string) returns (bytes: array?<nat>)
    ensures bytes == null <==> Ipv6Bytes(address) == None
    ensures bytes != null ==> fresh(bytes) && Ipv6Bytes(address) == Some(bytes[..])
  {
    var texts := GroupTexts(Lower(address));
    if texts == None { return null; }
    var filled, written := Fill(texts.value);
    bytes := if filled then written else null;
  }

  // The ways to write an address (section 2.2 of RFC 4291).

  /** Groups in hexadecimal and then, perhaps, the last two as four decimal numbers (or none: []). */
  datatype Side = Side(groups: seq<string>, quad: seq<string>)

  datatype Spelling =
    | Whole(side: Side)
    | Gapped(head: seq<string>, tail: Side)

  function Texts(side: Side): seq<string> {
    if side.quad == [] then side.groups else side.groups + [Join(side.quad, '.')]
  }

  function Width(side: Side): nat {
    |side.groups| + if side.quad == [] then 0 else 2
  }

  function Written(spelling: Spelling): string {
    match spelling
    case Whole(side) => Join(Texts(side), ':')
    case Gapped(head, tail) => Join(head, ':') + [':', ':'] + Join(Texts(tail), ':')
  }

  /** Any digits of either case, leading zeros or not. */
  predicate SpellsGroup(text: string, group: nat) {
    text != "" && AllHex(text) && Value(text, 16) == group && group <= 0xFFFF
  }

  predicate SpellsGroups(texts: seq<string>, groups: seq<nat>) {
    |texts| == |groups| && forall i :: 0 <= i < |texts| ==> SpellsGroup(texts[i], groups[i])
  }

  predicate SpellsQuad(quad: seq<string>, a: nat, b: nat, c: nat, d: nat) {
    && |quad| == 4
    && (forall i :: 0 <= i < 4 ==> quad[i] != "" && AllDecimal(quad[i]) && Value(quad[i], 10) < 256)
    && Value(quad[0], 10) == a && Value(quad[1], 10) == b && Value(quad[2], 10) == c && Value(quad[3], 10) == d
  }

  predicate SpellsSide(side: Side, groups: seq<nat>) {
    var n := |side.groups|;
    && |groups| == Width(side)
    && SpellsGroups(side.groups, groups[..n])
    && (side.quad != [] ==>
          SpellsQuad(side.quad, groups[n] / 256, groups[n] % 256, groups[n + 1] / 256, groups[n + 1] % 256))
  }

  /** All eight groups, or a "::" for groups of zeros; the RFC asks for at least one, the parser takes none as well. */
  predicate Spells(spelling: Spelling, groups: seq<nat>) {
    && |groups| == 8
    && match spelling
       case Whole(side) => SpellsSide(side, groups)
       case Gapped(head, tail) =>
         var h, t := |head|, 8 - Width(tail);
         && h <= t
         && SpellsGroups(head, groups[..h])
         && SpellsSide(tail, groups[t..])
         && forall i :: h <= i < t ==> groups[i] == 0
  }

  // Each group is read.

  ghost predicate Maps<A(!new), B(!new)>(f: A -> Option<B>, xs: seq<A>, ys: seq<B>) {
    |xs| == |ys| && forall i :: 0 <= i < |xs| ==> f(xs[i]) == Some(ys[i])
  }

  lemma MapsAppend<A(!new), B(!new)>(f: A -> Option<B>, xs: seq<A>, ys: seq<B>, more: seq<A>, others: seq<B>)
    requires Maps(f, xs, ys) && Maps(f, more, others)
    ensures Maps(f, xs + more, ys + others)
  {
  }

  ghost predicate Reads(texts: seq<string>, groups: seq<nat>) {
    Maps(GroupValue, texts, groups)
  }

  lemma {:induction false} HexPrefixIsAll(s: string)
    requires AllHex(s)
    ensures HexPrefix(s) == s
    decreases |s|
  {
    if s != [] {
      HexPrefixIsAll(s[1..]);
      assert s == [s[0]] + s[1..];
    }
  }

  lemma GroupIsRead(text: string, group: nat)
    requires SpellsGroup(text, group)
    ensures GroupValue(text) == Some(group)
  {
    HexPrefixIsAll(text);
    assert IsHex(text[0]) && TrimLeft(text) == text;
    assert |text| >= 2 ==> IsHex(text[1]);
  }

  lemma QuadIsRead(quad: seq<string>, a: nat, b: nat, c: nat, d: nat)
    requires SpellsQuad(quad, a, b, c, d)
    ensures var parts := Split(Join(quad, '.'), '.');
            PartAt(parts, 0) == Some(a) && PartAt(parts, 1) == Some(b) && PartAt(parts, 2) == Some(c)
            && PartAt(parts, 3) == Some(d)
  {
    forall i | 0 <= i < 4 ensures '.' !in quad[i] {
      assert AllDecimal(quad[i]);
    }
    SplitJoin(quad, '.');
  }

  lemma {:induction false} JoinAddsOnlySeparators(parts: seq<string>, separator: char, c: char)
    requires c != separator && forall i :: 0 <= i < |parts| ==> c !in parts[i]
    ensures c !in Join(parts, separator)
    decreases |parts|
  {
    if |parts| > 1 { JoinAddsOnlySeparators(parts[1..], separator, c); }
  }

  lemma JoinedQuad(quad: seq<string>)
    requires |quad| == 4 && forall i :: 0 <= i < 4 ==> quad[i] != "" && AllDecimal(quad[i])
    ensures var t := Join(quad, '.'); t != "" && '.' in t && ':' !in t
  {
    JoinAddsOnlySeparators(quad, '.', ':');
    assert Join(quad, '.')[|quad[0]|] == '.';
  }

  lemma PrintedIsRead(group: nat)
    requires group <= 0xFFFF
    ensures GroupValue(Printed(group, 16)) == Some(group)
  {
    GroupIsRead(Printed(group, 16), group);
  }

  lemma QuadIsExpanded(texts: seq<string>, quad: seq<string>, a: nat, b: nat, c: nat, d: nat)
    requires SpellsQuad(quad, a, b, c, d)
    ensures ExpandIpv4Suffix(texts + [Join(quad, '.')])
            == texts + [Printed(a * 256 + b, 16), Printed(c * 256 + d, 16)]
  {
    JoinedQuad(quad);
    QuadIsRead(quad, a, b, c, d);
    PairedBytes(a, b);
    PairedBytes(c, d);
    assert (texts + [Join(quad, '.')])[..|texts|] == texts;
  }

  lemma GroupsAreRead(texts: seq<string>, groups: seq<nat>)
    requires SpellsGroups(texts, groups)
    ensures Reads(texts, groups)
  {
    forall i | 0 <= i < |texts| ensures GroupValue(texts[i]) == Some(groups[i]) {
      GroupIsRead(texts[i], groups[i]);
    }
  }

  lemma PairIsRead(first: nat, second: nat)
    requires first <= 0xFFFF && second <= 0xFFFF
    ensures Reads([Printed(first, 16), Printed(second, 16)], [first, second])
  {
    PrintedIsRead(first);
    PrintedIsRead(second);
  }

  lemma QuadSideExpands(side: Side, groups: seq<nat>)
    requires SpellsSide(side, groups) && side.quad != []
    ensures var n := |side.groups|;
            && groups[n] <= 0xFFFF && groups[n + 1] <= 0xFFFF
            && ExpandIpv4Suffix(Texts(side)) == side.groups + [Printed(groups[n], 16), Printed(groups[n + 1], 16)]
  {
    var n := |side.groups|;
    var a, b, c, d := groups[n] / 256, groups[n] % 256, groups[n + 1] / 256, groups[n + 1] % 256;
    QuadIsExpanded(side.groups, side.quad, a, b, c, d);
  }

  lemma WithPairReads(texts: seq<string>, groups: seq<nat>, n: nat)
    requires n + 2 == |groups| && Reads(texts, groups[..n]) && groups[n] <= 0xFFFF && groups[n + 1] <= 0xFFFF
    ensures Reads(texts + [Printed(groups[n], 16), Printed(groups[n + 1], 16)], groups)
  {
    PairIsRead(groups[n], groups[n + 1]);
    MapsAppend(GroupValue, texts, groups[..n], [Printed(groups[n], 16), Printed(groups[n + 1], 16)],
               [groups[n], groups[n + 1]]);
    assert groups == groups[..n] + [groups[n], groups[n + 1]];
  }

  lemma QuadSideReads(side: Side, groups: seq<nat>)
    requires SpellsSide(side, groups) && side.quad != []
    ensures Reads(ExpandIpv4Suffix(Texts(side)), groups)
  {
    GroupsAreRead(side.groups, groups[..|side.groups|]);
    QuadSideExpands(side, groups);
    WithPairReads(side.groups, groups, |side.groups|);
  }

  lemma HexSideReads(side: Side, groups: seq<nat>)
    requires SpellsSide(side, groups) && side.quad == []
    ensures Reads(ExpandIpv4Suffix(Texts(side)), groups)
  {
    assert groups[..|groups|] == groups;
    GroupsAreRead(side.groups, groups);
    forall i | 0 <= i < |side.groups| ensures '.' !in side.groups[i] {
      assert SpellsGroup(side.groups[i], groups[i]);
    }
  }

  lemma ExpandedSideReads(side: Side, groups: seq<nat>)
    requires SpellsSide(side, groups)
    ensures Reads(ExpandIpv4Suffix(Texts(side)), groups)
  {
    if side.quad == [] { HexSideReads(side, groups); } else { QuadSideReads(side, groups); }
  }

  // The text comes apart where it was put together.

  /** Neither two colons in a row nor one at the end. */
  predicate Solid(s: string) {
    && (forall i :: 0 <= i < |s| - 1 ==> !(s[i] == ':' && s[i + 1] == ':'))
    && (s != "" ==> s[|s| - 1] != ':')
  }

  predicate Clean(texts: seq<string>) {
    forall i :: 0 <= i < |texts| ==> texts[i] != "" && ':' !in texts[i]
  }

  lemma {:induction false} JoinIsSolid(texts: seq<string>)
    requires Clean(texts)
    ensures Solid(Join(texts, ':'))
    ensures texts != [] ==> Join(texts, ':') != "" && Join(texts, ':')[0] != ':'
    decreases |texts|
  {
    if texts != [] { assert texts[0] != "" && ':' !in texts[0]; }
    if |texts| > 1 {
      var rest := Join(texts[1..], ':');
      JoinIsSolid(texts[1..]);
      var s, n := texts[0] + [':'] + rest, |texts[0]|;
      forall i | 0 <= i < |s| - 1 ensures !(s[i] == ':' && s[i + 1] == ':') {
        if i < n { assert s[i] in texts[0]; }
        else if i > n { assert s[i] == rest[i - n - 1] && s[i + 1] == rest[i - n]; }
      }
    }
  }

  lemma {:induction false} SolidIsOnePart(s: string)
    requires Solid(s)
    ensures SplitAtGaps(s) == [s]
    decreases |s|
  {
    if s != "" {
      SolidIsOnePart(s[1..]);
      assert s == [s[0]] + s[1..];
    }
  }

  lemma {:induction false} GapParts(h: string, t: string)
    requires Solid(h)
    ensures SplitAtGaps(h + [':', ':'] + t) == [h] + SplitAtGaps(t)
    decreases |h|
  {
    var s := h + [':', ':'] + t;
    if h == "" {
      assert s[2..] == t;
    } else {
      assert s[1..] == h[1..] + [':', ':'] + t;
      GapParts(h[1..], t);
      assert h == [h[0]] + h[1..];
    }
  }

  lemma SideIsClean(side: Side, groups: seq<nat>)
    requires SpellsSide(side, groups)
    ensures Clean(Texts(side))
  {
    forall i | 0 <= i < |side.groups| ensures side.groups[i] != "" && ':' !in side.groups[i] {
      assert SpellsGroup(side.groups[i], groups[..|side.groups|][i]);
    }
    if side.quad != [] { JoinedQuad(side.quad); }
  }

  lemma SideIsRead(side: Side, groups: seq<nat>)
    requires SpellsSide(side, groups)
    ensures Solid(Join(Texts(side), ':')) && Reads(SplitGroups(Join(Texts(side), ':')), groups)
  {
    SideIsClean(side, groups);
    JoinIsSolid(Texts(side));
    ExpandedSideReads(side, groups);
    if Texts(side) != [] { SplitJoin(Texts(side), ':'); }
  }

  function ZeroGroups(n: nat): (groups: seq<nat>)
    ensures |groups| == n && forall i :: 0 <= i < n ==> groups[i] == 0
  {
    seq(n, _ => 0)
  }

  lemma {:induction false} ZerosAreRead(n: nat)
    ensures Reads(Zeros(n), ZeroGroups(n))
    decreases n
  {
    if n > 0 {
      ZerosAreRead(n - 1);
      GroupIsRead("0", 0);
      MapsAppend(GroupValue, ["0"], [0], Zeros(n - 1), ZeroGroups(n - 1));
      assert [0] + ZeroGroups(n - 1) == ZeroGroups(n);
    }
  }

  lemma MapsInThree<A(!new), B(!new)>(f: A -> Option<B>, xs: seq<A>, zs: seq<A>, ws: seq<A>, ys: seq<B>, h: nat, t: nat)
    requires h <= t <= |ys| && Maps(f, xs, ys[..h]) && Maps(f, zs, ys[h..t]) && Maps(f, ws, ys[t..])
    ensures Maps(f, xs + zs + ws, ys)
  {
    MapsAppend(f, xs, ys[..h], zs, ys[h..t]);
    MapsAppend(f, xs + zs, ys[..h] + ys[h..t], ws, ys[t..]);
    assert ys == ys[..h] + ys[h..t] + ys[t..];
  }

  lemma FilledGapMaps(f: string -> Option<nat>, leading: seq<string>, trailing: seq<string>, groups: seq<nat>, h: nat,
                       t: nat)
    requires |groups| == 8 && h <= t <= 8
    requires Maps(f, leading, groups[..h]) && Maps(f, Zeros(t - h), groups[h..t]) && Maps(f, trailing, groups[t..])
    ensures Filled(leading, trailing).Some? && Maps(f, Filled(leading, trailing).value, groups)
  {
    FilledWith(leading, trailing, t - h);
    MapsInThree(f, leading, Zeros(t - h), trailing, groups, h, t);
  }

  lemma FilledGapReads(leading: seq<string>, trailing: seq<string>, groups: seq<nat>, h: nat, t: nat)
    requires |groups| == 8 && h <= t <= 8 && Reads(leading, groups[..h]) && Reads(trailing, groups[t..])
    requires forall i :: h <= i < t ==> groups[i] == 0
    ensures Filled(leading, trailing).Some? && Reads(Filled(leading, trailing).value, groups)
  {
    ZeroSlice(groups, h, t);
    ZerosAreRead(t - h);
    FilledGapMaps(GroupValue, leading, trailing, groups, h, t);
  }

  lemma ZeroSlice(groups: seq<nat>, h: nat, t: nat)
    requires h <= t <= |groups| && forall i :: h <= i < t ==> groups[i] == 0
    ensures groups[h..t] == ZeroGroups(t - h)
  {
  }

  lemma FilledWith(leading: seq<string>, trailing: seq<string>, n: nat)
    requires |leading| + n + |trailing| == 8
    ensures Filled(leading, trailing) == Some(leading + Zeros(n) + trailing)
  {
  }

  lemma GapIsSplit(head: seq<string>, right: string)
    requires Clean(head) && Solid(right)
    ensures SplitAtGaps(Join(head, ':') + [':', ':'] + right) == [Join(head, ':'), right]
  {
    JoinIsSolid(head);
    GapParts(Join(head, ':'), right);
    SolidIsOnePart(right);
  }

  lemma HeadIsRead(head: seq<string>, groups: seq<nat>)
    requires SpellsGroups(head, groups)
    ensures Clean(head) && Reads(SplitGroups(Join(head, ':')), groups)
  {
    assert groups[..|head|] == groups && SpellsSide(Side(head, []), groups);
    SideIsClean(Side(head, []), groups);
    SideIsRead(Side(head, []), groups);
  }

  lemma PartsAreRead(address: string, left: string, right: string, groups: seq<nat>, h: nat, t: nat)
    requires |groups| == 8 && h <= t <= 8 && forall i :: h <= i < t ==> groups[i] == 0
    requires SplitAtGaps(address) == [left, right]
    requires Reads(SplitGroups(left), groups[..h]) && Reads(SplitGroups(right), groups[t..])
    ensures GroupTexts(address).Some? && Reads(GroupTexts(address).value, groups)
  {
    FilledGapReads(SplitGroups(left), SplitGroups(right), groups, h, t);
    GapIsFilled(address, left, right);
  }

  lemma GapIsFilled(address: string, left: string, right: string)
    requires SplitAtGaps(address) == [left, right]
    ensures GroupTexts(address) == Filled(SplitGroups(left), SplitGroups(right))
  {
  }

  lemma WrittenIsRead(spelling: Spelling, groups: seq<nat>)
    requires Spells(spelling, groups)
    ensures GroupTexts(Written(spelling)).Some? && Reads(GroupTexts(Written(spelling)).value, groups)
  {
    match spelling
    case Whole(side) =>
      SideIsRead(side, groups);
      SolidIsOnePart(Written(spelling));
    case Gapped(head, tail) =>
      var h, t := |head|, 8 - Width(tail);
      HeadIsRead(head, groups[..h]);
      SideIsRead(tail, groups[t..]);
      GapIsSplit(head, Join(Texts(tail), ':'));
      PartsAreRead(Written(spelling), Join(head, ':'), Join(Texts(tail), ':'), groups, h, t);
  }

  // Case does not matter.

  function LowerAll(texts: seq<string>): seq<string> {
    seq(|texts|, i requires 0 <= i < |texts| => Lower(texts[i]))
  }

  function LowerSide(side: Side): Side {
    Side(LowerAll(side.groups), LowerAll(side.quad))
  }

  function Lowered(spelling: Spelling): Spelling {
    match spelling
    case Whole(side) => Whole(LowerSide(side))
    case Gapped(head, tail) => Gapped(LowerAll(head), LowerSide(tail))
  }

  lemma {:induction false} LowerJoin(texts: seq<string>, separator: char)
    requires LowerChar(separator) == separator
    ensures Lower(Join(texts, separator)) == Join(LowerAll(texts), separator)
    decreases |texts|
  {
    if |texts| > 1 {
      LowerJoin(texts[1..], separator);
      assert LowerAll(texts)[1..] == LowerAll(texts[1..]);
    }
  }

  lemma {:induction false} LowerValue(digits: string, base: nat)
    requires AllHex(digits)
    ensures AllHex(Lower(digits)) && Value(Lower(digits), base) == Value(digits, base)
    ensures AllDecimal(digits) ==> AllDecimal(Lower(digits))
    decreases |digits|
  {
    if digits != [] {
      LowerValue(digits[..|digits| - 1], base);
      assert Lower(digits)[..|digits| - 1] == Lower(digits[..|digits| - 1]);
    }
  }

  lemma LowerTexts(side: Side)
    ensures Texts(LowerSide(side)) == LowerAll(Texts(side))
  {
    LowerJoin(side.quad, '.');
  }

  lemma LowerWritten(spelling: Spelling)
    ensures Lower(Written(spelling)) == Written(Lowered(spelling))
  {
    match spelling
    case Whole(side) =>
      LowerTexts(side);
      LowerJoin(Texts(side), ':');
    case Gapped(head, tail) =>
      LowerTexts(tail);
      LowerJoin(head, ':');
      LowerJoin(Texts(tail), ':');
  }

  lemma LowerSpellsQuad(quad: seq<string>, a: nat, b: nat, c: nat, d: nat)
    requires SpellsQuad(quad, a, b, c, d)
    ensures SpellsQuad(LowerAll(quad), a, b, c, d)
  {
    forall i | 0 <= i < 4 { LowerValue(quad[i], 10); }
  }

  lemma LowerSpellsGroups(texts: seq<string>, groups: seq<nat>)
    requires SpellsGroups(texts, groups)
    ensures SpellsGroups(LowerAll(texts), groups)
  {
    forall i | 0 <= i < |texts| ensures SpellsGroup(LowerAll(texts)[i], groups[i]) {
      LowerValue(texts[i], 16);
    }
  }

  lemma LowerSpellsSide(side: Side, groups: seq<nat>)
    requires SpellsSide(side, groups)
    ensures SpellsSide(LowerSide(side), groups)
  {
    var n := |side.groups|;
    LowerSpellsGroups(side.groups, groups[..n]);
    if side.quad != [] {
      LowerSpellsQuad(side.quad, groups[n] / 256, groups[n] % 256, groups[n + 1] / 256, groups[n + 1] % 256);
    }
  }

  lemma LowerSpells(spelling: Spelling, groups: seq<nat>)
    requires Spells(spelling, groups)
    ensures Spells(Lowered(spelling), groups)
  {
    match spelling
    case Whole(side) => LowerSpellsSide(side, groups);
    case Gapped(head, tail) => LowerSpellsGapped(head, tail, groups);
  }

  lemma LowerSpellsGapped(head: seq<string>, tail: Side, groups: seq<nat>)
    requires Spells(Gapped(head, tail), groups)
    ensures Spells(Gapped(LowerAll(head), LowerSide(tail)), groups)
  {
    assert Width(LowerSide(tail)) == Width(tail) && |LowerAll(head)| == |head|;
    LowerSpellsGroups(head, groups[..|head|]);
    LowerSpellsSide(tail, groups[8 - Width(tail)..]);
  }

  lemma ReadGroups(texts: seq<string>, groups: seq<nat>)
    requires Reads(texts, groups)
    ensures GroupValues(texts) == Some(groups)
  {
    assert forall i :: 0 <= i < |texts| ==> GroupValue(texts[i]) == Some(groups[i]);
    assert GroupValues(texts).value == groups;
  }

  /** Every way of writing eight groups, in either case, with leading zeros, "::" or a dotted tail, gives their bytes.
      */
  lemma EverySpellingGivesTheBytes(spelling: Spelling, groups: seq<nat>)
    requires Spells(spelling, groups)
    ensures Ipv6Bytes(Written(spelling)) == Some(BytesOf(groups))
  {
    LowerWritten(spelling);
    LowerSpells(spelling, groups);
    WrittenIsRead(Lowered(spelling), groups);
    ReadGroups(GroupTexts(Lower(Written(spelling))).value, groups);
  }

  /** The longest way to write an address: eight groups in lower case, no gap. */
  function Plain(groups: seq<nat>): Spelling {
    Whole(Side(seq(|groups|, i requires 0 <= i < |groups| => Printed(groups[i], 16)), []))
  }

  /** Every address can be written, and reading it gives it back. */
  lemma EveryAddressCanBeWritten(groups: seq<nat>)
    requires |groups| == 8 && forall i :: 0 <= i < 8 ==> groups[i] <= 0xFFFF
    ensures Spells(Plain(groups), groups) && Ipv6Bytes(Written(Plain(groups))) == Some(BytesOf(groups))
  {
    assert groups[..8] == groups;
    EverySpellingGivesTheBytes(Plain(groups), groups);
  }
}
