/** What the IPv6 parser reads at all: of the texts made of hexadecimal digits and colons, exactly the spellings of
    addresses. */
module Ipv6Acceptance {
  import opened Ipv6Text
  import opened Splitting
  import opened Wrappers

  predicate HexAndColons(s: string) {
    forall i :: 0 <= i < |s| ==> IsHex(s[i]) || s[i] == ':'
  }

  /** Some spelling of some eight groups is this text. */
  ghost predicate IsSpelling(address: string) {
    exists spelling, groups :: Spells(spelling, groups) && Written(spelling) == address
  }

  predicate AllHexTexts(texts: seq<string>) {
    forall i :: 0 <= i < |texts| ==> AllHex(texts[i])
  }

  // Taking a text apart and putting it together.

  lemma LowerOneMore(rest: seq<string>)
    ensures LowerAll([""] + rest) == [""] + LowerAll(rest)
  {
  }

  lemma LowerLonger(c: char, rest: seq<string>)
    requires rest != []
    ensures LowerAll([[c] + rest[0]] + rest[1..]) == [[LowerChar(c)] + LowerAll(rest)[0]] + LowerAll(rest)[1..]
  {
    assert Lower([c] + rest[0]) == [LowerChar(c)] + Lower(rest[0]);
  }

  lemma {:induction false} SplitLower(s: string)
    ensures Split(Lower(s), ':') == LowerAll(Split(s, ':'))
    decreases |s|
  {
    if s != "" {
      SplitLower(s[1..]);
      assert Lower(s)[1..] == Lower(s[1..]);
      LowerOneMore(Split(s[1..], ':'));
      LowerLonger(s[0], Split(s[1..], ':'));
    }
  }

  lemma {:induction false} GapsLower(s: string)
    ensures SplitAtGaps(Lower(s)) == LowerAll(SplitAtGaps(s))
    decreases |s|
  {
    if |s| >= 2 && s[0] == ':' && s[1] == ':' {
      GapsLower(s[2..]);
      assert Lower(s)[2..] == Lower(s[2..]);
      LowerOneMore(SplitAtGaps(s[2..]));
    } else if s != "" {
      GapsLower(s[1..]);
      assert Lower(s)[1..] == Lower(s[1..]);
      LowerLonger(s[0], SplitAtGaps(s[1..]));
    }
  }

  /** Up to one gap, the parts make up the text. */
  lemma {:induction false} GapsMakeUp(s: string)
    ensures var parts := SplitAtGaps(s);
            && (|parts| == 1 ==> s == parts[0])
            && (|parts| == 2 ==> s == parts[0] + [':', ':'] + parts[1])
    decreases |s|
  {
    if |s| >= 2 && s[0] == ':' && s[1] == ':' {
      GapsMakeUp(s[2..]);
      assert s == [] + [':', ':'] + s[2..];
    } else if s != "" {
      GapsMakeUp(s[1..]);
      assert s == [s[0]] + s[1..];
    }
  }

  /** The texts of the groups on one side of a gap. */
  function SideTexts(part: string): seq<string> {
    if part == "" then [] else Split(part, ':')
  }

  lemma SideComesApart(part: string)
    requires HexAndColons(part)
    ensures Join(SideTexts(part), ':') == part && AllHexTexts(SideTexts(part))
    ensures SplitGroups(Lower(part)) == LowerAll(SideTexts(part))
  {
    JoinSplit(part, ':');
    SplitLower(part);
    forall i | 0 <= i < |SideTexts(part)| ensures AllHex(SideTexts(part)[i]) {
      var text := SideTexts(part)[i];
      forall j | 0 <= j < |text| ensures IsHex(text[j]) {
        PartsWithin(part, ':', i, j);
      }
    }
    NoDotNoTail(SideTexts(part));
  }

  lemma NoDotNoTail(texts: seq<string>)
    requires AllHexTexts(texts)
    ensures ExpandIpv4Suffix(LowerAll(texts)) == LowerAll(texts)
  {
    if texts != [] { LowerValue(texts[|texts| - 1], 16); }
  }

  // What is read is spelled.

  /** A text of hexadecimal digits is read as the group it spells, or not at all. */
  lemma ReadGroupIsSpelled(text: string, group: nat)
    requires AllHex(text) && GroupValue(Lower(text)) == Some(group)
    ensures SpellsGroup(text, group)
  {
    LowerValue(text, 16);
    HexPrefixIsAll(Lower(text));
    if text != "" {
      assert IsHex(Lower(text)[0]) && TrimLeft(Lower(text)) == Lower(text);
      assert |text| >= 2 ==> IsHex(Lower(text)[1]);
    }
  }

  lemma ReadGroupsAreSpelled(texts: seq<string>, groups: seq<nat>)
    requires AllHexTexts(texts) && Reads(LowerAll(texts), groups)
    ensures SpellsGroups(texts, groups)
  {
    forall i | 0 <= i < |texts| ensures SpellsGroup(texts[i], groups[i]) {
      assert LowerAll(texts)[i] == Lower(texts[i]);
      ReadGroupIsSpelled(texts[i], groups[i]);
    }
  }

  lemma WholeIsSpelled(address: string, groups: seq<nat>)
    requires HexAndColons(address) && |SplitAtGaps(address)| == 1
    requires |groups| == 8 && Reads(SplitGroups(Lower(address)), groups)
    ensures IsSpelling(address)
  {
    SideComesApart(address);
    var side := Side(SideTexts(address), []);
    ReadGroupsAreSpelled(SideTexts(address), groups);
    assert groups[..|side.groups|] == groups;
    assert Spells(Whole(side), groups) && Written(Whole(side)) == address;
  }

  lemma MapsParts<A(!new), B(!new)>(f: A -> Option<B>, xs: seq<A>, zs: seq<A>, ws: seq<A>, ys: seq<B>)
    requires Maps(f, xs + zs + ws, ys)
    ensures var h, t := |xs|, |xs| + |zs|;
            h <= t <= |ys| && Maps(f, xs, ys[..h]) && Maps(f, zs, ys[h..t]) && Maps(f, ws, ys[t..])
  {
    var all := xs + zs + ws;
    forall i | 0 <= i < |xs| ensures f(xs[i]) == Some(ys[i]) { assert all[i] == xs[i]; }
    forall i | 0 <= i < |zs| ensures f(zs[i]) == Some(ys[|xs| + i]) { assert all[|xs| + i] == zs[i]; }
    forall i | 0 <= i < |ws| ensures f(ws[i]) == Some(ys[|xs| + |zs| + i]) { assert all[|xs| + |zs| + i] == ws[i]; }
  }

  lemma GapIsZero(groups: seq<nat>, h: nat, t: nat)
    requires h <= t <= |groups| && Reads(Zeros(t - h), groups[h..t])
    ensures forall i :: h <= i < t ==> groups[i] == 0
  {
    ZerosAreRead(t - h);
    forall i | h <= i < t ensures groups[i] == 0 {
      assert groups[h..t][i - h] == ZeroGroups(t - h)[i - h];
    }
  }

  lemma PartsSpell(head: seq<string>, tail: seq<string>, groups: seq<nat>, h: nat, t: nat)
    requires |groups| == 8 && h == |head| && t + |tail| == 8 && h <= t
    requires SpellsGroups(head, groups[..h]) && SpellsGroups(tail, groups[t..])
    requires forall i :: h <= i < t ==> groups[i] == 0
    ensures Spells(Gapped(head, Side(tail, [])), groups)
  {
    assert groups[t..][..|tail|] == groups[t..];
  }

  lemma FilledIsSpelled(head: seq<string>, tail: seq<string>, groups: seq<nat>)
    requires AllHexTexts(head) && AllHexTexts(tail) && |groups| == 8
    requires Filled(LowerAll(head), LowerAll(tail)).Some? && Reads(Filled(LowerAll(head), LowerAll(tail)).value, groups)
    ensures Spells(Gapped(head, Side(tail, [])), groups)
  {
    var h, t := |head|, 8 - |tail|;
    MapsParts(GroupValue, LowerAll(head), Zeros(t - h), LowerAll(tail), groups);
    ReadGroupsAreSpelled(head, groups[..h]);
    ReadGroupsAreSpelled(tail, groups[t..]);
    GapIsZero(groups, h, t);
    PartsSpell(head, tail, groups, h, t);
  }

  lemma GappedIsSpelled(address: string, left: string, right: string, groups: seq<nat>)
    requires HexAndColons(left) && HexAndColons(right) && address == left + [':', ':'] + right
    requires |groups| == 8 && Filled(SplitGroups(Lower(left)), SplitGroups(Lower(right))).Some?
    requires Reads(Filled(SplitGroups(Lower(left)), SplitGroups(Lower(right))).value, groups)
    ensures IsSpelling(address)
  {
    SideComesApart(left);
    SideComesApart(right);
    FilledIsSpelled(SideTexts(left), SideTexts(right), groups);
    assert Written(Gapped(SideTexts(left), Side(SideTexts(right), []))) == address;
  }

  lemma ReadIsSpelled(address: string, groups: seq<nat>)
    requires HexAndColons(address) && GroupTexts(Lower(address)).Some?
    requires |groups| == 8 && Reads(GroupTexts(Lower(address)).value, groups)
    ensures IsSpelling(address)
  {
    GapsLower(address);
    GapsMakeUp(address);
    var parts := SplitAtGaps(address);
    if |parts| == 1 {
      WholeIsSpelled(address, groups);
    } else {
      forall i | 0 <= i < |parts[0]| ensures IsHex(parts[0][i]) || parts[0][i] == ':' {
        assert parts[0][i] == address[i];
      }
      forall i | 0 <= i < |parts[1]| ensures IsHex(parts[1][i]) || parts[1][i] == ':' {
        assert parts[1][i] == address[|parts[0]| + 2 + i];
      }
      GappedIsSpelled(address, parts[0], parts[1], groups);
    }
  }

  /** A text of hexadecimal digits and colons is read if and only if it is a spelling of an address; which bytes it then
      gives, EverySpellingGivesTheBytes says. */
  lemma ReadIffSpelling(address: string)
    requires HexAndColons(address)
    ensures Ipv6Bytes(address).Some? <==> IsSpelling(address)
  {
    if Ipv6Bytes(address).Some? {
      ReadIsSpelled(address, GroupValues(GroupTexts(Lower(address)).value).value);
    }
    if spelling, groups :| Spells(spelling, groups) && Written(spelling) == address {
      EverySpellingGivesTheBytes(spelling, groups);
    }
  }

  predicate IsOctet(s: string, v: nat) {
    s != "" && AllDecimal(s) && Value(s, 10) == v < 256
  }

  lemma ShortTailSplits(a: string, b: string, tail: string)
    requires AllDecimal(a) && AllDecimal(b) && tail == a + ['.'] + b
    ensures Split(tail, ':') == [tail] && Split(tail, '.') == [a, b] && tail != "" && '.' in tail
  {
    assert tail[|a|] == '.';
    FirstPart(tail, ':');
    SplitAtFirst(a, b, '.');
    FirstPart(b, '.');
  }

  lemma NothingPairs(high: Option<nat>, low: Option<nat>)
    requires high.None? && low.None?
    ensures Paired(high, low) == 0
  {
  }

  lemma ShortTailPairs(parts: seq<string>, high: nat, low: nat)
    requires |parts| == 2 && IsOctet(parts[0], high) && IsOctet(parts[1], low)
    ensures Paired(PartAt(parts, 0), PartAt(parts, 1)) == high * 256 + low
    ensures Paired(PartAt(parts, 2), PartAt(parts, 3)) == 0
  {
    PairedBytes(high, low);
    assert PartAt(parts, 0) == Some(high) && PartAt(parts, 1) == Some(low);
    NothingPairs(PartAt(parts, 2), PartAt(parts, 3));
  }

  lemma ShortTailExpands(tail: string, group: nat, zero: nat)
    requires tail != "" && '.' in tail && Split(tail, ':') == [tail]
    requires var parts := Split(tail, '.');
             Paired(PartAt(parts, 0), PartAt(parts, 1)) == group && Paired(PartAt(parts, 2), PartAt(parts, 3)) == zero
    requires group <= 0xFFFF && zero == 0
    ensures Reads(SplitGroups(tail), [group, zero])
  {
    assert [tail][..0] == [];
    PairIsRead(group, zero);
  }

  lemma LowIsKept(address: string, tail: string)
    requires address == [':', ':'] + tail && forall i :: 0 <= i < |tail| ==> tail[i] == '.' || IsDecimal(tail[i])
    ensures Lower(address) == address && SplitAtGaps(address) == [[], tail]
  {
    GapIsSplit([], tail);
    assert [] + [':', ':'] + tail == address;
  }

  lemma TailAlone(address: string, tail: string, groups: seq<nat>, last: seq<nat>)
    requires Lower(address) == address && SplitAtGaps(address) == [[], tail] && Reads(SplitGroups(tail), last)
    requires |last| == 2 && groups == ZeroGroups(6) + last
    ensures Ipv6Bytes(address) == Some(BytesOf(groups))
  {
    assert groups[6..] == last && groups[..0] == [];
    PartsAreRead(address, [], tail, groups, 0, 6);
    ReadGroups(GroupTexts(address).value, groups);
  }

  /** With a dot the parser takes more: a tail of two numbers is read as if two zeros followed. */
  lemma ShortTailIsRead(a: string, b: string, high: nat, low: nat, address: string, last: seq<nat>)
    requires IsOctet(a, high) && IsOctet(b, low)
    requires address == [':', ':'] + (a + ['.'] + b) && last == [high * 256 + low, 0]
    ensures Ipv6Bytes(address) == Some(BytesOf(ZeroGroups(6) + last))
  {
    var tail := a + ['.'] + b;
    ShortTailSplits(a, b, tail);
    ShortTailPairs(Split(tail, '.'), high, low);
    ShortTailExpands(tail, last[0], last[1]);
    LowIsKept(address, tail);
    TailAlone(address, tail, ZeroGroups(6) + last, last);
  }
}
