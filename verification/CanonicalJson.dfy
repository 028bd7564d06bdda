/** The canonical JSON printer over UTF-16 code units. Its text is JSON that denotes the value printed, with the keys of
    every object in code-unit order; so two values print alike exactly when they are equal up to the order of their
    object keys, and a printed object is never a proper prefix of another. */
module CanonicalJson {
  import opened Wrappers

  /** A UTF-16 code unit. Values hold strings as the engine does, so a surrogate may stand alone. */
  type Unit = n: nat | n < 0x10000
  type Text = seq<Unit>

  const QUOTE: Unit := 34
  const COMMA: Unit := 44
  const COLON: Unit := 58
  const OPEN_BRACKET: Unit := 91
  const BACKSLASH: Unit := 92
  const CLOSE_BRACKET: Unit := 93
  const OPEN_BRACE: Unit := 123
  const CLOSE_BRACE: Unit := 125

  /** The code units of a plain literal. */
  function Units(s: string): (t: Text)
    requires forall i :: 0 <= i < |s| ==> s[i] as int < 128
    ensures |t| == |s| && forall i :: 0 <= i < |s| ==> t[i] == s[i] as int
  {
    seq(|s|, i requires 0 <= i < |s| => s[i] as int)
  }

  /** A value as the body parser hands it over. A number is its shortest printed form. */
  datatype Json =
    | Undefined
    | Null
    | Bool(flag: bool)
    | Number(digits: Text)
    | String(units: Text)
    | Array(items: seq<Json>)
    | Object(members: seq<Member>)

  datatype Member = Member(key: Text, value: Json)

  predicate IsNumberUnit(u: Unit) {
    48 <= u <= 57 || u == 43 || u == 45 || u == 46 || u == 101
  }

  predicate IsNumber(digits: Text) {
    && digits != [] && (48 <= digits[0] <= 57 || digits[0] == 45)
    && forall i :: 0 <= i < |digits| ==> IsNumberUnit(digits[i])
  }

  /** Object keys are distinct and numbers are printed numbers, all the way down. */
  ghost predicate Valid(v: Json) {
    match v
    case Number(digits) => IsNumber(digits)
    case Array(items) => forall i :: 0 <= i < |items| ==> Valid(items[i])
    case Object(members) => Distinct(Keys(members)) && forall i :: 0 <= i < |members| ==> Valid(members[i].value)
    case _ => true
  }

  function Keys(members: seq<Member>): (keys: seq<Text>)
    ensures |keys| == |members| && forall i :: 0 <= i < |members| ==> keys[i] == members[i].key
  {
    seq(|members|, i requires 0 <= i < |members| => members[i].key)
  }

  ghost predicate Distinct(keys: seq<Text>) {
    forall i, j :: 0 <= i < j < |keys| ==> keys[i] != keys[j]
  }

  function IndexOf(keys: seq<Text>, key: Text): (i: nat)
    requires key in keys
    ensures i < |keys| && keys[i] == key
  {
    if keys[0] == key then 0 else 1 + IndexOf(keys[1..], key)
  }

  // String literals, with the escapes of section 7 of RFC 8259 that the engine writes.

  predicate HighSurrogate(u: Unit) { 0xD800 <= u < 0xDC00 }

  predicate LowSurrogate(u: Unit) { 0xDC00 <= u < 0xE000 }

  function HexDigit(n: nat): Unit
    requires n < 16
  {
    if n < 10 then 48 + n else 87 + n
  }

  function UnicodeEscape(u: Unit): Text {
    [BACKSLASH, 117, HexDigit(u / 0x1000), HexDigit(u / 0x100 % 16), HexDigit(u / 0x10 % 16), HexDigit(u % 16)]
  }

  function Escape(u: Unit): Text {
    if u == QUOTE || u == BACKSLASH then [BACKSLASH, u]
    else if u == 8 then [BACKSLASH, 98]
    else if u == 9 then [BACKSLASH, 116]
    else if u == 10 then [BACKSLASH, 110]
    else if u == 12 then [BACKSLASH, 102]
    else if u == 13 then [BACKSLASH, 114]
    else if u < 32 || HighSurrogate(u) || LowSurrogate(u) then UnicodeEscape(u)
    else [u]
  }

  predicate StartsWithPair(s: Text) {
    |s| >= 2 && HighSurrogate(s[0]) && LowSurrogate(s[1])
  }

  /** How many code units the next piece of a literal stands for, and the piece. */
  function Width(s: Text): (n: nat)
    requires s != []
    ensures 0 < n <= |s|
  {
    if StartsWithPair(s) then 2 else 1
  }

  function Piece(s: Text): Text
    requires s != []
  {
    if StartsWithPair(s) then s[..2] else Escape(s[0])
  }

  function Quoted(s: Text): Text {
    if s == [] then [QUOTE] else Piece(s) + Quoted(s[Width(s)..])
  }

  function Quote(s: Text): Text {
    [QUOTE] + Quoted(s)
  }

  // Key order: plain comparison of code units.

  predicate Before(a: Text, b: Text) {
    b != [] && (a == [] || a[0] < b[0] || (a[0] == b[0] && Before(a[1..], b[1..])))
  }

  function Insert(key: Text, sorted: seq<Text>): (r: seq<Text>)
    ensures multiset(r) == multiset(sorted) + multiset{key}
  {
    if sorted == [] || Before(key, sorted[0]) then [key] + sorted
    else
      assert sorted == [sorted[0]] + sorted[1..];
      [sorted[0]] + Insert(key, sorted[1..])
  }

  function Sort(keys: seq<Text>): (r: seq<Text>)
    ensures multiset(r) == multiset(keys)
  {
    if keys == [] then []
    else
      assert keys == [keys[0]] + keys[1..];
      Insert(keys[0], Sort(keys[1..]))
  }

  // The printer.

  function Commas(pieces: seq<Text>): Text {
    if pieces == [] then [] else [COMMA] + pieces[0] + Commas(pieces[1..])
  }

  function Join(pieces: seq<Text>): Text {
    if pieces == [] then [] else pieces[0] + Commas(pieces[1..])
  }

  function SortedKeys(v: Json): (keys: seq<Text>)
    requires v.Object?
    ensures forall key :: key in keys <==> key in Keys(v.members)
  {
    var keys := Sort(Keys(v.members));
    assert forall key :: key in keys <==> key in multiset(keys);
    assert forall key :: key in Keys(v.members) <==> key in multiset(Keys(v.members));
    keys
  }

  function Lookup(v: Json, key: Text): (r: Json)
    requires v.Object? && key in Keys(v.members)
    ensures r < v
  {
    v.members[IndexOf(Keys(v.members), key)].value
  }

  function Canonical(v: Json): Text {
    match v
    case Undefined => Units("null")
    case Null => Units("null")
    case Bool(flag) => if flag then Units("true") else Units("false")
    case Number(digits) => digits
    case String(units) => Quote(units)
    case Array(items) => [OPEN_BRACKET] + Join(Elements(v)) + [CLOSE_BRACKET]
    case Object(_) => [OPEN_BRACE] + Join(Fields(v)) + [CLOSE_BRACE]
  }

  function Elements(v: Json): seq<Text>
    requires v.Array?
    decreases v, 0
  {
    seq(|v.items|, i requires 0 <= i < |v.items| => Canonical(v.items[i]))
  }

  function Fields(v: Json): seq<Text>
    requires v.Object?
    decreases v, 0
  {
    var keys := SortedKeys(v);
    seq(|keys|, i requires 0 <= i < |keys| => Quote(keys[i]) + [COLON] + Canonical(Lookup(v, keys[i])))
  }

  // Reading JSON text, as RFC 8259 has it; the white space that may stand between tokens is not read.

  datatype Read<T> = Read(value: T, rest: Text)

  function HexValue(u: Unit): Option<nat> {
    if '0' as int <= u <= '9' as int then Some(u - '0' as int)
    else if 'a' as int <= u <= 'f' as int then Some(10 + u - 'a' as int)
    else if 'A' as int <= u <= 'F' as int then Some(10 + u - 'A' as int)
    else None
  }

  /** Four hexadecimal digits. */
  function ReadHex(t: Text): (r: Option<Unit>)
    requires |t| == 4
  {
    var a, b, c, d := HexValue(t[0]), HexValue(t[1]), HexValue(t[2]), HexValue(t[3]);
    if a.None? || b.None? || c.None? || d.None? then None
    else
      var u := a.value * 0x1000 + b.value * 0x100 + c.value * 0x10 + d.value;
      if u < 0x10000 then Some(u) else None
  }

  /** An escape, from after the backslash: section 7. */
  function ReadEscape(t: Text): (r: Option<Read<Unit>>)
    ensures r.Some? ==> |r.value.rest| < |t|
  {
    if t == [] then None
    else if t[0] == '"' as int || t[0] == '\\' as int || t[0] == '/' as int then Some(Read(t[0], t[1..]))
    else if t[0] == 'b' as int then Some(Read(0x08, t[1..]))
    else if t[0] == 'f' as int then Some(Read(0x0C, t[1..]))
    else if t[0] == 'n' as int then Some(Read(0x0A, t[1..]))
    else if t[0] == 'r' as int then Some(Read(0x0D, t[1..]))
    else if t[0] == 't' as int then Some(Read(0x09, t[1..]))
    else if t[0] == 'u' as int && |t| >= 5 && ReadHex(t[1..5]).Some? then Some(Read(ReadHex(t[1..5]).value, t[5..]))
    else None
  }

  function Prefixed<T>(first: T, r: Option<Read<seq<T>>>): Option<Read<seq<T>>> {
    if r.None? then None else Some(Read([first] + r.value.value, r.value.rest))
  }

  /** A string, from after its opening quotation mark: section 7. */
  function ReadString(t: Text): (r: Option<Read<Text>>)
    ensures r.Some? ==> |r.value.rest| < |t|
    decreases |t|
  {
    if t == [] || t[0] < 0x20 then None
    else if t[0] == '"' as int then Some(Read([], t[1..]))
    else if t[0] == '\\' as int then
      var e := ReadEscape(t[1..]);
      if e.None? then None else Prefixed(e.value.value, ReadString(e.value.rest))
    else Prefixed(t[0], ReadString(t[1..]))
  }

  /** The longest run of units a number may be made of. */
  function NumberLength(t: Text): (n: nat)
    ensures n <= |t|
  {
    if t == [] || !IsNumberUnit(t[0]) then 0 else 1 + NumberLength(t[1..])
  }

  /** A value: section 3. */
  function ReadValue(t: Text): (r: Option<Read<Json>>)
    ensures r.Some? ==> |r.value.rest| < |t|
    decreases |t|, 1
  {
    if t == [] then None
    else if t[0] == '"' as int then
      var r := ReadString(t[1..]);
      if r.None? then None else Some(Read(String(r.value.value), r.value.rest))
    else if t[0] == '[' as int then
      var r := ReadArray(t[1..]);
      if r.None? then None else Some(Read(Array(r.value.value), r.value.rest))
    else if t[0] == '{' as int then
      var r := ReadObject(t[1..]);
      if r.None? then None else Some(Read(Object(r.value.value), r.value.rest))
    else if t[0] == '-' as int || '0' as int <= t[0] <= '9' as int then
      Some(Read(Number(t[..NumberLength(t)]), t[NumberLength(t)..]))
    else if Units("true") <= t then Some(Read(Bool(true), t[4..]))
    else if Units("false") <= t then Some(Read(Bool(false), t[5..]))
    else if Units("null") <= t then Some(Read(Null, t[4..]))
    else None
  }

  /** An array, from after its opening bracket: section 5. */
  function ReadArray(t: Text): (r: Option<Read<seq<Json>>>)
    ensures r.Some? ==> |r.value.rest| < |t|
    decreases |t|, 3
  {
    if t != [] && t[0] == ']' as int then Some(Read([], t[1..])) else ReadItems(t)
  }

  /** One value and what follows it in an array. */
  function ReadItems(t: Text): (r: Option<Read<seq<Json>>>)
    ensures r.Some? ==> |r.value.rest| < |t|
    decreases |t|, 2
  {
    var v := ReadValue(t);
    if v.None? then None else Prefixed(v.value.value, ReadMoreItems(v.value.rest))
  }

  function ReadMoreItems(t: Text): (r: Option<Read<seq<Json>>>)
    ensures r.Some? ==> |r.value.rest| < |t|
    decreases |t|, 0
  {
    if t == [] then None
    else if t[0] == ']' as int then Some(Read([], t[1..]))
    else if t[0] == ',' as int then ReadItems(t[1..])
    else None
  }

  /** An object, from after its opening brace: section 4. */
  function ReadObject(t: Text): (r: Option<Read<seq<Member>>>)
    ensures r.Some? ==> |r.value.rest| < |t|
    decreases |t|, 3
  {
    if t != [] && t[0] == '}' as int then Some(Read([], t[1..])) else ReadMembers(t)
  }

  /** One name, its value, and what follows them in an object. */
  function ReadMembers(t: Text): (r: Option<Read<seq<Member>>>)
    ensures r.Some? ==> |r.value.rest| < |t|
    decreases |t|, 2
  {
    var name := if t != [] && t[0] == '"' as int then ReadString(t[1..]) else None;
    if name.None? || name.value.rest == [] || name.value.rest[0] != ':' as int then None
    else
      var v := ReadValue(name.value.rest[1..]);
      if v.None? then None else Prefixed(Member(name.value.value, v.value.value), ReadMoreMembers(v.value.rest))
  }

  function ReadMoreMembers(t: Text): (r: Option<Read<seq<Member>>>)
    ensures r.Some? ==> |r.value.rest| < |t|
    decreases |t|, 0
  {
    if t == [] then None
    else if t[0] == '}' as int then Some(Read([], t[1..]))
    else if t[0] == ',' as int then ReadMembers(t[1..])
    else None
  }

  // What is printed reads back.

  lemma SamePrefix(a: Text, b: Text, ra: Text, rb: Text)
    requires a + ra == b + rb && |a| == |b|
    ensures a == b && ra == rb
  {
    assert a == (a + ra)[..|a|] && b == (b + rb)[..|b|];
    assert ra == (a + ra)[|a|..] && rb == (b + rb)[|b|..];
  }

  lemma FourDigits(u: Unit)
    ensures u / 0x1000 < 16
    ensures u == u / 0x1000 * 0x1000 + u / 0x100 % 16 * 0x100 + u / 0x10 % 16 * 0x10 + u % 16
  {
    assert u / 0x100 == u / 0x1000 * 16 + u / 0x100 % 16;
    assert u / 0x10 == u / 0x100 * 16 + u / 0x10 % 16;
  }

  lemma Associative(x: Text, y: Text, z: Text)
    ensures (x + y) + z == x + (y + z)
  {
  }

  lemma DigitReadsBack(n: nat)
    requires n < 16
    ensures HexValue(HexDigit(n)) == Some(n)
  {
  }

  lemma UnicodeReadsBack(u: Unit, r: Text)
    ensures ReadEscape((UnicodeEscape(u) + r)[1..]) == Some(Read(u, r))
  {
    var t := (UnicodeEscape(u) + r)[1..];
    assert t[0] == 'u' as int && t[1..5] == UnicodeEscape(u)[2..] && t[5..] == r;
    FourDigits(u);
    DigitReadsBack(u / 0x1000);
    DigitReadsBack(u / 0x100 % 16);
    DigitReadsBack(u / 0x10 % 16);
    DigitReadsBack(u % 16);
  }

  lemma EscapeReadsBack(u: Unit, r: Text)
    ensures ReadString(Escape(u) + r) == Prefixed(u, ReadString(r))
  {
    var t := Escape(u) + r;
    assert t[0] == Escape(u)[0];
    if |Escape(u)| == 1 { assert t[1..] == r; }
    else if |Escape(u)| == 2 { assert t[1..][1..] == r && t[1..][0] == Escape(u)[1]; }
    else { UnicodeReadsBack(u, r); }
  }

  /** A unit is escaped only where it must be: the ones section 7 rules out, and surrogates without a partner. The
      escape is the one of two units if there is one, and otherwise has its digits in lower case. */
  lemma EscapeIsShortest(u: Unit)
    ensures var bare := u >= 0x20 && u != '"' as int && u != '\\' as int && !(0xD800 <= u < 0xE000);
            |Escape(u)| == if bare then 1 else if exists x: Unit :: ReadEscape([x]) == Some(Read(u, [])) then 2 else 6
    ensures |Escape(u)| > 2 ==> forall i :: 2 <= i < |Escape(u)| ==> !('A' as int <= Escape(u)[i] <= 'F' as int)
  {
    if |Escape(u)| == 2 { assert ReadEscape([Escape(u)[1]]) == Some(Read(u, [])); }
  }

  lemma FirstPiece(s: Text, r: Text)
    requires s != []
    ensures Width(s) <= |s| && Quoted(s) + r == Piece(s) + (Quoted(s[Width(s)..]) + r)
  {
    Associative(Piece(s), Quoted(s[Width(s)..]), r);
  }

  lemma PieceReadsBack(s: Text, r: Text)
    requires s != []
    ensures ReadString(Piece(s) + r) ==
            if Width(s) == 2 then Prefixed(s[0], Prefixed(s[1], ReadString(r))) else Prefixed(s[0], ReadString(r))
  {
    if StartsWithPair(s) {
      assert (Piece(s) + r)[1..] == [s[1]] + r && ([s[1]] + r)[1..] == r;
    } else {
      EscapeReadsBack(s[0], r);
    }
  }

  lemma {:induction false} StringReadsBack(s: Text, r: Text)
    ensures ReadString(Quoted(s) + r) == Some(Read(s, r))
    decreases |s|
  {
    if s == [] {
      assert (Quoted(s) + r)[1..] == r;
    } else {
      var n := Width(s);
      FirstPiece(s, r);
      StringReadsBack(s[n..], r);
      PieceReadsBack(s, Quoted(s[n..]) + r);
      PutTogether(s, n, r);
    }
  }

  lemma PutTogether(s: Text, n: nat, r: Text)
    requires 0 < n <= |s| && n <= 2
    ensures n == 1 ==> Prefixed(s[0], Some(Read(s[n..], r))) == Some(Read(s, r))
    ensures n == 2 ==> Prefixed(s[0], Prefixed(s[1], Some(Read(s[n..], r)))) == Some(Read(s, r))
  {
    assert [s[0]] + s[1..] == s;
    if n == 2 { assert [s[0]] + ([s[1]] + s[2..]) == s; }
  }

  /** Nothing in it has to be escaped: neither the units section 7 rules out, nor surrogates out of a pair. */
  predicate NeedsNoEscape(s: Text) {
    || s == []
    || (s[0] >= 0x20 && s[0] != QUOTE && s[0] != BACKSLASH && !(0xD800 <= s[0] < 0xE000) && NeedsNoEscape(s[1..]))
    || (|s| >= 2 && 0xD800 <= s[0] < 0xDC00 <= s[1] < 0xE000 && NeedsNoEscape(s[2..]))
  }

  /** Then it stands in its literal as it is, surrogate pairs included. */
  lemma {:induction false} PlainTextStaysBare(s: Text)
    requires NeedsNoEscape(s)
    ensures Quoted(s) == s + [QUOTE] && Quote(s) == [QUOTE] + s + [QUOTE]
    decreases |s|
  {
    if s != [] {
      var n := Width(s);
      PlainTextStaysBare(s[n..]);
      assert Piece(s) == s[..n] && s == s[..n] + s[n..];
    }
  }

  lemma AfterQuote(s: Text, r: Text)
    ensures (Quote(s) + r)[1..] == Quoted(s) + r
  {
  }

  /** A string literal reads back as the string it was printed from, whatever follows it. So it ends where it ends:
      equal texts that begin with a literal begin with the same one. */
  lemma QuoteReadable(a: Text, b: Text, ra: Text, rb: Text)
    requires Quote(a) + ra == Quote(b) + rb
    ensures a == b && ra == rb
    ensures ReadValue(Quote(a) + ra) == Some(Read(String(a), ra))
  {
    AfterQuote(a, ra);
    AfterQuote(b, rb);
    StringReadsBack(a, ra);
    StringReadsBack(b, rb);
  }

  // Sorting.

  lemma {:induction false} BeforeIsTotal(a: Text, b: Text)
    ensures Before(a, b) || Before(b, a) || a == b
    ensures !(Before(a, b) && Before(b, a)) && !Before(a, a)
    decreases |a|
  {
    if a != [] {
      BeforeIsTotal(a[1..], a[1..]);
      if b != [] {
        BeforeIsTotal(a[1..], b[1..]);
        assert a == [a[0]] + a[1..] && b == [b[0]] + b[1..];
      }
    }
  }

  lemma {:induction false} BeforeIsTransitive(a: Text, b: Text, c: Text)
    requires Before(a, b) && Before(b, c)
    ensures Before(a, c)
    decreases |a|
  {
    if a != [] && a[0] == b[0] == c[0] { BeforeIsTransitive(a[1..], b[1..], c[1..]); }
  }

  ghost predicate Ascending(keys: seq<Text>) {
    forall i, j :: 0 <= i < j < |keys| ==> Before(keys[i], keys[j])
  }

  lemma {:induction false} InsertKeepsAscending(key: Text, sorted: seq<Text>)
    requires Ascending(sorted) && key !in sorted
    ensures Ascending(Insert(key, sorted))
    decreases |sorted|
  {
    if sorted != [] {
      BeforeIsTotal(key, sorted[0]);
      var rest := sorted[1..];
      if Before(key, sorted[0]) {
        forall j | 0 <= j < |sorted| ensures Before(key, sorted[j]) {
          if j > 0 { BeforeIsTransitive(key, sorted[0], sorted[j]); }
        }
      } else {
        InsertKeepsAscending(key, rest);
        var r := Insert(key, rest);
        forall j | 0 <= j < |r| ensures Before(sorted[0], r[j]) {
          assert r[j] in multiset(r);
          assert r[j] == key || r[j] in rest;
        }
      }
    }
  }

  lemma {:induction false} SortIsAscending(keys: seq<Text>)
    requires Distinct(keys)
    ensures Ascending(Sort(keys))
    decreases |keys|
  {
    if keys != [] {
      SortIsAscending(keys[1..]);
      assert forall k :: k in Sort(keys[1..]) <==> k in multiset(keys[1..]);
      InsertKeepsAscending(keys[0], Sort(keys[1..]));
    }
  }

  lemma RestOfAscending(a: seq<Text>)
    requires Ascending(a) && a != []
    ensures forall k :: k in a[1..] <==> k in a && k != a[0]
  {
    BeforeIsTotal(a[0], a[0]);
    assert a == [a[0]] + a[1..];
    assert forall k :: k in a[1..] ==> Before(a[0], k);
  }

  /** There is one way to write a set of keys in ascending order. */
  lemma {:induction false} AscendingIsUnique(a: seq<Text>, b: seq<Text>)
    requires Ascending(a) && Ascending(b) && forall k :: k in a <==> k in b
    ensures a == b
    decreases |a|
  {
    assert forall i :: 0 <= i < |b| ==> b[i] in a;
    assert forall i :: 0 <= i < |a| ==> a[i] in b;
    if a != [] && b != [] {
      assert a[0] in b && b[0] in a;
      BeforeIsTotal(a[0], b[0]);
      assert a[0] == b[0];
      RestOfAscending(a);
      RestOfAscending(b);
      AscendingIsUnique(a[1..], b[1..]);
    }
  }

  /** The order of code units: where two texts first differ, the smaller unit comes first, and a shorter text before its
      continuations. */
  ghost predicate CodeUnitOrder(a: Text, b: Text) {
    exists i: nat :: SmallerAt(a, b, i)
  }

  ghost predicate SmallerAt(a: Text, b: Text, i: nat) {
    i <= |a| && i < |b| && a[..i] == b[..i] && (i < |a| ==> a[i] < b[i])
  }

  lemma StartAlike(a: Text, b: Text, i: nat)
    requires SmallerAt(a, b, i) && i > 0
    ensures a != [] && b != [] && a[0] == b[0]
  {
    assert a[..i][0] == b[..i][0];
  }

  lemma {:induction false} BeforeIsCodeUnitOrder(a: Text, b: Text)
    ensures Before(a, b) <==> CodeUnitOrder(a, b)
    decreases |a|
  {
    if a == [] || b == [] || a[0] != b[0] {
      if b != [] && (a == [] || a[0] < b[0]) { assert SmallerAt(a, b, 0); }
      if i: nat :| SmallerAt(a, b, i) {
        if i > 0 { StartAlike(a, b, i); }
      }
    } else {
      BeforeIsCodeUnitOrder(a[1..], b[1..]);
      if i: nat :| SmallerAt(a[1..], b[1..], i) {
        assert a[..i + 1] == [a[0]] + a[1..][..i] && b[..i + 1] == [b[0]] + b[1..][..i];
        assert SmallerAt(a, b, i + 1);
      }
      if i: nat :| SmallerAt(a, b, i) {
        assert i > 0;
        assert a[1..][..i - 1] == a[..i][1..] && b[1..][..i - 1] == b[..i][1..];
        assert SmallerAt(a[1..], b[1..], i - 1);
      }
    }
  }

  // Equality up to key order.

  /** Equal up to the order of object keys, with an absent value counting as null. */
  ghost predicate Same(a: Json, b: Json) {
    match a
    case Undefined => b.Undefined? || b.Null?
    case Null => b.Undefined? || b.Null?
    case Array(items) => b.Array? && |items| == |b.items| && forall i :: 0 <= i < |items| ==> Same(items[i], b.items[i])
    case Object(members) =>
      && b.Object?
      && (forall key :: key in Keys(members) <==> key in Keys(b.members))
      && (forall i, j :: 0 <= i < |members| && 0 <= j < |b.members| && members[i].key == b.members[j].key
            ==> Same(members[i].value, b.members[j].value))
    case _ => a == b
  }

  /** In every object, all the way down, the keys stand in code-unit order. */
  ghost predicate Orderly(v: Json) {
    match v
    case Array(items) => forall i :: 0 <= i < |items| ==> Orderly(items[i])
    case Object(members) =>
      && (forall i, j :: 0 <= i < j < |members| ==> CodeUnitOrder(members[i].key, members[j].key))
      && forall i :: 0 <= i < |members| ==> Orderly(members[i].value)
    case _ => true
  }

  // A whole value.

  /** What can follow a value inside another one, or at the end. */
  predicate Ends(r: Text) {
    r == [] || r[0] == COMMA || r[0] == CLOSE_BRACKET || r[0] == CLOSE_BRACE
  }

  lemma {:induction false} NumberEnds(digits: Text, r: Text)
    requires (forall i :: 0 <= i < |digits| ==> IsNumberUnit(digits[i])) && Ends(r)
    ensures NumberLength(digits + r) == |digits|
    decreases |digits|
  {
    if digits != [] {
      NumberEnds(digits[1..], r);
      assert (digits + r)[1..] == digits[1..] + r;
    }
  }

  /** The first code unit tells what kind of value follows. */
  function Mark(v: Json): Unit
    requires v.Number? ==> v.digits != []
  {
    match v
    case Undefined => 110
    case Null => 110
    case Bool(flag) => if flag then 116 else 102
    case Number(digits) => digits[0]
    case String(_) => QUOTE
    case Array(_) => OPEN_BRACKET
    case Object(_) => OPEN_BRACE
  }

  lemma StartsWithMark(v: Json, r: Text)
    requires Valid(v)
    ensures |Canonical(v)| > 0 && (Canonical(v) + r)[0] == Mark(v)
    ensures Mark(v) != COMMA && Mark(v) != CLOSE_BRACKET && Mark(v) != CLOSE_BRACE
  {
  }

  lemma NextPiece(pieces: seq<Text>, p: nat, r: Text)
    requires p < |pieces|
    ensures Commas(pieces[p..]) + r == [COMMA] + (pieces[p] + (Commas(pieces[p + 1..]) + r))
  {
    assert pieces[p..][1..] == pieces[p + 1..];
    var rest := Commas(pieces[p + 1..]);
    assert Commas(pieces[p..]) == [COMMA] + pieces[p] + rest;
    assert [COMMA] + pieces[p] + rest == [COMMA] + (pieces[p] + rest);
    Associative([COMMA], pieces[p] + rest, r);
    Associative(pieces[p], rest, r);
  }

  lemma Joined(pieces: seq<Text>, r: Text)
    requires pieces != []
    ensures [COMMA] + (Join(pieces) + r) == Commas(pieces) + r
  {
    Associative(pieces[0], Commas(pieces[1..]), r);
    NextPiece(pieces, 0, r);
    assert pieces[0..] == pieces;
  }

  lemma Wrapped(open: Unit, inner: Text, close: Unit, r: Text)
    ensures (([open] + inner + [close]) + r)[1..] == inner + ([close] + r)
  {
  }

  function Field(v: Json, key: Text): Text
    requires v.Object? && key in Keys(v.members)
  {
    Quote(key) + [COLON] + Canonical(Lookup(v, key))
  }

  lemma LookupIsValid(v: Json, key: Text)
    requires v.Object? && key in Keys(v.members) && Valid(v)
    ensures Valid(Lookup(v, key))
  {
  }

  lemma FieldApart(key: Text, value: Text, r: Text)
    ensures (Quote(key) + [COLON] + value) + r == Quote(key) + ([COLON] + (value + r))
  {
    Associative(Quote(key), [COLON], value);
    Associative(Quote(key), [COLON] + value, r);
    Associative([COLON], value, r);
  }

  lemma FieldAt(v: Json, p: nat)
    requires v.Object? && p < |SortedKeys(v)|
    ensures SortedKeys(v)[p] in Keys(v.members) && |Fields(v)| == |SortedKeys(v)|
    ensures Fields(v)[p] == Field(v, SortedKeys(v)[p])
  {
  }

  /** v reads back as w: the same up to key order, with the keys in order. */
  ghost predicate Denotes(v: Json, w: Json) {
    Same(v, w) && Orderly(w)
  }

  ghost predicate ReadsAs(v: Json, read: Option<Read<Json>>, r: Text) {
    read.Some? && read.value.rest == r && Denotes(v, read.value.value)
  }

  /** The printed text is JSON for the value: reading it uses up all of it, whatever follows, and gives the value up to
      key order, null standing for undefined, with the keys of every object in code-unit order. */
  lemma {:induction false} ReadsBack(v: Json, r: Text)
    requires Valid(v) && (v.Number? ==> Ends(r))
    ensures ReadsAs(v, ReadValue(Canonical(v) + r), r)
    decreases v, 1, 0
  {
    StartsWithMark(v, r);
    match v
    case Number(digits) =>
      NumberEnds(digits, r);
      assert (digits + r)[..|digits|] == digits && (digits + r)[|digits|..] == r;
    case String(units) => QuoteReadable(units, units, r, r);
    case Array(_) => ArrayReadsBack(v, r);
    case Object(_) => ObjectReadsBack(v, r);
    case _ => WordReadsBack(v, r);
  }

  lemma WordReadsBack(v: Json, r: Text)
    requires v.Undefined? || v.Null? || v.Bool?
    ensures ReadsAs(v, ReadValue(Canonical(v) + r), r)
  {
    var t := Canonical(v) + r;
    assert t[..|Canonical(v)|] == Canonical(v) && t[|Canonical(v)|..] == r;
    assert t[0] == Canonical(v)[0];
  }

  /** The items read, from the p-th on. */
  ghost predicate ItemsRead(v: Json, p: nat, read: Option<Read<seq<Json>>>, r: Text)
    requires v.Array? && p <= |v.items|
  {
    && read.Some? && read.value.rest == r && |read.value.value| == |v.items| - p
    && forall i :: p <= i < |v.items| ==> Denotes(v.items[i], read.value.value[i - p])
  }

  lemma {:induction false} ArrayReadsBack(v: Json, r: Text)
    requires v.Array? && Valid(v)
    ensures ReadsAs(v, ReadValue(Canonical(v) + r), r)
    decreases v, 0, |v.items| + 1
  {
    ItemsReadBack(v, 0, r);
    ArrayIsRead(v, r);
    Wrapped(OPEN_BRACKET, Join(Elements(v)), CLOSE_BRACKET, r);
    assert (Canonical(v) + r)[0] == OPEN_BRACKET;
  }

  lemma ArrayIsRead(v: Json, r: Text)
    requires v.Array? && Valid(v)
    ensures ReadArray(Join(Elements(v)) + ([CLOSE_BRACKET] + r)) ==
            ReadMoreItems(Commas(Elements(v)[0..]) + ([CLOSE_BRACKET] + r))
  {
    var inner := Join(Elements(v)) + ([CLOSE_BRACKET] + r);
    assert Elements(v)[0..] == Elements(v);
    if v.items == [] {
      assert inner == [CLOSE_BRACKET] + r;
    } else {
      Joined(Elements(v), [CLOSE_BRACKET] + r);
      NextItems(inner);
      StartsWithMark(v.items[0], []);
      assert inner[0] == Canonical(v.items[0])[0];
    }
  }

  lemma NextItems(t: Text)
    ensures ReadMoreItems([COMMA] + t) == ReadItems(t)
  {
    assert ([COMMA] + t)[1..] == t;
  }

  lemma OneMoreItem(v: Json, p: nat, w: Json, rest: Option<Read<seq<Json>>>, r: Text)
    requires v.Array? && p < |v.items| && Denotes(v.items[p], w) && ItemsRead(v, p + 1, rest, r)
    ensures ItemsRead(v, p, Prefixed(w, rest), r)
  {
  }

  lemma {:induction false} ItemsReadBack(v: Json, p: nat, r: Text)
    requires v.Array? && Valid(v) && p <= |v.items|
    ensures ItemsRead(v, p, ReadMoreItems(Commas(Elements(v)[p..]) + ([CLOSE_BRACKET] + r)), r)
    decreases v, 0, |v.items| - p
  {
    var pieces, close := Elements(v), [CLOSE_BRACKET] + r;
    if p == |v.items| {
      assert pieces[p..] == [] && Commas(pieces[p..]) + close == close && close[1..] == r;
    } else {
      var more := Commas(pieces[p + 1..]) + close;
      AfterPiece(pieces, p + 1, CLOSE_BRACKET, r);
      ReadsBack(v.items[p], more);
      ItemsReadBack(v, p + 1, r);
      NextPiece(pieces, p, close);
      NextItems(pieces[p] + more);
      OneMoreItem(v, p, ReadValue(pieces[p] + more).value.value, ReadMoreItems(more), r);
    }
  }

  lemma AfterPiece(pieces: seq<Text>, p: nat, close: Unit, r: Text)
    requires p <= |pieces| && (close == CLOSE_BRACKET || close == CLOSE_BRACE)
    ensures var t := Commas(pieces[p..]) + ([close] + r);
            Ends(t) && |t| > 0 && t[0] == if p < |pieces| then COMMA else close
  {
    if p < |pieces| { NextPiece(pieces, p, [close] + r); } else { assert pieces[p..] == []; }
  }

  /** The members read, from the p-th key on. */
  ghost predicate MembersRead(v: Json, p: nat, read: Option<Read<seq<Member>>>, r: Text)
    requires v.Object? && p <= |SortedKeys(v)|
  {
    var keys := SortedKeys(v);
    && read.Some? && read.value.rest == r && |read.value.value| == |keys| - p
    && forall i :: p <= i < |keys| ==>
         && read.value.value[i - p].key == keys[i]
         && Denotes(Lookup(v, keys[i]), read.value.value[i - p].value)
  }

  lemma {:induction false} ObjectReadsBack(v: Json, r: Text)
    requires v.Object? && Valid(v)
    ensures ReadsAs(v, ReadValue(Canonical(v) + r), r)
    decreases v, 0, |SortedKeys(v)| + 1
  {
    var inner := Join(Fields(v)) + ([CLOSE_BRACE] + r);
    MembersReadBack(v, 0, r);
    ObjectIsRead(v, r);
    MembersDenote(v, ReadObject(inner), r);
    Wrapped(OPEN_BRACE, Join(Fields(v)), CLOSE_BRACE, r);
    BracedIsObject(Canonical(v) + r, inner);
  }

  lemma BracedIsObject(t: Text, inner: Text)
    requires t != [] && t[0] == OPEN_BRACE && t[1..] == inner && ReadObject(inner).Some?
    ensures ReadValue(t) == Some(Read(Object(ReadObject(inner).value.value), ReadObject(inner).value.rest))
  {
  }

  lemma ObjectIsRead(v: Json, r: Text)
    requires v.Object?
    ensures ReadObject(Join(Fields(v)) + ([CLOSE_BRACE] + r)) ==
            ReadMoreMembers(Commas(Fields(v)[0..]) + ([CLOSE_BRACE] + r))
  {
    var inner := Join(Fields(v)) + ([CLOSE_BRACE] + r);
    assert Fields(v)[0..] == Fields(v);
    if Fields(v) == [] {
      assert inner == [CLOSE_BRACE] + r;
    } else {
      Joined(Fields(v), [CLOSE_BRACE] + r);
      NextMembers(inner);
      FieldAt(v, 0);
      assert inner[0] == QUOTE;
    }
  }

  lemma {:induction false} MembersReadBack(v: Json, p: nat, r: Text)
    requires v.Object? && Valid(v) && p <= |SortedKeys(v)|
    ensures MembersRead(v, p, ReadMoreMembers(Commas(Fields(v)[p..]) + ([CLOSE_BRACE] + r)), r)
    decreases v, 0, |SortedKeys(v)| - p
  {
    var pieces, close, keys := Fields(v), [CLOSE_BRACE] + r, SortedKeys(v);
    if p == |keys| {
      assert pieces[p..] == [] && Commas(pieces[p..]) + close == close && close[1..] == r;
    } else {
      var more := Commas(pieces[p + 1..]) + close;
      FieldAt(v, p);
      AfterPiece(pieces, p + 1, CLOSE_BRACE, r);
      MemberReadsBack(v, keys[p], more);
      MembersReadBack(v, p + 1, r);
      NextPiece(pieces, p, close);
      NextMembers(pieces[p] + more);
      var w :| Denotes(Lookup(v, keys[p]), w)
               && ReadMembers(pieces[p] + more) == Prefixed(Member(keys[p], w), ReadMoreMembers(more));
      OneMoreMember(v, p, w, ReadMoreMembers(more), r);
    }
  }

  lemma NextMembers(t: Text)
    ensures ReadMoreMembers([COMMA] + t) == ReadMembers(t)
  {
    assert ([COMMA] + t)[1..] == t;
  }

  lemma OneMoreMember(v: Json, p: nat, w: Json, rest: Option<Read<seq<Member>>>, r: Text)
    requires v.Object? && p < |SortedKeys(v)|
    requires Denotes(Lookup(v, SortedKeys(v)[p]), w) && MembersRead(v, p + 1, rest, r)
    ensures MembersRead(v, p, Prefixed(Member(SortedKeys(v)[p], w), rest), r)
  {
  }

  lemma {:induction false} MemberReadsBack(v: Json, key: Text, r: Text)
    requires v.Object? && Valid(v) && key in Keys(v.members) && Ends(r)
    ensures exists w :: Denotes(Lookup(v, key), w)
                        && ReadMembers(Field(v, key) + r) == Prefixed(Member(key, w), ReadMoreMembers(r))
    decreases v, 0, 0
  {
    var value := Lookup(v, key);
    LookupIsValid(v, key);
    ReadsBack(value, r);
    NameReadsBack(key, Canonical(value), r);
    MemberIsRead(Field(v, key) + r, key, Canonical(value) + r);
    assert Denotes(value, ReadValue(Canonical(value) + r).value.value);
  }

  lemma NameReadsBack(key: Text, value: Text, r: Text)
    ensures var t := (Quote(key) + [COLON] + value) + r;
            t[0] == '"' as int && ReadString(t[1..]) == Some(Read(key, [COLON] + (value + r)))
  {
    FieldApart(key, value, r);
    AfterQuote(key, [COLON] + (value + r));
    StringReadsBack(key, [COLON] + (value + r));
  }

  lemma MemberIsRead(t: Text, key: Text, after: Text)
    requires t != [] && t[0] == '"' as int && ReadString(t[1..]) == Some(Read(key, [COLON] + after))
    requires ReadValue(after).Some?
    ensures var v := ReadValue(after).value;
            ReadMembers(t) == Prefixed(Member(key, v.value), ReadMoreMembers(v.rest))
  {
    assert ([COLON] + after)[1..] == after;
  }

  lemma MembersDenote(v: Json, read: Option<Read<seq<Member>>>, r: Text)
    requires v.Object? && Valid(v) && MembersRead(v, 0, read, r)
    ensures Denotes(v, Object(read.value.value))
  {
    MembersAreOrderly(v, read.value.value);
    MembersAreSame(v, read.value.value);
  }

  lemma MembersAreSame(v: Json, members: seq<Member>)
    requires v.Object? && Valid(v) && |members| == |SortedKeys(v)|
    requires forall i :: 0 <= i < |members| ==>
               members[i].key == SortedKeys(v)[i] && Same(Lookup(v, members[i].key), members[i].value)
    ensures Same(v, Object(members))
  {
    assert Keys(members) == SortedKeys(v);
    forall i, j | 0 <= i < |v.members| && 0 <= j < |members| && v.members[i].key == members[j].key
      ensures Same(v.members[i].value, members[j].value)
    {
      IndexIsUnique(v, i);
    }
  }

  lemma MembersAreOrderly(v: Json, members: seq<Member>)
    requires v.Object? && Valid(v) && |members| == |SortedKeys(v)|
    requires forall i :: 0 <= i < |members| ==> members[i].key == SortedKeys(v)[i] && Orderly(members[i].value)
    ensures Orderly(Object(members))
  {
    SortIsAscending(Keys(v.members));
    forall i, j | 0 <= i < j < |members| ensures CodeUnitOrder(members[i].key, members[j].key) {
      BeforeIsCodeUnitOrder(members[i].key, members[j].key);
    }
  }

  lemma IndexIsUnique(v: Json, i: nat)
    requires v.Object? && Valid(v) && i < |v.members|
    ensures Lookup(v, v.members[i].key) == v.members[i].value
  {
    var keys := Keys(v.members);
    assert keys[i] == v.members[i].key;
    assert IndexOf(keys, keys[i]) == i;
  }

  lemma {:induction false} SamePrintsAlike(a: Json, b: Json)
    requires Valid(a) && Valid(b) && Same(a, b)
    ensures Canonical(a) == Canonical(b)
    decreases a
  {
    match a
    case Array(items) =>
      forall i | 0 <= i < |items| ensures Canonical(items[i]) == Canonical(b.items[i]) {
        SamePrintsAlike(items[i], b.items[i]);
      }
      assert Elements(a) == Elements(b);
    case Object(members) =>
      SortIsAscending(Keys(members));
      SortIsAscending(Keys(b.members));
      AscendingIsUnique(SortedKeys(a), SortedKeys(b));
      forall key | key in Keys(members) ensures Canonical(Lookup(a, key)) == Canonical(Lookup(b, key)) {
        LookupIsValid(a, key);
        LookupIsValid(b, key);
        SamePrintsAlike(Lookup(a, key), Lookup(b, key));
      }
      assert Fields(a) == Fields(b);
    case _ =>
  }

  /** Two values that read back as one and the same are the same. */
  lemma {:induction false} SameAsBoth(a: Json, b: Json, w: Json)
    requires Same(a, w) && Same(b, w)
    ensures Same(a, b)
    decreases w
  {
    match w
    case Array(items) => forall i | 0 <= i < |items| { SameAsBoth(a.items[i], b.items[i], items[i]); }
    case Object(members) =>
      forall i, j | 0 <= i < |a.members| && 0 <= j < |b.members| && a.members[i].key == b.members[j].key
        ensures Same(a.members[i].value, b.members[j].value)
      {
        assert Keys(a.members)[i] in Keys(members);
        var k :| 0 <= k < |members| && members[k].key == a.members[i].key;
        SameAsBoth(a.members[i].value, b.members[j].value, members[k].value);
      }
    case _ =>
  }

  lemma AlikeIsSame(a: Json, b: Json)
    requires Valid(a) && Valid(b) && Canonical(a) == Canonical(b)
    ensures Same(a, b)
  {
    ReadsBack(a, []);
    ReadsBack(b, []);
    SameAsBoth(a, b, ReadValue(Canonical(a) + []).value.value);
  }

  /** The printer is injective up to key order, and blind to it. */
  lemma PrintedAlikeIffSame(a: Json, b: Json)
    requires Valid(a) && Valid(b)
    ensures Canonical(a) == Canonical(b) <==> Same(a, b)
  {
    if Canonical(a) == Canonical(b) { AlikeIsSame(a, b); }
    if Same(a, b) { SamePrintsAlike(a, b); }
  }

  /** A printed value ends where it ends: equal texts that begin with a value begin with the same one. */
  lemma Readable(a: Json, b: Json, ra: Text, rb: Text)
    requires Valid(a) && Valid(b) && Canonical(a) + ra == Canonical(b) + rb
    requires a.Number? && b.Number? ==> Ends(ra) && Ends(rb)
    ensures Canonical(a) == Canonical(b) && ra == rb
  {
    StartsWithMark(a, ra);
    StartsWithMark(b, rb);
    assert a.Number? <==> b.Number?;
    ReadsBack(a, ra);
    ReadsBack(b, rb);
    SameAsBoth(a, b, ReadValue(Canonical(a) + ra).value.value);
    SamePrintsAlike(a, b);
  }

  /** Whatever follows them, printed objects are told apart by where they end. */
  lemma ObjectsArePrefixFree(a: Json, b: Json, ra: Text, rb: Text)
    requires a.Object? && b.Object? && Valid(a) && Valid(b)
    ensures Canonical(a) + ra == Canonical(b) + rb <==> Same(a, b) && ra == rb
  {
    if Canonical(a) + ra == Canonical(b) + rb {
      Readable(a, b, ra, rb);
      AlikeIsSame(a, b);
    }
    if Same(a, b) { SamePrintsAlike(a, b); }
  }
}
