/** Keyset pagination, newest first, over a table that may change between any two pages. */
module Keyset {
  import opened Wrappers
  import opened CanonicalJson
  import opened Sets
  import opened Splitting

  const SEPARATOR: Unit := 124

  /** What the order and the cursor see of a row. */
  datatype Row = Row(createdAt: int, id: Text)

  predicate OlderThan(r: Row, c: Row) {
    r.createdAt < c.createdAt || (r.createdAt == c.createdAt && Before(r.id, c.id))
  }

  lemma OlderIsTotal(a: Row, b: Row)
    ensures OlderThan(a, b) || OlderThan(b, a) || a == b
    ensures !(OlderThan(a, b) && OlderThan(b, a)) && !OlderThan(a, a)
  {
    BeforeIsTotal(a.id, b.id);
  }

  lemma OlderIsTransitive(a: Row, b: Row, c: Row)
    requires OlderThan(a, b) && OlderThan(b, c)
    ensures OlderThan(a, c)
  {
    if a.createdAt == b.createdAt == c.createdAt { BeforeIsTransitive(a.id, b.id, c.id); }
  }

  // The cursor.

  /** The library functions a cursor goes through: a date to its ISO form and back, a text to base64url and back. */
  datatype Codec = Codec(format: int -> Text, parse: Text -> Option<int>, wrap: Text -> Text, unwrap: Text -> Text)

  /** Times a date can hold. */
  predicate IsDate(at: int) {
    -8_640_000_000_000_000 <= at <= 8_640_000_000_000_000
  }

  /** No surrogates, paired or not. */
  predicate IsPlain(text: Text) {
    forall i :: 0 <= i < |text| ==> !HighSurrogate(text[i]) && !LowSurrogate(text[i])
  }

  /** What the library promises: each pair undoes itself, and no printed date holds the separator. */
  ghost predicate Faithful(codec: Codec) {
    && (forall at: int :: IsDate(at) ==> codec.parse(codec.format(at)) == Some(at))
    && (forall at: int :: IsDate(at) ==> SEPARATOR !in codec.format(at) && IsPlain(codec.format(at)))
    && (forall text: Text :: IsPlain(text) ==> codec.unwrap(codec.wrap(text)) == text)
  }

  function EncodeCursor(codec: Codec, row: Row): Text {
    codec.wrap(codec.format(row.createdAt) + [SEPARATOR] + row.id)
  }

  /** None is the "cursor is malformed" error. */
  function DecodeCursor(codec: Codec, cursor: Text): Option<Row> {
    var parts := Split(codec.unwrap(cursor), SEPARATOR);
    var at := codec.parse(parts[0]);
    if |parts| < 2 || parts[1] == [] || at.None? then None else Some(Row(at.value, parts[1]))
  }

  /** A cursor decodes to the row it encodes exactly when the id is neither empty nor holds the separator. */
  lemma CursorRoundTrip(codec: Codec, row: Row)
    requires Faithful(codec) && IsDate(row.createdAt) && IsPlain(row.id)
    ensures DecodeCursor(codec, EncodeCursor(codec, row)) == Some(row) <==> row.id != [] && SEPARATOR !in row.id
  {
    assert IsPlain(codec.format(row.createdAt) + [SEPARATOR] + row.id);
    SplitAtFirst(codec.format(row.createdAt), row.id, SEPARATOR);
    FirstPart(row.id, SEPARATOR);
  }

  // One page.

  datatype Page = Page(rows: seq<Row>, next: Option<Text>)

  function Paginate(codec: Codec, rows: seq<Row>, limit: nat): Page
    requires limit > 0
  {
    if |rows| > limit then Page(rows[..limit], Some(EncodeCursor(codec, rows[limit - 1]))) else Page(rows, None)
  }

  ghost predicate Descending(rows: seq<Row>) {
    forall i, j :: 0 <= i < j < |rows| ==> OlderThan(rows[j], rows[i])
  }

  ghost predicate Eligible(r: Row, table: set<Row>, after: Option<Row>) {
    r in table && (after.Some? ==> OlderThan(r, after.value))
  }

  /** What the database answers: of the rows that match and lie past the cursor, the newest limit + 1 in order. */
  ghost predicate Answers(rows: seq<Row>, table: set<Row>, after: Option<Row>, limit: nat) {
    && Descending(rows) && |rows| <= limit + 1
    && (forall r :: r in rows ==> Eligible(r, table, after))
    && (forall r :: Eligible(r, table, after) && r !in rows ==>
          |rows| == limit + 1 && forall q :: q in rows ==> OlderThan(r, q))
  }

  // A walk.

  /** One request: the rows that matched when it ran, and the database's answer. */
  datatype Fetch = Fetch(table: set<Row>, rows: seq<Row>)

  predicate CursorSafe(row: Row) {
    IsDate(row.createdAt) && IsPlain(row.id) && row.id != [] && SEPARATOR !in row.id
  }

  /** The walk a client makes by following nextCursor, starting after `after`. */
  ghost predicate Walk(codec: Codec, limit: nat, after: Option<Row>, fetches: seq<Fetch>)
    requires limit > 0
    decreases |fetches|
  {
    fetches == [] ||
    (&& Answers(fetches[0].rows, fetches[0].table, after, limit)
     && (forall r :: r in fetches[0].table ==> CursorSafe(r))
     && (|fetches| > 1 ==>
           var next := Paginate(codec, fetches[0].rows, limit).next;
           next.Some? && DecodeCursor(codec, next.value).Some?
           && Walk(codec, limit, DecodeCursor(codec, next.value), fetches[1..])))
  }

  function Returned(codec: Codec, limit: nat, fetches: seq<Fetch>): seq<Row>
    requires limit > 0
    decreases |fetches|
  {
    if fetches == [] then [] else Paginate(codec, fetches[0].rows, limit).rows + Returned(codec, limit, fetches[1..])
  }

  predicate Finished(codec: Codec, limit: nat, fetches: seq<Fetch>)
    requires limit > 0
  {
    fetches != [] && Paginate(codec, fetches[|fetches| - 1].rows, limit).next == None
  }

  /** The next page starts after the last row of this one. */
  lemma NextStartsAfterLast(codec: Codec, limit: nat, after: Option<Row>, fetches: seq<Fetch>)
    requires limit > 0 && Faithful(codec) && Walk(codec, limit, after, fetches) && |fetches| > 1
    ensures |fetches[0].rows| == limit + 1 && Walk(codec, limit, Some(fetches[0].rows[limit - 1]), fetches[1..])
  {
    var last := fetches[0].rows[limit - 1];
    assert last in fetches[0].rows && last in fetches[0].table;
    CursorRoundTrip(codec, last);
  }

  lemma DescendingJoins(page: seq<Row>, rest: seq<Row>)
    requires Descending(page) && Descending(rest) && page != []
    requires forall r :: r in rest ==> OlderThan(r, page[|page| - 1])
    ensures Descending(page + rest)
  {
    var n := |page|;
    forall i, j | 0 <= i < n && 0 <= j < |rest| ensures OlderThan(rest[j], page[i]) {
      assert rest[j] in rest;
      if i < n - 1 { OlderIsTransitive(rest[j], page[n - 1], page[i]); }
    }
    var all := page + rest;
    forall i, j | 0 <= i < j < |all| ensures OlderThan(all[j], all[i]) {
      if i < n <= j { assert OlderThan(rest[j - n], page[i]); }
      if n <= i { assert OlderThan(rest[j - n], rest[i - n]); }
    }
  }

  lemma {:induction false} ReturnedDescends(codec: Codec, limit: nat, after: Option<Row>, fetches: seq<Fetch>)
    requires limit > 0 && Faithful(codec) && Walk(codec, limit, after, fetches)
    ensures Descending(Returned(codec, limit, fetches))
    ensures after.Some? ==> forall r :: r in Returned(codec, limit, fetches) ==> OlderThan(r, after.value)
    decreases |fetches|
  {
    if |fetches| == 1 {
      var page := Paginate(codec, fetches[0].rows, limit).rows;
      assert Returned(codec, limit, fetches) == page + [] == page;
      forall r | r in page ensures after.Some? ==> OlderThan(r, after.value) {
        assert r in fetches[0].rows;
      }
    } else if |fetches| > 1 {
      NextStartsAfterLast(codec, limit, after, fetches);
      var page := fetches[0].rows[..limit];
      var last := page[limit - 1];
      ReturnedDescends(codec, limit, Some(last), fetches[1..]);
      var rest := Returned(codec, limit, fetches[1..]);
      DescendingJoins(page, rest);
      if after.Some? {
        forall r | r in page + rest ensures OlderThan(r, after.value) {
          assert last in fetches[0].rows;
          if r in page { assert r in fetches[0].rows; } else { OlderIsTransitive(r, last, after.value); }
        }
      }
    }
  }

  /** Later rows come first, and of rows created at once the one whose id is later in code-unit order. */
  ghost predicate NewestFirst(rows: seq<Row>) {
    forall i, j :: 0 <= i < j < |rows| ==>
      || rows[i].createdAt > rows[j].createdAt
      || (rows[i].createdAt == rows[j].createdAt && CodeUnitOrder(rows[j].id, rows[i].id))
  }

  lemma DescendingIsNewestFirst(rows: seq<Row>)
    ensures Descending(rows) <==> NewestFirst(rows)
  {
    forall i, j | 0 <= i < j < |rows| { BeforeIsCodeUnitOrder(rows[j].id, rows[i].id); }
  }

  /** However the table changes between pages, a walk returns its rows newest first, none of them twice, and only rows
      that matched at some page. */
  lemma NoRowTwice(codec: Codec, limit: nat, fetches: seq<Fetch>)
    requires limit > 0 && Faithful(codec) && Walk(codec, limit, None, fetches)
    ensures var rows := Returned(codec, limit, fetches);
            && NewestFirst(rows)
            && (forall i, j :: 0 <= i < j < |rows| ==> rows[i] != rows[j])
            && forall r :: r in rows ==> exists i :: 0 <= i < |fetches| && r in fetches[i].table
  {
    ReturnedDescends(codec, limit, None, fetches);
    var rows := Returned(codec, limit, fetches);
    DescendingIsNewestFirst(rows);
    forall r | r in rows ensures exists i :: 0 <= i < |fetches| && r in fetches[i].table {
      ReturnedMatched(codec, limit, None, fetches, r);
    }
    forall i, j | 0 <= i < j < |rows| ensures rows[i] != rows[j] {
      OlderIsTotal(rows[j], rows[i]);
    }
  }

  lemma {:induction false} ReturnedMatched(codec: Codec, limit: nat, after: Option<Row>, fetches: seq<Fetch>, r: Row)
    requires limit > 0 && Faithful(codec) && Walk(codec, limit, after, fetches) && r in Returned(codec, limit, fetches)
    ensures exists i :: 0 <= i < |fetches| && r in fetches[i].table
    decreases |fetches|
  {
    if r in Paginate(codec, fetches[0].rows, limit).rows {
      assert r in fetches[0].rows && r in fetches[0].table;
    } else {
      assert |fetches| > 1;
      NextStartsAfterLast(codec, limit, after, fetches);
      ReturnedMatched(codec, limit, Some(fetches[0].rows[limit - 1]), fetches[1..], r);
      var i :| 0 <= i < |fetches[1..]| && r in fetches[1..][i].table;
      assert r in fetches[i + 1].table;
    }
  }

  lemma {:induction false} StayersAreReturned(codec: Codec, limit: nat, after: Option<Row>, fetches: seq<Fetch>, r: Row)
    requires limit > 0 && Faithful(codec) && Walk(codec, limit, after, fetches) && Finished(codec, limit, fetches)
    requires (forall i :: 0 <= i < |fetches| ==> r in fetches[i].table) && (after.Some? ==> OlderThan(r, after.value))
    ensures r in Returned(codec, limit, fetches)
    decreases |fetches|
  {
    var rows := fetches[0].rows;
    assert r in fetches[0].table && Eligible(r, fetches[0].table, after);
    if |fetches| > 1 {
      NextStartsAfterLast(codec, limit, after, fetches);
      if r !in rows[..limit] {
        if r == rows[limit] {
          assert OlderThan(rows[limit], rows[limit - 1]);
        } else {
          assert rows == rows[..limit] + [rows[limit]];
          assert r !in rows && rows[limit - 1] in rows;
        }
        StayersAreReturned(codec, limit, Some(rows[limit - 1]), fetches[1..], r);
      }
    }
  }

  /** A finished walk returns every row that was there and matching throughout, exactly once. */
  lemma StayersAreReturnedOnce(codec: Codec, limit: nat, fetches: seq<Fetch>, r: Row)
    requires limit > 0 && Faithful(codec) && Walk(codec, limit, None, fetches) && Finished(codec, limit, fetches)
    requires forall i :: 0 <= i < |fetches| ==> r in fetches[i].table
    ensures multiset(Returned(codec, limit, fetches))[r] == 1
  {
    StayersAreReturned(codec, limit, None, fetches, r);
    NoRowTwice(codec, limit, fetches);
    OnceInDistinct(Returned(codec, limit, fetches), r);
  }

  lemma {:induction false} OnceInDistinct(rows: seq<Row>, r: Row)
    requires (forall i, j :: 0 <= i < j < |rows| ==> rows[i] != rows[j]) && r in rows
    ensures multiset(rows)[r] == 1
    decreases |rows|
  {
    assert rows == [rows[0]] + rows[1..];
    if r == rows[0] {
      assert r !in rows[1..];
      assert multiset(rows[1..])[r] == 0;
    } else {
      OnceInDistinct(rows[1..], r);
    }
  }

  // A table that does not change.

  lemma RestOfDescending(a: seq<Row>)
    requires Descending(a) && a != []
    ensures forall r :: r in a[1..] <==> r in a && r != a[0]
  {
    OlderIsTotal(a[0], a[0]);
    assert a == [a[0]] + a[1..];
    assert forall r :: r in a[1..] ==> OlderThan(r, a[0]);
  }

  lemma {:induction false} DescendingIsUnique(a: seq<Row>, b: seq<Row>)
    requires Descending(a) && Descending(b) && forall r :: r in a <==> r in b
    ensures a == b
    decreases |a|
  {
    assert forall i :: 0 <= i < |b| ==> b[i] in a;
    assert forall i :: 0 <= i < |a| ==> a[i] in b;
    if a != [] && b != [] {
      OlderIsTotal(a[0], b[0]);
      assert a[0] == b[0];
      RestOfDescending(a);
      RestOfDescending(b);
      DescendingIsUnique(a[1..], b[1..]);
    }
  }

  /** On a table that does not change, the pages of a finished walk are the matching rows, newest first, cut up. */
  lemma StaticWalkIsTheSortedList(codec: Codec, limit: nat, fetches: seq<Fetch>, table: set<Row>, sorted: seq<Row>)
    requires limit > 0 && Faithful(codec) && Walk(codec, limit, None, fetches) && Finished(codec, limit, fetches)
    requires forall i :: 0 <= i < |fetches| ==> fetches[i].table == table
    requires NewestFirst(sorted) && forall r :: r in sorted <==> r in table
    ensures Returned(codec, limit, fetches) == sorted
  {
    DescendingIsNewestFirst(sorted);
    ReturnedDescends(codec, limit, None, fetches);
    forall r ensures r in Returned(codec, limit, fetches) <==> r in table {
      if r in table { StayersAreReturned(codec, limit, None, fetches, r); }
      if r in Returned(codec, limit, fetches) { ReturnedMatched(codec, limit, None, fetches, r); }
    }
    DescendingIsUnique(Returned(codec, limit, fetches), sorted);
  }

  /** The rows a static walk has left to return after `after`. */
  ghost function Left(table: set<Row>, after: Option<Row>): set<Row> {
    set r | r in table && Eligible(r, table, after)
  }

  lemma {:induction false} PagesAreFull(codec: Codec, limit: nat, after: Option<Row>, fetches: seq<Fetch>,
                                       table: set<Row>)
    requires limit > 0 && Faithful(codec) && Walk(codec, limit, after, fetches) && fetches != []
    requires forall i :: 0 <= i < |fetches| ==> fetches[i].table == table
    ensures (|fetches| - 1) * limit + (if |fetches| > 1 then 1 else 0) <= |Left(table, after)|
    decreases |fetches|
  {
    if |fetches| > 1 {
      NextStartsAfterLast(codec, limit, after, fetches);
      var rows := fetches[0].rows;
      var page, last := rows[..limit], rows[limit - 1];
      PagesAreFull(codec, limit, Some(last), fetches[1..], table);
      PageLeavesTheRest(rows, table, after, limit);
    }
  }

  lemma {:induction false} DistinctSize(rows: seq<Row>) returns (elements: set<Row>)
    requires Descending(rows)
    ensures (forall r :: r in elements <==> r in rows) && |elements| == |rows|
    decreases |rows|
  {
    elements := {};
    if rows != [] {
      RestOfDescending(rows);
      var rest := DistinctSize(rows[1..]);
      elements := rest + {rows[0]};
    }
  }

  lemma PageIsNotPast(rows: seq<Row>, limit: nat)
    requires Descending(rows) && 0 < limit <= |rows|
    ensures forall r :: r in rows[..limit] ==> !OlderThan(r, rows[limit - 1])
  {
    forall i | 0 <= i < limit ensures !OlderThan(rows[i], rows[limit - 1]) {
      OlderIsTotal(rows[i], rows[limit - 1]);
    }
  }

  lemma PageLeavesTheRest(rows: seq<Row>, table: set<Row>, after: Option<Row>, limit: nat)
    requires limit > 0 && Answers(rows, table, after, limit) && |rows| == limit + 1
    ensures |Left(table, Some(rows[limit - 1]))| + limit <= |Left(table, after)|
    ensures |Left(table, Some(rows[limit - 1]))| >= 1
  {
    var last := rows[limit - 1];
    var page := DistinctSize(rows[..limit]);
    var rest := Left(table, Some(last));
    assert rows[limit] in rows && rows[limit] in rest;
    SubsetSize({rows[limit]}, rest);
    PageIsNotPast(rows, limit);
    forall r | r in rest ensures r !in page && r in Left(table, after) {
      OlderIsTotal(r, last);
      assert last in rows;
      if after.Some? { OlderIsTransitive(r, last, after.value); }
    }
    forall r | r in page ensures r in Left(table, after) {
      assert r in rows[..limit] && r in rows;
    }
    assert page + rest <= Left(table, after);
    SubsetSize(page + rest, Left(table, after));
  }

  /** On a table that does not change every page but the last is full and leaves a row, so the walk ends. */
  lemma StaticWalkEnds(codec: Codec, limit: nat, fetches: seq<Fetch>, table: set<Row>)
    requires limit > 0 && Faithful(codec) && Walk(codec, limit, None, fetches) && |fetches| > 1
    requires forall i :: 0 <= i < |fetches| ==> fetches[i].table == table
    ensures (|fetches| - 1) * limit < |table|
  {
    PagesAreFull(codec, limit, None, fetches, table);
    SubsetSize(Left(table, None), table);
  }
}
