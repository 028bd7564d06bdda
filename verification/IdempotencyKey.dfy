/** The default idempotency key: what is hashed is event type, canonical payload and sorted targets, run together with
    no separator. It still tells two publishes apart exactly when they differ. */
module IdempotencyKey {
  import opened Wrappers
  import opened CanonicalJson

  const MAX_EVENT_TYPE_LENGTH := 64

  predicate IsAlphanumeric(u: Unit) {
    97 <= u <= 122 || 48 <= u <= 57
  }

  predicate IsSeparator(u: Unit) {
    u == 46 || u == 95 || u == 45
  }

  /** Lower-case alphanumeric runs joined by single separators. */
  predicate IsEventType(e: Text) {
    && 0 < |e| <= MAX_EVENT_TYPE_LENGTH
    && IsAlphanumeric(e[0]) && IsAlphanumeric(e[|e| - 1])
    && (forall i :: 0 <= i < |e| ==> IsAlphanumeric(e[i]) || IsSeparator(e[i]))
    && (forall i :: 0 < i < |e| ==> IsAlphanumeric(e[i - 1]) || IsAlphanumeric(e[i]))
  }

  /** What a JavaScript Set keeps of a list: the first of each. */
  function Unique(ids: seq<Text>): (r: seq<Text>)
    ensures forall id :: id in r <==> id in ids
    decreases |ids|
  {
    if ids == [] then []
    else
      var earlier, last := ids[..|ids| - 1], ids[|ids| - 1];
      assert ids == earlier + [last];
      if last in earlier then Unique(earlier) else Unique(earlier) + [last]
  }

  lemma {:induction false} UniqueIsDistinct(ids: seq<Text>)
    ensures Distinct(Unique(ids))
    decreases |ids|
  {
    if ids != [] { UniqueIsDistinct(ids[..|ids| - 1]); }
  }

  function SortedTargets(ids: seq<Text>): (r: seq<Text>)
    ensures forall id :: id in r <==> id in ids
  {
    var r := Sort(Unique(ids));
    assert forall id :: id in r <==> id in multiset(r);
    r
  }

  function Strings(ids: seq<Text>): (v: Json)
    ensures v.Array? && |v.items| == |ids| && forall i :: 0 <= i < |ids| ==> v.items[i] == String(ids[i])
  {
    Array(seq(|ids|, i requires 0 <= i < |ids| => String(ids[i])))
  }

  function Listed(endpointIds: Option<seq<Text>>): seq<Text> {
    if endpointIds.None? then [] else endpointIds.value
  }

  function ListText(ids: seq<Text>): Text {
    if ids == [] then [] else Canonical(Strings(SortedTargets(ids)))
  }

  /** No targets and an empty list of targets leave no text. */
  function TargetsText(endpointIds: Option<seq<Text>>): Text {
    ListText(Listed(endpointIds))
  }

  /** The text that is hashed. */
  function KeyText(eventType: Text, payload: Json, endpointIds: Option<seq<Text>>): Text {
    eventType + Canonical(payload) + TargetsText(endpointIds)
  }

  function TargetSet(endpointIds: Option<seq<Text>>): set<Text> {
    set id | id in Listed(endpointIds)
  }

  lemma SameTargetsSortAlike(a: seq<Text>, b: seq<Text>)
    requires forall id :: id in a <==> id in b
    ensures SortedTargets(a) == SortedTargets(b)
  {
    UniqueIsDistinct(a);
    UniqueIsDistinct(b);
    SortIsAscending(Unique(a));
    SortIsAscending(Unique(b));
    AscendingIsUnique(SortedTargets(a), SortedTargets(b));
  }

  lemma StringsReadable(a: seq<Text>, b: seq<Text>)
    requires Canonical(Strings(a)) == Canonical(Strings(b))
    ensures a == b
  {
    PrintedAlikeIffSame(Strings(a), Strings(b));
    forall i | 0 <= i < |a| ensures a[i] == b[i] {
      assert Same(Strings(a).items[i], Strings(b).items[i]);
    }
  }

  lemma ListsAlike(x: seq<Text>, y: seq<Text>)
    requires x != [] && y != []
    ensures ListText(x) == ListText(y) <==> (forall id :: id in x <==> id in y)
  {
    if ListText(x) == ListText(y) {
      StringsReadable(SortedTargets(x), SortedTargets(y));
      forall id ensures id in x <==> id in y {
        assert id in x <==> id in SortedTargets(x);
      }
    }
    if forall id :: id in x <==> id in y { SameTargetsSortAlike(x, y); }
  }

  lemma SomeText(x: seq<Text>)
    requires x != []
    ensures ListText(x) != [] && x[0] in x
  {
    StartsWithMark(Strings(SortedTargets(x)), []);
  }

  /** The order and the repetition of targets do not show; which endpoints they are does. */
  lemma TargetsAlikeIffSameSet(a: Option<seq<Text>>, b: Option<seq<Text>>)
    ensures TargetsText(a) == TargetsText(b) <==> TargetSet(a) == TargetSet(b)
  {
    var x, y := Listed(a), Listed(b);
    SetsOfLists(x, y);
    if x != [] { SomeText(x); }
    if y != [] { SomeText(y); }
    if x != [] && y != [] { ListsAlike(x, y); }
  }

  lemma SetsOfLists(x: seq<Text>, y: seq<Text>)
    ensures (set id | id in x) == (set id | id in y) <==> (forall id :: id in x <==> id in y)
  {
    var s, t := set id | id in x, set id | id in y;
    assert forall id :: id in s <==> id in x;
    assert forall id :: id in t <==> id in y;
  }

  lemma EventTypeStops(a: Text, b: Text, ra: Text, rb: Text)
    requires IsEventType(b) && ra != [] && ra[0] == OPEN_BRACE && a + ra == b + rb
    ensures |b| <= |a|
  {
    var t := a + ra;
    assert t[|a|] == OPEN_BRACE;
    assert forall i :: 0 <= i < |b| ==> t[i] == b[i];
  }

  /** What is hashed, after the event type: JSON for the payload, and then nothing at all when there are no targets, or
      else JSON for the list of them, each once, in code-unit order. */
  ghost predicate PayloadThenTargets(t: Text, payload: Json, ids: seq<Text>) {
    var read := ReadValue(t);
    && read.Some? && Denotes(payload, read.value.value)
    && (ids == [] ==> read.value.rest == [])
    && (ids != [] ==>
          && ReadValue(read.value.rest).Some? && ReadValue(read.value.rest).value.rest == []
          && ListsTargets(ReadValue(read.value.rest).value.value, ids))
  }

  ghost predicate ListsTargets(v: Json, ids: seq<Text>) {
    && v.Array? && (forall i :: 0 <= i < |v.items| ==> v.items[i].String?)
    && (forall id :: id in ids <==> String(id) in v.items)
    && forall i, j :: 0 <= i < j < |v.items| ==> CodeUnitOrder(v.items[i].units, v.items[j].units)
  }

  lemma SameStrings(texts: seq<Text>, w: Json)
    requires Same(Strings(texts), w)
    ensures w.Array? && |w.items| == |texts| && forall i :: 0 <= i < |texts| ==> w.items[i] == String(texts[i])
  {
    forall i | 0 <= i < |texts| ensures w.items[i] == String(texts[i]) {
      assert Same(Strings(texts).items[i], w.items[i]);
    }
  }

  lemma TargetsAscend(ids: seq<Text>)
    ensures var sorted := SortedTargets(ids);
            forall i, j :: 0 <= i < j < |sorted| ==> CodeUnitOrder(sorted[i], sorted[j])
  {
    var sorted := SortedTargets(ids);
    UniqueIsDistinct(ids);
    SortIsAscending(Unique(ids));
    forall i, j | 0 <= i < j < |sorted| ensures CodeUnitOrder(sorted[i], sorted[j]) {
      BeforeIsCodeUnitOrder(sorted[i], sorted[j]);
    }
  }

  lemma ListedWhenSame(ids: seq<Text>, w: Json)
    requires Same(Strings(SortedTargets(ids)), w)
    ensures ListsTargets(w, ids)
  {
    var sorted := SortedTargets(ids);
    SameStrings(sorted, w);
    TargetsAscend(ids);
    forall id ensures id in ids <==> String(id) in w.items {
      if id in ids {
        var i :| 0 <= i < |sorted| && sorted[i] == id;
        assert w.items[i] == String(id);
      }
    }
  }

  lemma TargetsReadBack(ids: seq<Text>)
    requires ids != []
    ensures var read := ReadValue(ListText(ids));
            read.Some? && read.value.rest == [] && ListsTargets(read.value.value, ids)
  {
    var v := Strings(SortedTargets(ids));
    ReadsBack(v, []);
    assert Canonical(v) + [] == Canonical(v);
    ListedWhenSame(ids, ReadValue(ListText(ids)).value.value);
  }

  /** The text hashed for an object as payload is the event type, the payload and the targets, one after the other. */
  lemma KeyTextReadsBack(eventType: Text, payload: Json, endpointIds: Option<seq<Text>>)
    requires payload.Object? && Valid(payload)
    ensures eventType <= KeyText(eventType, payload, endpointIds)
    ensures PayloadThenTargets(KeyText(eventType, payload, endpointIds)[|eventType|..], payload, Listed(endpointIds))
  {
    var targets := TargetsText(endpointIds);
    Associative(eventType, Canonical(payload), targets);
    assert KeyText(eventType, payload, endpointIds)[|eventType|..] == Canonical(payload) + targets;
    ReadsBack(payload, targets);
    if Listed(endpointIds) != [] { TargetsReadBack(Listed(endpointIds)); }
  }

  /** Two publishes hash the same text exactly when event type, payload (up to key order) and target set are equal. */
  lemma KeyTellsPublishesApart(e1: Text, p1: Json, t1: Option<seq<Text>>, e2: Text, p2: Json, t2: Option<seq<Text>>)
    requires IsEventType(e1) && IsEventType(e2) && p1.Object? && p2.Object? && Valid(p1) && Valid(p2)
    ensures KeyText(e1, p1, t1) == KeyText(e2, p2, t2) <==> e1 == e2 && Same(p1, p2) && TargetSet(t1) == TargetSet(t2)
  {
    TargetsAlikeIffSameSet(t1, t2);
    PrintedAlikeIffSame(p1, p2);
    if KeyText(e1, p1, t1) == KeyText(e2, p2, t2) {
      var r1, r2 := Canonical(p1) + TargetsText(t1), Canonical(p2) + TargetsText(t2);
      Associative(e1, Canonical(p1), TargetsText(t1));
      Associative(e2, Canonical(p2), TargetsText(t2));
      StartsWithMark(p1, TargetsText(t1));
      StartsWithMark(p2, TargetsText(t2));
      EventTypeStops(e1, e2, r1, r2);
      EventTypeStops(e2, e1, r2, r1);
      SamePrefix(e1, e2, r1, r2);
      ObjectsArePrefixFree(p1, p2, TargetsText(t1), TargetsText(t2));
    }
  }
}
