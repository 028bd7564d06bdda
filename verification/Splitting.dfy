/** Splitting a text at a separator, and joining one back. */
module Splitting {
  function Split<T(==)>(text: seq<T>, separator: T): (parts: seq<seq<T>>)
    ensures |parts| > 0
  {
    if text == [] then [[]]
    else
      var rest := Split(text[1..], separator);
      if text[0] == separator then [[]] + rest else [[text[0]] + rest[0]] + rest[1..]
  }

  function Join<T>(parts: seq<seq<T>>, separator: T): seq<T> {
    if parts == [] then []
    else if |parts| == 1 then parts[0]
    else parts[0] + [separator] + Join(parts[1..], separator)
  }

  lemma {:induction false} SplitAtFirst<T>(a: seq<T>, b: seq<T>, separator: T)
    requires separator !in a
    ensures Split(a + [separator] + b, separator) == [a] + Split(b, separator)
    decreases |a|
  {
    var text := a + [separator] + b;
    if a == [] {
      assert text[1..] == b;
    } else {
      assert text[1..] == a[1..] + [separator] + b && text[0] == a[0];
      SplitAtFirst(a[1..], b, separator);
      assert [a[0]] + a[1..] == a;
    }
  }

  lemma {:induction false} FirstPart<T>(text: seq<T>, separator: T)
    ensures Split(text, separator)[0] == text <==> separator !in text
    ensures separator !in text ==> Split(text, separator) == [text]
    decreases |text|
  {
    if text != [] {
      FirstPart(text[1..], separator);
      assert text == [text[0]] + text[1..];
    }
  }

  /** Splitting undoes joining when no part holds the separator. */
  lemma {:induction false} SplitJoin<T>(parts: seq<seq<T>>, separator: T)
    requires parts != [] && forall i :: 0 <= i < |parts| ==> separator !in parts[i]
    ensures Split(Join(parts, separator), separator) == parts
    decreases |parts|
  {
    if |parts| == 1 {
      FirstPart(parts[0], separator);
    } else {
      SplitAtFirst(parts[0], Join(parts[1..], separator), separator);
      SplitJoin(parts[1..], separator);
    }
  }

  lemma JoinFirst<T>(part: seq<T>, more: seq<seq<T>>, separator: T)
    ensures more != [] ==> Join([part] + more, separator) == part + [separator] + Join(more, separator)
  {
  }

  lemma JoinLonger<T>(x: T, parts: seq<seq<T>>, separator: T)
    requires parts != []
    ensures Join([[x] + parts[0]] + parts[1..], separator) == [x] + Join(parts, separator)
  {
    if |parts| > 1 {
      JoinFirst([x] + parts[0], parts[1..], separator);
      JoinFirst(parts[0], parts[1..], separator);
    }
  }

  /** Joining undoes splitting. */
  lemma {:induction false} JoinSplit<T>(text: seq<T>, separator: T)
    ensures Join(Split(text, separator), separator) == text
    decreases |text|
  {
    if text != [] {
      JoinSplit(text[1..], separator);
      var rest := Split(text[1..], separator);
      assert text == [text[0]] + text[1..];
      if text[0] == separator { JoinFirst([], rest, separator); } else { JoinLonger(text[0], rest, separator); }
    }
  }

  /** A part holds nothing but what the text holds, and never the separator. */
  lemma {:induction false} PartsWithin<T>(text: seq<T>, separator: T, i: nat, j: nat)
    requires i < |Split(text, separator)| && j < |Split(text, separator)[i]|
    ensures var x := Split(text, separator)[i][j]; x in text && x != separator
    decreases |text|
  {
    var rest := Split(text[1..], separator);
    if text[0] == separator { PartsWithin(text[1..], separator, i - 1, j); }
    else if i > 0 { PartsWithin(text[1..], separator, i, j); }
    else if j > 0 { PartsWithin(text[1..], separator, 0, j - 1); }
  }
}
