// Splitting a text at a separator and joining the parts again, as Python's
// str.split and str.join do.

module Separators {

  function Split<T(==)>(text: seq<T>, separator: T): (parts: seq<seq<T>>)
    ensures |parts| >= 1
    ensures forall part :: part in parts ==> separator !in part
  {
    if text == [] then [[]]
    else
      var rest := Split(text[1..], separator);
      if text[0] == separator then [[]] + rest else [[text[0]] + rest[0]] + rest[1..]
  }

  function Join<T>(parts: seq<seq<T>>, separator: T): seq<T>
    requires |parts| >= 1
  {
    if |parts| == 1 then parts[0] else parts[0] + [separator] + Join(parts[1..], separator)
  }

  lemma {:induction false} SplitPrefix<T>(head: seq<T>, separator: T, tail: seq<T>)
    requires separator !in head
    ensures Split(head + [separator] + tail, separator) == [head] + Split(tail, separator)
  {
    var text := head + [separator] + tail;
    if head == [] {
      assert text[1..] == tail;
    } else {
      assert text[1..] == head[1..] + [separator] + tail;
      SplitPrefix(head[1..], separator, tail);
      assert [head[0]] + head[1..] == head;
    }
  }

  lemma {:induction false} SplitAtom<T>(head: seq<T>, separator: T)
    requires separator !in head
    ensures Split(head, separator) == [head]
  {
    if head != [] {
      SplitAtom(head[1..], separator);
      assert [head[0]] + head[1..] == head;
    }
  }

  // Splitting undoes joining, and joining undoes splitting.
  lemma {:induction false} SplitJoin<T>(parts: seq<seq<T>>, separator: T)
    requires |parts| >= 1 && forall part :: part in parts ==> separator !in part
    ensures Split(Join(parts, separator), separator) == parts
  {
    if |parts| == 1 {
      SplitAtom(parts[0], separator);
    } else {
      SplitJoin(parts[1..], separator);
      SplitPrefix(parts[0], separator, Join(parts[1..], separator));
      assert parts == [parts[0]] + parts[1..];
    }
  }

  lemma {:induction false} JoinSplit<T>(text: seq<T>, separator: T)
    ensures Join(Split(text, separator), separator) == text
  {
    if text != [] {
      var rest := Split(text[1..], separator);
      JoinSplit(text[1..], separator);
      if text[0] == separator {
        assert ([[]] + rest)[1..] == rest;
        assert text == [] + [separator] + text[1..];
      } else if |rest| > 1 {
        assert Split(text, separator)[1..] == rest[1..];
        assert text == [text[0]] + text[1..];
      } else {
        assert text == [text[0]] + text[1..];
      }
    }
  }

  lemma {:induction false} SplitConcat<T>(a: seq<T>, separator: T, b: seq<T>)
    ensures Split(a + [separator] + b, separator) == Split(a, separator) + Split(b, separator)
  {
    var text := a + [separator] + b;
    if a == [] {
      assert text[1..] == b;
    } else {
      assert text[1..] == a[1..] + [separator] + b;
      SplitConcat(a[1..], separator, b);
    }
  }
}
