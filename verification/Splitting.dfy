/** split(separator) and its inverse. */
module Splitting {
  function Split<T(==)>(s: seq<T>, sep: T): (parts: seq<seq<T>>)
    ensures |parts| > 0
  {
    if s == [] then [[]]
    else
      var rest := Split(s[1..], sep);
      if s[0] == sep then [[]] + rest else [[s[0]] + rest[0]] + rest[1..]
  }

  function Join<T>(parts: seq<seq<T>>, sep: T): seq<T> {
    if parts == [] then [] else if |parts| == 1 then parts[0] else parts[0] + [sep] + Join(parts[1..], sep)
  }

  ghost predicate Free<T>(s: seq<T>, sep: T) { forall i :: 0 <= i < |s| ==> s[i] != sep }

  lemma {:induction false} SplitStarts<T>(part: seq<T>, sep: T, rest: seq<T>)
    requires Free(part, sep)
    ensures Split(part + [sep] + rest, sep) == [part] + Split(rest, sep)
  {
    var s := part + [sep] + rest;
    if part == [] {
      assert s[1..] == rest;
    } else {
      assert s[1..] == part[1..] + [sep] + rest && s[0] == part[0];
      SplitStarts(part[1..], sep, rest);
      assert [part[0]] + part[1..] == part;
    }
  }

  lemma {:induction false} SplitOne<T>(part: seq<T>, sep: T)
    requires Free(part, sep)
    ensures Split(part, sep) == [part]
  {
    if part != [] {
      SplitOne(part[1..], sep);
      assert [part[0]] + part[1..] == part;
    }
  }

  /** Splitting undoes joining. */
  lemma {:induction false} SplitJoin<T>(parts: seq<seq<T>>, sep: T)
    requires parts != [] && forall i :: 0 <= i < |parts| ==> Free(parts[i], sep)
    ensures Split(Join(parts, sep), sep) == parts
  {
    if |parts| == 1 {
      SplitOne(parts[0], sep);
    } else {
      SplitJoin(parts[1..], sep);
      SplitStarts(parts[0], sep, Join(parts[1..], sep));
      assert [parts[0]] + parts[1..] == parts;
    }
  }

  lemma {:induction false} JoinAppend<T>(parts: seq<seq<T>>, part: seq<T>, sep: T)
    ensures Join(parts + [part], sep) == (if parts == [] then [] else Join(parts, sep) + [sep]) + part
  {
    if |parts| > 1 {
      JoinAppend(parts[1..], part, sep);
      assert (parts + [part])[1..] == parts[1..] + [part];
      assert parts[0] + [sep] + (Join(parts[1..], sep) + [sep] + part) == parts[0] + [sep] + Join(parts[1..], sep)
             + [sep] + part;
    } else if |parts| == 1 {
      assert (parts + [part])[1..] == [part];
    }
  }
}
