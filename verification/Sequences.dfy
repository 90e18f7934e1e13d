/** Filtering sequences. */
module Sequences {

  function Filter<T>(s: seq<T>, keep: T -> bool): seq<T> {
    if s == [] then [] else (if keep(s[0]) then [s[0]] else []) + Filter(s[1..], keep)
  }

  function Except<T(==)>(x: T): T -> bool {
    y => y != x
  }

  /** The sequence without the element at `i`; all of it if there is none. */
  function WithoutPlace<T>(s: seq<T>, i: nat): seq<T>
    requires i <= |s|
  {
    if i < |s| then s[..i] + s[i + 1..] else s
  }

  lemma {:induction false} FilterMembers<T>(s: seq<T>, keep: T -> bool, x: T)
    ensures x in Filter(s, keep) <==> x in s && keep(x)
    decreases |s|
  {
    if s != [] {
      FilterMembers(s[1..], keep, x);
      assert s == [s[0]] + s[1..];
    }
  }

  lemma Associates<T>(a: seq<T>, b: seq<T>, c: seq<T>)
    ensures a + (b + c) == (a + b) + c
  {
  }

  lemma {:induction false} FilterAppend<T>(a: seq<T>, b: seq<T>, keep: T -> bool)
    ensures Filter(a + b, keep) == Filter(a, keep) + Filter(b, keep)
    decreases |a|
  {
    if a == [] {
      assert a + b == b;
    } else {
      assert (a + b)[1..] == a[1..] + b;
      FilterAppend(a[1..], b, keep);
      Associates(if keep(a[0]) then [a[0]] else [], Filter(a[1..], keep), Filter(b, keep));
    }
  }

  lemma {:induction false} FilterAll<T>(s: seq<T>, keep: T -> bool)
    requires forall j | 0 <= j < |s| :: keep(s[j])
    ensures Filter(s, keep) == s
    decreases |s|
  {
    if s != [] {
      FilterAll(s[1..], keep);
      assert s == [s[0]] + s[1..];
    }
  }

  lemma WithoutFirst<T>(s: seq<T>)
    requires s != []
    ensures WithoutPlace(s, 0) == s[1..]
  {
  }

  lemma WithoutLater<T>(s: seq<T>, i: nat)
    requires 0 < i < |s|
    ensures WithoutPlace(s, i) == [s[0]] + WithoutPlace(s[1..], i - 1)
  {
  }

  /** A filter that drops at most one place. */
  lemma {:induction false} FilterOne<T>(s: seq<T>, keep: T -> bool, i: nat)
    requires i <= |s| && forall j | 0 <= j < |s| :: keep(s[j]) <==> j != i
    ensures Filter(s, keep) == WithoutPlace(s, i)
    decreases |s|
  {
    if i == |s| {
      FilterAll(s, keep);
    } else if i == 0 {
      FilterAll(s[1..], keep);
      WithoutFirst(s);
    } else {
      FilterOne(s[1..], keep, i - 1);
      WithoutLater(s, i);
    }
  }
}
