/** Lists of volumes that are kept sorted and without duplicates. */
module VolumeLists {

  ghost predicate Increasing(s: seq<real>) {
    forall i, j | 0 <= i < j < |s| :: s[i] < s[j]
  }

  ghost predicate NonDecreasing(s: seq<real>) {
    forall i, j | 0 <= i < j < |s| :: s[i] <= s[j]
  }

  /** `std::ranges::lower_bound`: the first position whose element is not less than `x`. */
  function LowerBound(s: seq<real>, x: real): (i: nat)
    ensures i <= |s| && (i < |s| ==> s[i] >= x)
    ensures forall j | 0 <= j < i :: s[j] < x
  {
    if s == [] || s[0] >= x then 0 else 1 + LowerBound(s[1..], x)
  }

  /** `std::ranges::find`: the first position that holds `x`, or the length. */
  function Find(s: seq<real>, x: real): (i: nat)
    ensures i <= |s| && (i < |s| ==> s[i] == x)
    ensures forall j | 0 <= j < i :: s[j] != x
  {
    if s == [] || s[0] == x then 0 else 1 + Find(s[1..], x)
  }

  predicate CanInsert(s: seq<real>, x: real) {
    var i := LowerBound(s, x);
    i == |s| || s[i] != x
  }

  function Inserted(s: seq<real>, x: real): seq<real> {
    var i := LowerBound(s, x);
    if CanInsert(s, x) then s[..i] + [x] + s[i..] else s
  }

  function Erased(s: seq<real>, x: real): seq<real> {
    var i := Find(s, x);
    if i < |s| then s[..i] + s[i + 1..] else s
  }

  ghost function Elements(s: seq<real>): set<real> {
    set x | x in s
  }

  lemma EmptyElements(s: seq<real>)
    ensures s == [] <==> Elements(s) == {}
  {
    if s != [] {
      assert s[0] in Elements(s);
    }
  }

  /** An increasing list is determined by its elements, so it is the sorted listing of a set. */
  lemma {:induction false} IncreasingIsUnique(s: seq<real>, t: seq<real>)
    requires Increasing(s) && Increasing(t) && Elements(s) == Elements(t)
    ensures s == t
    decreases |s|
  {
    EmptyElements(s);
    EmptyElements(t);
    if s != [] {
      assert s[0] in Elements(s) && s[0] in t;
      assert t[0] in Elements(t) && t[0] in s;
      forall x ensures x in Elements(s[1..]) <==> x in Elements(s) && x != s[0] {
        assert s == [s[0]] + s[1..];
      }
      forall x ensures x in Elements(t[1..]) <==> x in Elements(t) && x != t[0] {
        assert t == [t[0]] + t[1..];
      }
      IncreasingIsUnique(s[1..], t[1..]);
      assert s == [s[0]] + s[1..] && t == [t[0]] + t[1..];
    }
  }

  lemma CanInsertNew(s: seq<real>, x: real)
    requires Increasing(s)
    ensures CanInsert(s, x) <==> x !in s
  {
  }

  lemma InsertionIsIncreasing(s: seq<real>, x: real, i: nat)
    requires Increasing(s) && i == LowerBound(s, x) && x !in s
    ensures Increasing(s[..i] + [x] + s[i..])
  {
  }

  lemma InsertionElements(s: seq<real>, x: real, i: nat)
    requires i <= |s|
    ensures Elements(s[..i] + [x] + s[i..]) == Elements(s) + {x}
  {
  }

  lemma InsertedIsIncreasing(s: seq<real>, x: real)
    requires Increasing(s)
    ensures Increasing(Inserted(s, x)) && Elements(Inserted(s, x)) == Elements(s) + {x}
    ensures CanInsert(s, x) <==> x !in s
  {
    CanInsertNew(s, x);
    if x !in s {
      InsertionIsIncreasing(s, x, LowerBound(s, x));
      InsertionElements(s, x, LowerBound(s, x));
    }
  }

  lemma ErasedInOrder(s: seq<real>, x: real)
    requires Increasing(s)
    ensures Increasing(Erased(s, x))
  {
  }

  lemma ErasedStaysSorted(s: seq<real>, x: real)
    requires NonDecreasing(s)
    ensures NonDecreasing(Erased(s, x))
  {
  }

  lemma FindsMember(s: seq<real>, x: real)
    ensures Find(s, x) < |s| <==> x in s
  {
  }

  lemma ErasedElements(s: seq<real>, x: real)
    requires Increasing(s)
    ensures Elements(Erased(s, x)) == Elements(s) - {x}
  {
  }

  lemma ErasedIsIncreasing(s: seq<real>, x: real)
    requires Increasing(s)
    ensures Increasing(Erased(s, x)) && Elements(Erased(s, x)) == Elements(s) - {x}
    ensures Find(s, x) < |s| <==> x in s
  {
    ErasedInOrder(s, x);
    ErasedElements(s, x);
    FindsMember(s, x);
  }

  lemma SameHead(s: seq<real>, t: seq<real>)
    requires NonDecreasing(s) && NonDecreasing(t) && multiset(s) == multiset(t) && s != []
    ensures t != [] && s[0] == t[0]
  {
    assert s[0] in multiset(t);
    assert t[0] in multiset(s);
    var j: nat :| j < |s| && s[j] == t[0];
    var k: nat :| k < |t| && t[k] == s[0];
    assert s[0] <= s[j] && t[0] <= t[k];
  }

  lemma MultisetTail(s: seq<real>)
    requires s != []
    ensures multiset(s[1..]) == multiset(s) - multiset{s[0]}
  {
    assert s == [s[0]] + s[1..];
  }

  /** A list has only one sorted version. */
  lemma {:induction false} SortedIsUnique(s: seq<real>, t: seq<real>)
    requires NonDecreasing(s) && NonDecreasing(t) && multiset(s) == multiset(t)
    ensures s == t
    decreases |s|
  {
    if s == [] {
      assert |t| == |multiset(t)| == |multiset(s)|;
    } else {
      SameHead(s, t);
      MultisetTail(s);
      MultisetTail(t);
      TailInOrder(s);
      TailInOrder(t);
      SortedIsUnique(s[1..], t[1..]);
      assert s == [s[0]] + s[1..];
      assert t == [t[0]] + t[1..];
    }
  }

  lemma TailInOrder(s: seq<real>)
    requires NonDecreasing(s) && s != []
    ensures NonDecreasing(s[1..])
  {
  }

  lemma InsertionIsInOrder(s: seq<real>, x: real, i: nat)
    requires NonDecreasing(s) && i == LowerBound(s, x)
    ensures NonDecreasing(s[..i] + [x] + s[i..])
  {
  }

  lemma InsertionAddsOne(s: seq<real>, x: real, i: nat)
    requires i <= |s|
    ensures multiset(s[..i] + [x] + s[i..]) == multiset(s) + multiset{x}
  {
    assert s == s[..i] + s[i..];
  }

  lemma OneMore(v: seq<real>, i: nat)
    requires i < |v|
    ensures multiset(v[..i + 1]) == multiset(v[..i]) + multiset{v[i]}
  {
    assert v[..i + 1] == v[..i] + [v[i]];
  }

  /** `std::ranges::sort`, by what it promises. */
  method Sort(v: seq<real>) returns (s: seq<real>)
    ensures NonDecreasing(s) && multiset(s) == multiset(v)
  {
    s := [];
    for i := 0 to |v|
      invariant NonDecreasing(s) && multiset(s) == multiset(v[..i])
    {
      var k := LowerBound(s, v[i]);
      InsertionIsInOrder(s, v[i], k);
      InsertionAddsOne(s, v[i], k);
      OneMore(v, i);
      s := s[..k] + [v[i]] + s[k..];
    }
    assert v[..|v|] == v;
  }

  /** `std::ranges::unique` and the erase after it: of equal neighbours only the first stays. */
  method Unique(s: seq<real>) returns (u: seq<real>)
    requires NonDecreasing(s)
    ensures Increasing(u) && Elements(u) == Elements(s)
  {
    u := [];
    for i := 0 to |s|
      invariant Increasing(u) && (forall x :: x in u <==> x in s[..i])
      invariant (u == [] <==> i == 0) && (u != [] ==> u[|u| - 1] == s[i - 1])
    {
      assert s[..i + 1] == s[..i] + [s[i]];
      if u == [] || u[|u| - 1] != s[i] {
        u := u + [s[i]];
      }
    }
    assert s[..|s|] == s;
  }

  /** Sorted and stripped of duplicates, as saved volumes are. */
  method SortedUnique(v: seq<real>) returns (u: seq<real>)
    ensures Increasing(u) && Elements(u) == Elements(v)
  {
    var sorted := Sort(v);
    forall x ensures x in sorted <==> x in v {
      assert x in multiset(sorted) <==> x in multiset(v);
    }
    u := Unique(sorted);
  }
}
