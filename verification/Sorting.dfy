/** Go's sort package, as far as its results go: a stable sort by a strict order. */
module Sorting {

  /** A strict weak order: what the sort package asks of its less function. */
  ghost predicate IsOrder<T(!new)>(before: (T, T) -> bool) {
    && (forall x, y :: before(x, y) ==> !before(y, x))
    && (forall x, y, z :: before(x, z) ==> before(x, y) || before(y, z))
  }

  /** Nothing stands behind something it should be before. */
  ghost predicate Sorted<T(!new)>(s: seq<T>, before: (T, T) -> bool) {
    forall i, j :: 0 <= i < j < |s| ==> !before(s[j], s[i])
  }

  /** Into a sorted sequence, ahead of everything not strictly before it. */
  function Insert<T>(x: T, s: seq<T>, before: (T, T) -> bool): seq<T> {
    if s == [] || !before(s[0], x) then [x] + s else [s[0]] + Insert(x, s[1..], before)
  }

  /** sort.SliceStable: elements neither of which is before the other keep their order. */
  function Sort<T>(s: seq<T>, before: (T, T) -> bool): seq<T> {
    if s == [] then [] else Insert(s[0], Sort(s[1..], before), before)
  }

  lemma {:induction false} InsertMeans<T(!new)>(x: T, s: seq<T>, before: (T, T) -> bool)
    requires IsOrder(before) && Sorted(s, before)
    ensures Sorted(Insert(x, s, before), before)
    ensures multiset(Insert(x, s, before)) == multiset(s) + multiset{x}
  {
    if s == [] || !before(s[0], x) {
      forall j | 0 < j < |[x] + s| ensures !before(([x] + s)[j], x) {
        assert ([x] + s)[j] == s[j - 1];
      }
    } else {
      InsertMeans(x, s[1..], before);
      var rest := Insert(x, s[1..], before);
      assert s == [s[0]] + s[1..];
      forall j | 0 <= j < |rest| ensures !before(rest[j], s[0]) {
        assert rest[j] in multiset(rest);
        assert rest[j] == x || rest[j] in s[1..];
      }
    }
  }

  lemma {:induction false} SortMeans<T(!new)>(s: seq<T>, before: (T, T) -> bool)
    requires IsOrder(before)
    ensures Sorted(Sort(s, before), before)
    ensures multiset(Sort(s, before)) == multiset(s) && |Sort(s, before)| == |s|
  {
    if s != [] {
      SortMeans(s[1..], before);
      InsertMeans(s[0], Sort(s[1..], before), before);
      assert s == [s[0]] + s[1..];
    }
    assert |multiset(Sort(s, before))| == |multiset(s)|;
  }

  /** Neither is before the other, though they may differ. */
  predicate Tied<T>(x: T, y: T, before: (T, T) -> bool) {
    !before(x, y) && !before(y, x)
  }

  ghost predicate NoTies<T(!new)>(m: multiset<T>, before: (T, T) -> bool) {
    forall x, y :: x in m && y in m && Tied(x, y, before) ==> x == y
  }

  /** Without ties between different elements a sorted sequence is determined by its contents. */
  lemma {:induction false} SortedUnique<T(!new)>(s: seq<T>, t: seq<T>, before: (T, T) -> bool)
    requires Sorted(s, before) && Sorted(t, before) && multiset(s) == multiset(t)
    requires NoTies(multiset(s), before)
    ensures s == t
  {
    if s == [] {
      assert |multiset(t)| == 0;
    } else {
      assert s[0] in multiset(t);
      SameHead(s, t, before);
      TailMultiset(s);
      TailMultiset(t);
      SortedUnique(s[1..], t[1..], before);
    }
  }

  lemma SameHead<T(!new)>(s: seq<T>, t: seq<T>, before: (T, T) -> bool)
    requires s != [] && t != [] && Sorted(s, before) && Sorted(t, before) && multiset(s) == multiset(t)
    requires NoTies(multiset(s), before)
    ensures s[0] == t[0]
  {
    assert s[0] in multiset(s) && s[0] in multiset(t) && t[0] in multiset(s);
    assert s[0] == t[0] || Tied(s[0], t[0], before);
  }

  lemma TailMultiset<T>(s: seq<T>)
    requires s != []
    ensures multiset(s[1..]) == multiset(s) - multiset{s[0]}
  {
    assert s == [s[0]] + s[1..];
  }

  /** Sorting what was the same up to its order gives the same sequence, when there are no ties. */
  lemma SortForgetsOrder<T(!new)>(s: seq<T>, t: seq<T>, before: (T, T) -> bool)
    requires IsOrder(before) && multiset(s) == multiset(t)
    requires NoTies(multiset(s), before)
    ensures Sort(s, before) == Sort(t, before)
  {
    SortMeans(s, before);
    SortMeans(t, before);
    SortedUnique(Sort(s, before), Sort(t, before), before);
  }

  /** Two different tied elements come out in the order in which they went in. */
  lemma {:induction false} TiedInserts<T(!new)>(x: T, y: T, s: seq<T>, before: (T, T) -> bool)
    requires IsOrder(before) && x != y && Tied(x, y, before)
    ensures Insert(x, Insert(y, s, before), before) != Insert(y, Insert(x, s, before), before)
  {
    if s != [] && before(s[0], x) {
      assert before(s[0], y);
      var tail := s[1..];
      TiedInserts(x, y, tail, before);
      assert ([s[0]] + Insert(y, tail, before))[1..] == Insert(y, tail, before);
      assert ([s[0]] + Insert(x, tail, before))[1..] == Insert(x, tail, before);
      assert Insert(x, Insert(y, s, before), before)[1..] == Insert(x, Insert(y, tail, before), before);
      assert Insert(y, Insert(x, s, before), before)[1..] == Insert(y, Insert(x, tail, before), before);
    } else {
      assert s == [] || !before(s[0], y);
      assert Insert(x, Insert(y, s, before), before)[0] == x && Insert(y, Insert(x, s, before), before)[0] == y;
    }
  }

  /** Something that stands in two places. */
  lemma Twice<T>(s: seq<T>, i: nat, j: nat)
    requires i < j < |s| && s[i] == s[j]
    ensures multiset(s)[s[i]] >= 2
  {
    assert s == s[..i] + [s[i]] + s[i + 1..j] + [s[j]] + s[j + 1..];
  }
}
