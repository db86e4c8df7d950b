/** Filtering a list of people and showing it page by page. */
module Paging {
  import opened Common

  /** The elements that satisfy a predicate, in their order. */
  function Filter<T>(xs: seq<T>, p: T -> bool): (r: seq<T>)
    ensures |r| <= |xs|
  {
    if xs == [] then []
    else Filter(xs[..|xs| - 1], p) + if p(xs[|xs| - 1]) then [xs[|xs| - 1]] else []
  }

  lemma FilterOneMore<T>(xs: seq<T>, x: T, p: T -> bool)
    ensures Filter(xs + [x], p) == Filter(xs, p) + if p(x) then [x] else []
  {
    assert (xs + [x])[..|xs|] == xs;
  }

  lemma {:induction false} FilterCount<T>(xs: seq<T>, p: T -> bool, x: T)
    ensures multiset(Filter(xs, p))[x] == if p(x) then multiset(xs)[x] else 0
  {
    if xs != [] {
      FilterCount(xs[..|xs| - 1], p, x);
      assert xs == xs[..|xs| - 1] + [xs[|xs| - 1]];
    }
  }

  /** A stronger predicate finds no more. */
  lemma {:induction false} FilterShrinks<T>(xs: seq<T>, p: T -> bool, q: T -> bool)
    requires forall x :: x in xs && p(x) ==> q(x)
    ensures |Filter(xs, p)| <= |Filter(xs, q)|
  {
    if xs != [] {
      FilterShrinks(xs[..|xs| - 1], p, q);
    }
  }

  /** A predicate and its complement find everything between them. */
  lemma {:induction false} FilterSplits<T>(xs: seq<T>, p: T -> bool, q: T -> bool)
    requires forall x :: x in xs ==> (p(x) <==> !q(x))
    ensures |Filter(xs, p)| + |Filter(xs, q)| == |xs|
  {
    if xs != [] {
      FilterSplits(xs[..|xs| - 1], p, q);
    }
  }

  lemma FilterForgetsOrder<T(!new)>(xs: seq<T>, ys: seq<T>, p: T -> bool)
    requires multiset(xs) == multiset(ys)
    ensures multiset(Filter(xs, p)) == multiset(Filter(ys, p))
  {
    forall x ensures multiset(Filter(xs, p))[x] == multiset(Filter(ys, p))[x] {
      FilterCount(xs, p, x);
      FilterCount(ys, p, x);
    }
  }

  // ---------- pages ----------

  /** A page of a list, numbered from one. */
  function Page<T>(xs: seq<T>, page: int, size: int): seq<T>
    requires page >= 1 && size >= 1
  {
    StartNatural(page, size);
    From(xs, (page - 1) * size, size)
  }

  /** At most `size` elements from a place on. */
  function From<T>(xs: seq<T>, start: nat, size: nat): seq<T> {
    xs[Min(start, |xs|)..Min(start + size, |xs|)]
  }

  lemma StartNatural(page: int, size: int)
    requires page >= 1 && size >= 1
    ensures (page - 1) * size >= 0
  {
  }

  predicate IsOn<T(==)>(xs: seq<T>, page: int, size: int, x: T)
    requires size >= 1
  {
    page >= 1 && x in Page(xs, page, size)
  }

  /** The first few pages, one after the other. */
  function FirstPages<T>(xs: seq<T>, n: nat, size: int): seq<T>
    requires size >= 1
  {
    if n == 0 then [] else FirstPages(xs, n - 1, size) + Page(xs, n, size)
  }

  lemma {:induction false} PagesAreInitial<T>(xs: seq<T>, n: nat, size: int)
    requires size >= 1
    ensures FirstPages(xs, n, size) == xs[..Min(n * size, |xs|)]
  {
    if n > 0 {
      PagesAreInitial(xs, n - 1, size);
      assert n * size == (n - 1) * size + size;
    }
  }

  lemma TimesMonotone(a: int, b: int, size: int)
    requires a <= b && size >= 0
    ensures a * size <= b * size
  {
  }

  /** Turning pages until they run out shows the list, all of it and nothing else. */
  lemma PagesConcatenate<T>(xs: seq<T>, n: nat, size: int)
    requires size >= 1 && n * size >= |xs|
    ensures FirstPages(xs, n, size) == xs
    ensures forall page: int :: page > n ==> Page(xs, page, size) == []
  {
    PagesAreInitial(xs, n, size);
    forall page: int | page > n ensures Page(xs, page, size) == [] {
      TimesMonotone(n, page - 1, size);
    }
  }

  /** Of a list without repeats nothing is on two pages. */
  lemma OnOnePage<T>(xs: seq<T>, p: int, q: int, size: int, x: T)
    requires size >= 1 && IsOn(xs, p, size, x) && IsOn(xs, q, size, x)
    requires forall i, j :: 0 <= i < j < |xs| ==> xs[i] != xs[j]
    ensures p == q
  {
    var i := IndexOnPage(xs, p, size, x);
    var j := IndexOnPage(xs, q, size, x);
    assert i == j;
    if p < q { PagesApart(i, p, q, size); }
    if q < p { PagesApart(i, q, p, size); }
  }

  lemma PagesApart(i: int, p: int, q: int, size: int)
    requires p < q && size >= 1 && i < (p - 1) * size + size
    ensures i < (q - 1) * size
  {
    TimesMonotone(p, q - 1, size);
    assert (p - 1) * size + size == p * size;
  }

  lemma IndexOnPage<T>(xs: seq<T>, p: int, size: int, x: T) returns (i: nat)
    requires size >= 1 && IsOn(xs, p, size, x)
    ensures i < |xs| && xs[i] == x && (p - 1) * size <= i < (p - 1) * size + size
  {
    var k :| 0 <= k < |Page(xs, p, size)| && Page(xs, p, size)[k] == x;
    i := (p - 1) * size + k;
  }

  // ---------- the page window of the code ----------

  const MAX_INT: int := 0x7FFF_FFFF_FFFF_FFFF

  const MAX_PAGE_SIZE: int := 100

  /** A value of Go's int on a 64-bit machine. */
  predicate IsInt(n: int) {
    -MAX_INT - 1 <= n <= MAX_INT
  }

  /** What Go's int makes of a result. */
  function Wrap(n: int): (r: int)
    ensures IsInt(r)
    ensures IsInt(n) ==> r == n
  {
    (n + MAX_INT + 1) % (2 * MAX_INT + 2) - MAX_INT - 1
  }

  /** Slicing outside the bounds stops the handler. */
  datatype PageError = SliceBounds

  /** The start of a page is an int, or whatever it wraps to is beyond the list as well. */
  predicate StartFits(length: nat, start: int) {
    length == 0 || start <= MAX_INT || Wrap(start) >= length
  }

  /** The window cut out of a list in memory: the page exactly when its start fits. */
  method Window<T(==)>(xs: seq<T>, page: int, size: int) returns (r: Result<seq<T>, PageError>)
    requires 1 <= page <= MAX_INT && 1 <= size <= MAX_PAGE_SIZE && |xs| + MAX_PAGE_SIZE <= MAX_INT
    ensures r == Ok(Page(xs, page, size)) <==> StartFits(|xs|, (page - 1) * size)
    ensures r.Err? <==> xs != [] && Wrap((page - 1) * size) < 0
    ensures var start := Wrap((page - 1) * size); start >= 0 ==> r == Ok(From(xs, start, size))
    ensures xs == [] ==> r == Ok([])
  {
    StartNatural(page, size);
    r := WindowFrom(xs, (page - 1) * size, size);
  }

  /** The same, from a product computed in Go's int. */
  method WindowFrom<T(==)>(xs: seq<T>, product: nat, size: nat) returns (r: Result<seq<T>, PageError>)
    requires 1 <= size <= MAX_PAGE_SIZE && |xs| + MAX_PAGE_SIZE <= MAX_INT
    ensures r == Ok(From(xs, product, size)) <==> StartFits(|xs|, product)
    ensures r.Err? <==> xs != [] && Wrap(product) < 0
    ensures Wrap(product) >= 0 ==> r == Ok(From(xs, Wrap(product), size))
    ensures xs == [] ==> r == Ok([])
  {
    if |xs| == 0 {
      return Ok([]);
    }
    var start := Wrap(product);
    if start >= |xs| {
      assert From(xs, product, size) == [];
      return Ok([]);
    }
    var end := Wrap(start + size);
    if end > |xs| {
      end := |xs|;
    }
    if start < 0 {
      return Err(SliceBounds);
    }
    assert product > MAX_INT ==> From(xs, product, size) == [];
    return Ok(xs[start..end]);
  }

  /** A page number far beyond the end that shows the first page again. */
  lemma FarPageRepeats(length: nat)
    requires length > 0
    ensures var page := 0x4000_0000_0000_0001; IsInt(page) && Wrap((page - 1) * 20) == 0 && !StartFits(length, (page - 1) * 20)
  {
    assert 0x4000_0000_0000_0000 * 20 == 5 * (2 * MAX_INT + 2);
  }
}
