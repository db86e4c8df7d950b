/** Sample selection for the replay evaluation: four buckets, newest first, taken in turns. */
module Stratify {
  import opened Common
  import opened Sorting

  /** The four outcome buckets, and whatever other label a sample may carry. */
  datatype Bucket = Converted | Lead | Hooked | NoSignal | Unlisted(name: string)

  const ORDER: seq<Bucket> := [Converted, Lead, Hooked, NoSignal]

  datatype OutcomeFlags = OutcomeFlags(hooked: bool, leadCaptured: bool, arrived: bool, dealt: bool)

  /** The strongest signal decides, and every row falls into exactly one listed bucket. */
  function ClassifyOutcome(o: OutcomeFlags): (b: Bucket)
    ensures b in ORDER
    ensures b == Converted <==> o.arrived || o.dealt
    ensures b == Lead <==> o.leadCaptured && !o.arrived && !o.dealt
    ensures b == Hooked <==> o.hooked && !o.leadCaptured && !o.arrived && !o.dealt
    ensures b == NoSignal <==> !o.hooked && !o.leadCaptured && !o.arrived && !o.dealt
  {
    if o.arrived || o.dealt then Converted
    else if o.leadCaptured then Lead
    else if o.hooked then Hooked
    else NoSignal
  }

  datatype Sample = Sample(attributionId: nat, messageId: nat, conversationId: nat, customerId: nat,
                           createdAt: int, historyReply: string, bucket: Bucket)

  /** The place of a bucket in the rotation; an unlisted one never gets a turn. */
  function Pos(b: Bucket): (p: nat)
    ensures b in ORDER ==> p < 4 && ORDER[p] == b
    ensures b !in ORDER ==> p == 4
  {
    match b
    case Converted => 0
    case Lead => 1
    case Hooked => 2
    case NoSignal => 3
    case Unlisted(_) => 4
  }

  // ---------- grouping ----------

  function Group(s: seq<Sample>, b: Bucket): (r: seq<Sample>)
    ensures forall x :: x in r ==> x.bucket == b
  {
    if s == [] then [] else (if s[0].bucket == b then [s[0]] else []) + Group(s[1..], b)
  }

  lemma {:induction false} GroupAppend(s: seq<Sample>, t: seq<Sample>, b: Bucket)
    ensures Group(s + t, b) == Group(s, b) + Group(t, b)
  {
    if s == [] {
      assert s + t == t;
    } else {
      assert (s + t)[1..] == s[1..] + t;
      GroupAppend(s[1..], t, b);
    }
  }

  lemma {:induction false} GroupCount(s: seq<Sample>, x: Sample, b: Bucket)
    ensures multiset(Group(s, b))[x] == if x.bucket == b then multiset(s)[x] else 0
  {
    if s != [] {
      assert s == [s[0]] + s[1..];
      GroupCount(s[1..], x, b);
    }
  }

  /** How many samples of a sequence are in the four listed buckets. */
  function Listed(s: seq<Sample>): nat {
    |Group(s, Converted)| + |Group(s, Lead)| + |Group(s, Hooked)| + |Group(s, NoSignal)|
  }

  lemma {:induction false} ListedAll(s: seq<Sample>)
    requires forall x :: x in s ==> x.bucket in ORDER
    ensures Listed(s) == |s|
  {
    if s != [] {
      assert s[0] in s;
      ListedAll(s[1..]);
    }
  }

  // ---------- the stable sort ----------

  /** Newest first; of two samples of the same instant the larger id first. */
  predicate Before(a: Sample, b: Sample) {
    a.createdAt > b.createdAt || (a.createdAt == b.createdAt && a.attributionId > b.attributionId)
  }

  lemma BeforeIsOrder()
    ensures IsOrder(Before)
  {
  }

  // ---------- taking turns ----------

  /** What a bucket of the pool offers, in the order in which it is taken. */
  function Queue(pool: seq<Sample>, b: Bucket): seq<Sample> {
    Sort(Group(pool, b), Before)
  }

  lemma QueueMeans(pool: seq<Sample>, b: Bucket)
    ensures |Queue(pool, b)| == |Group(pool, b)|
    ensures forall x :: x in Queue(pool, b) ==> x.bucket == b
  {
    SortMeans(Group(pool, b), Before);
    assert forall x :: x in Queue(pool, b) ==> x in multiset(Group(pool, b));
  }

  function Pick(pool: seq<Sample>, b: Bucket, idx: nat): seq<Sample> {
    if idx < |Queue(pool, b)| then [Queue(pool, b)[idx]] else []
  }

  /** All that has been taken after `idx` full rounds and the turns of the first `p` buckets of the next. */
  function Cut(pool: seq<Sample>, idx: nat, p: nat): seq<Sample>
    requires p <= 4
    decreases idx, p
  {
    if p > 0 then Cut(pool, idx, p - 1) + Pick(pool, ORDER[p - 1], idx)
    else if idx > 0 then Cut(pool, idx - 1, 4)
    else []
  }

  /** Enough rounds to empty every listed bucket. */
  function Rounds(pool: seq<Sample>): nat {
    Max(Max(|Queue(pool, Converted)|, |Queue(pool, Lead)|), Max(|Queue(pool, Hooked)|, |Queue(pool, NoSignal)|))
  }

  function Everything(pool: seq<Sample>): seq<Sample> {
    Cut(pool, Rounds(pool), 0)
  }

  /** The cuts in one row, five to a round; the last of a round is the first of the next. */
  function CutAt(pool: seq<Sample>, t: nat): seq<Sample> {
    Cut(pool, t / 5, t % 5)
  }

  lemma CutNext(pool: seq<Sample>, t: nat)
    ensures CutAt(pool, t) <= CutAt(pool, t + 1)
  {
    var idx, p := t / 5, t % 5;
    assert if p < 4 then (t + 1) / 5 == idx && (t + 1) % 5 == p + 1 else (t + 1) / 5 == idx + 1 && (t + 1) % 5 == 0;
    if p < 4 {
      assert Cut(pool, idx, p + 1) == Cut(pool, idx, p) + Pick(pool, ORDER[p], idx);
    } else {
      assert Cut(pool, idx + 1, 0) == Cut(pool, idx, 4);
    }
  }

  lemma {:induction false} Grows<T>(f: nat -> seq<T>, s: nat, t: nat)
    requires s <= t && forall n: nat :: f(n) <= f(n + 1)
    ensures f(s) <= f(t)
    decreases t
  {
    if s < t {
      Grows(f, s, t - 1);
      assert f(t - 1) <= f(t - 1 + 1);
    }
  }

  lemma CutGrows(pool: seq<Sample>, i: nat, p: nat, j: nat, q: nat)
    requires p <= 4 && q <= 4 && (i < j || (i == j && p <= q))
    ensures Cut(pool, i, p) <= Cut(pool, j, q)
  {
    var f := (t: nat) => CutAt(pool, t);
    forall n: nat ensures f(n) <= f(n + 1) {
      CutNext(pool, n);
    }
    Grows(f, 5 * i + p, 5 * j + q);
    assert (5 * i + p) / 5 == i && (5 * i + p) % 5 == p && (5 * j + q) / 5 == j && (5 * j + q) % 5 == q;
  }

  lemma {:induction false} CutFull(pool: seq<Sample>, idx: nat, p: nat)
    requires p <= 4 && idx >= Rounds(pool)
    ensures Cut(pool, idx, p) == Everything(pool)
    decreases idx, p
  {
    if p > 0 {
      assert ORDER[p - 1] in ORDER;
      CutFull(pool, idx, p - 1);
    } else if idx > Rounds(pool) {
      CutFull(pool, idx - 1, 4);
    }
  }

  /** Every cut is an initial part of the whole rotation. */
  lemma CutIsPrefix(pool: seq<Sample>, idx: nat, p: nat)
    requires p <= 4
    ensures Cut(pool, idx, p) <= Everything(pool)
  {
    if idx >= Rounds(pool) { CutFull(pool, idx, p); } else { CutGrows(pool, idx, p, Rounds(pool), 0); }
  }

  /** Conversely every initial part of a cut is a cut. */
  lemma {:induction false} PrefixIsCut(pool: seq<Sample>, idx: nat, p: nat, n: nat) returns (i: nat, q: nat)
    requires p <= 4 && n <= |Cut(pool, idx, p)|
    ensures q <= 4 && Cut(pool, i, q) == Cut(pool, idx, p)[..n]
    decreases idx, p
  {
    if n == |Cut(pool, idx, p)| {
      i, q := idx, p;
    } else if p > 0 {
      i, q := PrefixIsCut(pool, idx, p - 1, n);
    } else {
      i, q := PrefixIsCut(pool, idx - 1, 4, n);
    }
  }

  /** How many of bucket b a cut holds. */
  function Share(pool: seq<Sample>, b: Bucket, idx: nat, p: nat): nat {
    if b !in ORDER then 0 else Min(|Queue(pool, b)|, idx + if Pos(b) < p then 1 else 0)
  }

  lemma NextTurn(pool: seq<Sample>, b: Bucket, idx: nat, p: nat)
    requires 0 < p <= 4
    ensures var queue := Queue(pool, b);
            queue[..Share(pool, b, idx, p)]
              == queue[..Share(pool, b, idx, p - 1)] + if Pos(b) == p - 1 then Pick(pool, b, idx) else []
  {
    assert Pos(b) == p - 1 ==> ORDER[p - 1] == b;
  }

  /** A cut holds of each bucket exactly the first few, in order. */
  lemma {:induction false} CutShares(pool: seq<Sample>, idx: nat, p: nat, b: Bucket)
    requires p <= 4
    ensures Share(pool, b, idx, p) <= |Queue(pool, b)|
    ensures Group(Cut(pool, idx, p), b) == Queue(pool, b)[..Share(pool, b, idx, p)]
    decreases idx, p
  {
    if p > 0 {
      CutShares(pool, idx, p - 1, b);
      GroupAppend(Cut(pool, idx, p - 1), Pick(pool, ORDER[p - 1], idx), b);
      PickGroup(pool, p - 1, idx, b);
      NextTurn(pool, b, idx, p);
    } else if idx > 0 {
      CutShares(pool, idx - 1, 4, b);
    }
  }

  lemma PickGroup(pool: seq<Sample>, turn: nat, idx: nat, b: Bucket)
    requires turn < 4
    ensures Group(Pick(pool, ORDER[turn], idx), b) == if Pos(b) == turn then Pick(pool, b, idx) else []
  {
    QueueMeans(pool, ORDER[turn]);
    assert forall x :: x in Pick(pool, ORDER[turn], idx) ==> x in Queue(pool, ORDER[turn]);
  }

  lemma {:induction false} CutListed(pool: seq<Sample>, idx: nat, p: nat)
    requires p <= 4
    ensures forall x :: x in Cut(pool, idx, p) ==> x.bucket in ORDER
    decreases idx, p
  {
    if p > 0 {
      CutListed(pool, idx, p - 1);
      var turn := ORDER[p - 1];
      QueueMeans(pool, turn);
      assert forall x :: x in Pick(pool, turn, idx) ==> x in Queue(pool, turn);
    } else if idx > 0 {
      CutListed(pool, idx - 1, 4);
    }
  }

  // ---------- the selection ----------

  /** The selection: as much of the rotation as the limit allows. */
  function Selection(pool: seq<Sample>, limit: int): seq<Sample> {
    var all := Everything(pool);
    if limit <= 0 then [] else if limit < |all| then all[..limit] else all
  }

  lemma SelectionIsCut(pool: seq<Sample>, limit: int) returns (i: nat, q: nat)
    ensures q <= 4 && Selection(pool, limit) == Cut(pool, i, q)
  {
    var n := |Selection(pool, limit)|;
    i, q := PrefixIsCut(pool, Rounds(pool), 0, n);
  }

  /** If bucket a got fewer than bucket b, then a is exhausted, or b is just one turn ahead. */
  ghost predicate Fair(out: seq<Sample>, pool: seq<Sample>, a: Bucket, b: Bucket) {
    var got_a, got_b := |Group(out, a)|, |Group(out, b)|;
    got_a < got_b ==> got_a == |Group(pool, a)| || (got_b == got_a + 1 && Pos(b) < Pos(a))
  }

  /** Selection is max-min fair, takes the newest of each bucket, fills the limit as far as the listed
      buckets allow, and invents or repeats nothing. */
  lemma SelectionIsFair(pool: seq<Sample>, limit: int)
    ensures var out := Selection(pool, limit);
            && |out| == Min(Max(limit, 0), Listed(pool))
            && (forall b :: Group(out, b) <= Queue(pool, b))
            && (forall a, b :: a in ORDER && b in ORDER ==> Fair(out, pool, a, b))
            && (forall x :: x in out ==> x.bucket in ORDER)
            && multiset(out) <= multiset(pool)
  {
    var out := Selection(pool, limit);
    var i, q := SelectionIsCut(pool, limit);
    forall b ensures |Group(out, b)| == Share(pool, b, i, q) && Group(out, b) <= Queue(pool, b) && |Queue(pool, b)| == |Group(pool, b)| {
      CutShares(pool, i, q, b);
      QueueMeans(pool, b);
    }
    CutListed(pool, i, q);
    EverythingListed(pool);
    SelectionWithin(pool, out);
  }

  /** `x` is newer than `y`, or as new with an id at least as large. */
  predicate NoOlder(x: Sample, y: Sample) {
    x.createdAt > y.createdAt || (x.createdAt == y.createdAt && x.attributionId >= y.attributionId)
  }

  lemma SortedNewestFirst(s: seq<Sample>, i: nat, j: nat)
    requires Sorted(s, Before) && i < j < |s|
    ensures NoOlder(s[i], s[j])
  {
  }

  /** Within each bucket the selection runs from newer to older, and a sample of the pool that is not selected, or
      not as often as it is there, is no newer than any selected one of its bucket. */
  lemma NewestFirst(pool: seq<Sample>, limit: int)
    ensures var out := Selection(pool, limit);
            && (forall b, i, j :: 0 <= i < j < |Group(out, b)| ==> NoOlder(Group(out, b)[i], Group(out, b)[j]))
            && (forall x: Sample, y: Sample :: y in out && x.bucket == y.bucket && multiset(out)[x] < multiset(pool)[x] ==> NoOlder(y, x))
  {
    var out := Selection(pool, limit);
    SelectionIsFair(pool, limit);
    BeforeIsOrder();
    forall b, i, j | 0 <= i < j < |Group(out, b)| ensures NoOlder(Group(out, b)[i], Group(out, b)[j]) {
      SortMeans(Group(pool, b), Before);
      SortedNewestFirst(Queue(pool, b), i, j);
    }
    forall x: Sample, y: Sample | y in out && x.bucket == y.bucket && multiset(out)[x] < multiset(pool)[x] ensures NoOlder(y, x) {
      LeftOutIsNoNewer(pool, out, x, y);
    }
  }

  lemma LeftOutIsNoNewer(pool: seq<Sample>, out: seq<Sample>, x: Sample, y: Sample)
    requires y in out && x.bucket == y.bucket && multiset(out)[x] < multiset(pool)[x]
    requires Group(out, x.bucket) <= Queue(pool, x.bucket)
    ensures NoOlder(y, x)
  {
    var b := x.bucket;
    BeforeIsOrder();
    SortMeans(Group(pool, b), Before);
    GroupCount(out, x, b);
    GroupCount(out, y, b);
    GroupCount(pool, x, b);
    assert y in multiset(Group(out, b));
    BehindThePrefix(Queue(pool, b), Group(out, b), x, y);
  }

  lemma BehindThePrefix(queue: seq<Sample>, taken: seq<Sample>, x: Sample, y: Sample)
    requires taken <= queue && Sorted(queue, Before)
    requires y in taken && multiset(taken)[x] < multiset(queue)[x]
    ensures NoOlder(y, x)
  {
    var rest := queue[|taken|..];
    assert queue == taken + rest;
    assert x in multiset(rest);
    var i :| 0 <= i < |taken| && taken[i] == y;
    var j :| 0 <= j < |rest| && rest[j] == x;
    assert queue[i] == y && queue[|taken| + j] == x;
    SortedNewestFirst(queue, i, |taken| + j);
  }

  /** When every listed bucket has a sample, the first four selected are one of each, the rarest kind first. */
  lemma FirstRound(pool: seq<Sample>, limit: int)
    requires limit >= 4 && forall b :: b in ORDER ==> Group(pool, b) != []
    ensures var out := Selection(pool, limit);
            && |out| >= 4
            && out[0].bucket == Converted && out[1].bucket == Lead && out[2].bucket == Hooked && out[3].bucket == NoSignal
  {
    forall k | 0 <= k < 4 ensures |Queue(pool, ORDER[k])| > 0 && Queue(pool, ORDER[k])[0].bucket == ORDER[k] {
      QueueMeans(pool, ORDER[k]);
      assert Queue(pool, ORDER[k])[0] in Queue(pool, ORDER[k]);
    }
    FirstCut(pool);
    CutIsPrefix(pool, 0, 4);
  }

  lemma FirstCut(pool: seq<Sample>)
    requires forall k :: 0 <= k < 4 ==> |Queue(pool, ORDER[k])| > 0
    ensures |Cut(pool, 0, 4)| == 4 && forall k :: 0 <= k < 4 ==> Cut(pool, 0, 4)[k] == Queue(pool, ORDER[k])[0]
  {
    var cuts := RoundCuts(pool, 0);
    assert cuts[0] == [];
    assert cuts[1] == cuts[0] + Pick(pool, ORDER[0], 0);
    assert cuts[2] == cuts[1] + Pick(pool, ORDER[1], 0);
    assert cuts[3] == cuts[2] + Pick(pool, ORDER[2], 0);
    assert cuts[4] == cuts[3] + Pick(pool, ORDER[3], 0);
  }

  lemma EverythingListed(pool: seq<Sample>)
    ensures |Everything(pool)| == Listed(pool)
  {
    CutListed(pool, Rounds(pool), 0);
    ListedAll(Everything(pool));
    forall b | b in ORDER ensures |Group(Everything(pool), b)| == |Group(pool, b)| {
      CutShares(pool, Rounds(pool), 0, b);
      QueueMeans(pool, b);
    }
  }

  lemma SelectionWithin(pool: seq<Sample>, out: seq<Sample>)
    requires forall b :: Group(out, b) <= Queue(pool, b)
    ensures multiset(out) <= multiset(pool)
  {
    forall x ensures multiset(out)[x] <= multiset(pool)[x] {
      var all := Sort(Group(pool, x.bucket), Before);
      var mine := Group(out, x.bucket);
      assert mine <= all;
      assert all == mine + all[|mine|..];
      SortMeans(Group(pool, x.bucket), Before);
      GroupCount(pool, x, x.bucket);
      GroupCount(out, x, x.bucket);
    }
  }

  /** With distinct ids in the pool no id is selected twice. */
  lemma NoRepeats(pool: seq<Sample>, limit: int)
    requires forall i, j :: 0 <= i < j < |pool| ==> pool[i].attributionId != pool[j].attributionId
    ensures var out := Selection(pool, limit);
            forall i, j :: 0 <= i < j < |out| ==> out[i].attributionId != out[j].attributionId
  {
    SelectionIsFair(pool, limit);
    DistinctWithin(pool, Selection(pool, limit));
  }

  lemma DistinctWithin(pool: seq<Sample>, out: seq<Sample>)
    requires multiset(out) <= multiset(pool)
    requires forall i, j :: 0 <= i < j < |pool| ==> pool[i].attributionId != pool[j].attributionId
    ensures forall i, j :: 0 <= i < j < |out| ==> out[i].attributionId != out[j].attributionId
  {
    forall i, j | 0 <= i < j < |out| ensures out[i].attributionId != out[j].attributionId {
      assert out[i] in multiset(pool) && out[j] in multiset(pool);
      if out[i].attributionId == out[j].attributionId {
        Twice(out, i, j);
        var k :| 0 <= k < |pool| && pool[k] == out[i];
        OnceInMultiset(pool, k);
      }
    }
  }

  lemma OnceInMultiset<T>(s: seq<T>, k: nat)
    requires k < |s| && forall i :: 0 <= i < |s| && i != k ==> s[i] != s[k]
    ensures multiset(s)[s[k]] == 1
  {
    assert s == s[..k] + [s[k]] + s[k + 1..];
    assert s[k] !in s[..k] && s[k] !in s[k + 1..];
  }

  // ---------- what the selection depends on ----------

  /** Two samples of one listed bucket that the sort cannot tell apart are the same sample. */
  ghost predicate NoTiesInBucket(pool: seq<Sample>) {
    forall x, y :: x in pool && y in pool && x.bucket == y.bucket && x.bucket in ORDER && Tied(x, y, Before) ==> x == y
  }

  /** Attribution ids are primary keys: with distinct ids nothing ties. */
  lemma DistinctIdsNeverTie(pool: seq<Sample>)
    requires forall i, j :: 0 <= i < j < |pool| ==> pool[i].attributionId != pool[j].attributionId
    ensures NoTiesInBucket(pool)
  {
  }

  /** Without ties the selection depends on the contents of the pool alone, and a smaller limit selects
      an initial part of what a larger one does. */
  lemma ContentsDecide(pool: seq<Sample>, other: seq<Sample>, limit: int, larger: int)
    requires multiset(pool) == multiset(other) && NoTiesInBucket(pool) && limit <= larger
    ensures Selection(pool, limit) == Selection(other, limit)
    ensures Selection(pool, limit) <= Selection(other, larger)
  {
    forall b | b in ORDER ensures Queue(pool, b) == Queue(other, b) {
      SameGroup(pool, other, b);
    }
    SameCut(pool, other, Rounds(pool), 0);
    SmallerLimit(other, limit, larger);
  }

  lemma SmallerLimit(pool: seq<Sample>, limit: int, larger: int)
    requires limit <= larger
    ensures Selection(pool, limit) <= Selection(pool, larger)
  {
  }

  lemma SameGroup(pool: seq<Sample>, other: seq<Sample>, b: Bucket)
    requires multiset(pool) == multiset(other) && NoTiesInBucket(pool) && b in ORDER
    ensures Sort(Group(pool, b), Before) == Sort(Group(other, b), Before)
  {
    var s, t := Group(pool, b), Group(other, b);
    forall x ensures multiset(s)[x] == multiset(t)[x] {
      GroupCount(pool, x, b);
      GroupCount(other, x, b);
    }
    assert multiset(s) == multiset(t);
    forall x | x in multiset(s) ensures x in pool && x.bucket == b {
      GroupCount(pool, x, b);
    }
    BeforeIsOrder();
    SortForgetsOrder(s, t, Before);
  }

  lemma {:induction false} SameCut(pool: seq<Sample>, other: seq<Sample>, idx: nat, p: nat)
    requires p <= 4 && forall b :: b in ORDER ==> Queue(pool, b) == Queue(other, b)
    ensures Cut(pool, idx, p) == Cut(other, idx, p)
    decreases idx, p
  {
    if p > 0 { SameCut(pool, other, idx, p - 1); } else if idx > 0 { SameCut(pool, other, idx - 1, 4); }
  }

  /** A tie between two different samples of a listed bucket makes the order of the pool show. */
  lemma TiesShow(rest: seq<Sample>, x: Sample, y: Sample)
    requires x != y && Tied(x, y, Before) && x.bucket == y.bucket && x.bucket in ORDER
    ensures var n := |rest| + 2; Selection([x, y] + rest, n) != Selection([y, x] + rest, n)
  {
    var b := x.bucket;
    var p, q := [x, y] + rest, [y, x] + rest;
    SelectsAllOf(p, b);
    SelectsAllOf(q, b);
    assert p[1..][1..] == rest && q[1..][1..] == rest;
    var tail := Sort(Group(rest, b), Before);
    assert Sort(Group(p, b), Before) == Insert(x, Insert(y, tail, Before), Before) by {
      assert Group(p, b) == [x] + ([y] + Group(rest, b));
      assert Group(p, b)[1..] == [y] + Group(rest, b) && ([y] + Group(rest, b))[1..] == Group(rest, b);
    }
    assert Sort(Group(q, b), Before) == Insert(y, Insert(x, tail, Before), Before) by {
      assert Group(q, b) == [y] + ([x] + Group(rest, b));
      assert Group(q, b)[1..] == [x] + Group(rest, b) && ([x] + Group(rest, b))[1..] == Group(rest, b);
    }
    BeforeIsOrder();
    TiedInserts(x, y, tail, Before);
  }

  lemma Without<T>(s: seq<T>, x: T) returns (rest: seq<T>)
    requires x in s
    ensures multiset(s) == multiset{x} + multiset(rest)
  {
    var i :| 0 <= i < |s| && s[i] == x;
    rest := s[..i] + s[i + 1..];
    assert s == s[..i] + [x] + s[i + 1..];
  }

  /** A permutation of a pool that begins with two given samples. */
  lemma ToTheFront<T>(pool: seq<T>, x: T, y: T) returns (rest: seq<T>)
    requires x in pool && y in pool && x != y
    ensures multiset(pool) == multiset{x, y} + multiset(rest)
  {
    var others := Without(pool, x);
    assert y in multiset(pool);
    rest := Without(others, y);
  }

  ghost predicate OrderNeverShows(pool: seq<Sample>) {
    forall other, limit :: multiset(other) == multiset(pool) ==> Selection(other, limit) == Selection(pool, limit)
  }

  /** Exactly without ties in a listed bucket is the selection a function of the contents of the pool. */
  lemma OrderShowsIffTies(pool: seq<Sample>)
    ensures NoTiesInBucket(pool) <==> OrderNeverShows(pool)
  {
    if NoTiesInBucket(pool) {
      forall other, limit | multiset(other) == multiset(pool) ensures Selection(other, limit) == Selection(pool, limit) {
        ContentsDecide(pool, other, limit, limit);
      }
    } else {
      var x, y :| x in pool && y in pool && x.bucket == y.bucket && x.bucket in ORDER && Tied(x, y, Before) && x != y;
      TieShowsIn(pool, x, y);
    }
  }

  lemma TieShowsIn(pool: seq<Sample>, x: Sample, y: Sample)
    requires x in pool && y in pool && x != y && Tied(x, y, Before) && x.bucket == y.bucket && x.bucket in ORDER
    ensures !OrderNeverShows(pool)
  {
    var rest := ToTheFront(pool, x, y);
    TiesShow(rest, x, y);
    SameContents(pool, x, y, rest);
    DifferenceShows(pool, [x, y] + rest, [y, x] + rest, |rest| + 2);
  }

  lemma DifferenceShows(pool: seq<Sample>, p: seq<Sample>, q: seq<Sample>, n: int)
    requires multiset(p) == multiset(pool) && multiset(q) == multiset(pool) && Selection(p, n) != Selection(q, n)
    ensures !OrderNeverShows(pool)
  {
    assert OrderNeverShows(pool) ==> Selection(p, n) == Selection(pool, n);
  }

  lemma SameContents<T>(pool: seq<T>, x: T, y: T, rest: seq<T>)
    requires multiset(pool) == multiset{x, y} + multiset(rest)
    ensures multiset([x, y] + rest) == multiset(pool) && multiset([y, x] + rest) == multiset(pool)
  {
  }

  lemma SelectsAllOf(pool: seq<Sample>, b: Bucket)
    requires b in ORDER
    ensures Group(Selection(pool, |pool|), b) == Sort(Group(pool, b), Before)
  {
    EverythingListed(pool);
    ListedAtMost(pool);
    CutShares(pool, Rounds(pool), 0, b);
  }

  lemma {:induction false} ListedAtMost(s: seq<Sample>)
    ensures Listed(s) <= |s|
  {
    if s != [] { ListedAtMost(s[1..]); }
  }

  // ---------- the loops ----------

  type Groups = map<Bucket, seq<Sample>>

  /** A missing key reads as an empty slice. */
  function At(g: Groups, b: Bucket): seq<Sample> {
    if b in g then g[b] else []
  }

  lemma OneMoreGrouped(groups: Groups, done: seq<Sample>, s: Sample)
    requires forall b :: At(groups, b) == Group(done, b)
    ensures forall b :: At(groups[s.bucket := At(groups, s.bucket) + [s]], b) == Group(done + [s], b)
  {
    forall b ensures Group(done + [s], b) == Group(done, b) + if s.bucket == b then [s] else [] {
      GroupAppend(done, [s], b);
      assert [s][1..] == [];
    }
  }

  /** The grouping loop: every sample is appended to the slice of its bucket. */
  method GroupByBucket(pool: seq<Sample>) returns (groups: Groups)
    ensures forall b :: At(groups, b) == Group(pool, b)
  {
    groups := map[];
    for k := 0 to |pool|
      invariant forall b :: At(groups, b) == Group(pool[..k], b)
    {
      var s := pool[k];
      assert pool[..k + 1] == pool[..k] + [s];
      OneMoreGrouped(groups, pool[..k], s);
      groups := groups[s.bucket := At(groups, s.bucket) + [s]];
    }
    assert pool[..|pool|] == pool;
  }

  /** The sorting loop: every slice of the map is sorted, in whatever order the map yields its keys. */
  method SortGroups(groups: Groups) returns (sorted: Groups)
    ensures forall b :: At(sorted, b) == Sort(At(groups, b), Before)
  {
    sorted := groups;
    var left := groups.Keys;
    while left != {}
      invariant left <= groups.Keys == sorted.Keys
      invariant forall b :: b in groups ==> sorted[b] == if b in left then groups[b] else Sort(groups[b], Before)
      decreases left
    {
      var b :| b in left;
      sorted := sorted[b := Sort(sorted[b], Before)];
      left := left - {b};
    }
  }

  /** One round: a sample from every bucket that still has one, until the limit is reached. */
  method TakeRound(groups: Groups, idx: nat, taken: seq<Sample>, limit: int, ghost pool: seq<Sample>)
    returns (out: seq<Sample>, progress: bool)
    requires forall b :: At(groups, b) == Queue(pool, b)
    requires |taken| < limit && taken == Cut(pool, idx, 0)
    ensures |out| <= limit
    ensures if |out| < limit then out == Cut(pool, idx, 4) else exists p :: 0 <= p <= 4 && out == Cut(pool, idx, p)
    ensures !progress ==> |out| < limit && idx >= Rounds(pool)
    ensures progress ==> idx < Rounds(pool)
  {
    ghost var queues, cuts := RoundQueues(pool), RoundCuts(pool, idx);
    out, progress := TakeTurns(groups, idx, taken, limit, queues, cuts);
    SomethingLeft(pool, idx, queues);
  }

  ghost function RoundQueues(pool: seq<Sample>): (queues: seq<seq<Sample>>)
    ensures |queues| == 4 && forall k :: 0 <= k < 4 ==> queues[k] == Queue(pool, ORDER[k])
  {
    seq(4, k requires 0 <= k < 4 => Queue(pool, ORDER[k]))
  }

  lemma SomethingLeft(pool: seq<Sample>, idx: nat, queues: seq<seq<Sample>>)
    requires |queues| == 4 && forall k :: 0 <= k < 4 ==> queues[k] == Queue(pool, ORDER[k])
    ensures (exists k :: 0 <= k < 4 && idx < |queues[k]|) <==> idx < Rounds(pool)
  {
    assert ORDER[0] == Converted && ORDER[1] == Lead && ORDER[2] == Hooked && ORDER[3] == NoSignal;
    assert |queues[0]| == |Queue(pool, Converted)| && |queues[1]| == |Queue(pool, Lead)|;
    assert |queues[2]| == |Queue(pool, Hooked)| && |queues[3]| == |Queue(pool, NoSignal)|;
  }

  /** The cuts of one round: before its first turn, and after each of the four. */
  ghost function RoundCuts(pool: seq<Sample>, idx: nat): (cuts: seq<seq<Sample>>)
    ensures |cuts| == 5
    ensures forall k :: 0 <= k < 5 ==> cuts[k] == Cut(pool, idx, k)
    ensures forall k :: 0 <= k < 4 ==> cuts[k + 1] == cuts[k] + Pick(pool, ORDER[k], idx)
  {
    seq(5, k requires 0 <= k < 5 => Cut(pool, idx, k))
  }

  /** The loop of one round, over the four buckets. */
  method TakeTurns(groups: Groups, idx: nat, taken: seq<Sample>, limit: int,
                   ghost queues: seq<seq<Sample>>, ghost cuts: seq<seq<Sample>>)
    returns (out: seq<Sample>, progress: bool)
    requires |queues| == 4 && forall k :: 0 <= k < 4 ==> At(groups, ORDER[k]) == queues[k]
    requires |cuts| == 5 && cuts[0] == taken && |taken| < limit
    requires forall k :: 0 <= k < 4 ==> cuts[k + 1] == cuts[k] + if idx < |queues[k]| then [queues[k][idx]] else []
    ensures |out| <= limit
    ensures if |out| < limit then out == cuts[4] else exists p :: 0 <= p <= 4 && out == cuts[p]
    ensures progress <==> exists k :: 0 <= k < 4 && idx < |queues[k]|
    ensures !progress ==> |out| < limit
  {
    out, progress := taken, false;
    for k := 0 to 4
      invariant |out| < limit && out == cuts[k]
      invariant progress <==> exists j :: 0 <= j < k && idx < |queues[j]|
    {
      var b := ORDER[k];
      if idx < |At(groups, b)| {
        out := out + [At(groups, b)[idx]];
        progress := true;
        assert out == cuts[k + 1];
        if |out| >= limit {
          return;
        }
      }
    }
  }

  /** `stratifySamples`: group, sort, and take in turns. */
  method StratifySamples(pool: seq<Sample>, limit: int) returns (out: seq<Sample>)
    ensures out == Selection(pool, limit)
  {
    if limit <= 0 || |pool| == 0 {
      assert |pool| == 0 ==> Everything(pool) == [] by { EverythingListed(pool); }
      return [];
    }
    var groups := GroupByBucket(pool);
    groups := SortGroups(groups);
    out := TakeRounds(groups, limit, pool);
  }

  /** Rounds until the limit is reached or a round adds nothing. */
  method TakeRounds(groups: Groups, limit: int, ghost pool: seq<Sample>) returns (out: seq<Sample>)
    requires limit > 0 && forall b :: At(groups, b) == Queue(pool, b)
    ensures out == Selection(pool, limit)
  {
    out := [];
    var idx := 0;
    while |out| < limit
      invariant |out| <= limit
      invariant |out| < limit ==> out == Cut(pool, idx, 0)
      invariant |out| == limit ==> out <= Everything(pool)
      decreases Rounds(pool) - idx, limit - |out|
    {
      var progress: bool;
      out, progress := TakeRound(groups, idx, out, limit, pool);
      if !progress {
        CutFull(pool, idx, 4);
        return;
      }
      if |out| == limit {
        ghost var p :| 0 <= p <= 4 && out == Cut(pool, idx, p);
        CutIsPrefix(pool, idx, p);
      }
      idx := idx + 1;
    }
  }
}
