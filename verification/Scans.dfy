/** Recording scans of a code: a repeated visit within ten minutes of the last recorded one is not a new scan. */
module Scans {
  import opened Common
  import opened Text
  import opened AcquisitionPolicy

  const TEN_MINUTES: int := 600_000_000_000

  datatype Scan = Scan(tenant: nat, codeId: nat, customer: nat, visitorKey: string, now: int)

  datatype Row = Row(tenant: nat, codeId: nat, customer: nat, visitorKey: string, createdAt: int)

  datatype ScanError = MissingTenantOrCode

  /** Whose scans are merged: one visitor key on one code of one tenant. */
  datatype Visitor = Visitor(tenant: nat, codeId: nat, key: string)

  function VisitorOf(s: Scan): Visitor {
    Visitor(s.tenant, s.codeId, Trim(s.visitorKey))
  }

  function RowVisitor(r: Row): Visitor {
    Visitor(r.tenant, r.codeId, r.visitorKey)
  }

  predicate Acceptable(s: Scan) {
    s.tenant != 0 && s.codeId != 0
  }

  /** The time of a visitor's most recent row: the answer of the query the decision rests on. */
  function LastSeen(rows: seq<Row>, v: Visitor): (t: Option<int>)
    ensures t.None? <==> forall i :: 0 <= i < |rows| ==> RowVisitor(rows[i]) != v
    ensures t.Some? ==> exists i :: 0 <= i < |rows| && RowVisitor(rows[i]) == v && rows[i].createdAt == t.value
    ensures t.Some? ==> forall i :: 0 <= i < |rows| && RowVisitor(rows[i]) == v ==> rows[i].createdAt <= t.value
  {
    if rows == [] then None
    else
      var rest := LastSeen(rows[..|rows| - 1], v);
      var last := rows[|rows| - 1];
      if RowVisitor(last) != v then rest
      else if rest.None? then Some(last.createdAt)
      else Some(Max(rest.value, last.createdAt))
  }

  predicate Counts(rows: seq<Row>, s: Scan) {
    Acceptable(s) && ShouldCountScan(s.visitorKey, LastSeen(rows, VisitorOf(s)), s.now)
  }

  function RowOf(s: Scan): Row {
    Row(s.tenant, s.codeId, s.customer, Trim(s.visitorKey), s.now)
  }

  function RowsAfter(rows: seq<Row>, s: Scan): seq<Row> {
    if Counts(rows, s) then rows + [RowOf(s)] else rows
  }

  class ScanLog {
    var rows: seq<Row>

    constructor ()
      ensures rows == []
    {
      rows := [];
    }

    /** `RecordScan` */
    method RecordScan(s: Scan) returns (counted: Result<bool, ScanError>)
      modifies this
      ensures rows == RowsAfter(old(rows), s)
      ensures counted == if Acceptable(s) then Ok(rows != old(rows)) else Err(MissingTenantOrCode)
      ensures rows == old(rows)
        || rows == old(rows) + [Row(s.tenant, s.codeId, s.customer, Trim(s.visitorKey), s.now)]
    {
      if s.tenant == 0 || s.codeId == 0 {
        return Err(MissingTenantOrCode);
      }
      var vk := Trim(s.visitorKey);
      TrimIdempotent(s.visitorKey);
      if vk != "" {
        var seen := LastSeen(rows, Visitor(s.tenant, s.codeId, vk));
        if !ShouldCountScan(vk, seen, s.now) {
          return Ok(false);
        }
      }
      rows := rows + [Row(s.tenant, s.codeId, s.customer, vk, s.now)];
      return Ok(true);
    }
  }

  // ---------- whole runs of one visitor, among any other scans ----------

  /** The rows after a run of scans, one at a time, on an empty table. */
  function RowsOf(run: seq<Scan>): seq<Row> {
    if run == [] then [] else RowsAfter(RowsOf(run[..|run| - 1]), run[|run| - 1])
  }

  predicate InOrder(run: seq<Scan>) {
    forall i, j :: 0 <= i < j < |run| ==> run[i].now <= run[j].now
  }

  /** When a visitor scanned. */
  function Times(run: seq<Scan>, v: Visitor): seq<int> {
    if run == [] then []
    else Times(run[..|run| - 1], v) + if VisitorOf(run[|run| - 1]) == v then [run[|run| - 1].now] else []
  }

  /** When a visitor's counted scans happened. */
  function Counted(rows: seq<Row>, v: Visitor): seq<int> {
    if rows == [] then []
    else Counted(rows[..|rows| - 1], v) + if RowVisitor(rows[|rows| - 1]) == v then [rows[|rows| - 1].createdAt] else []
  }

  /** The greedy filter, without any table: keep a time when it is a window away from the last one kept. */
  function Greedy(ts: seq<int>): seq<int> {
    if ts == [] then []
    else
      var kept, t := Greedy(ts[..|ts| - 1]), ts[|ts| - 1];
      if kept == [] || t - kept[|kept| - 1] >= TEN_MINUTES then kept + [t] else kept
  }

  predicate Sorted(ts: seq<int>) {
    forall i, j :: 0 <= i < j < |ts| ==> ts[i] <= ts[j]
  }

  /** Pairwise at least a window apart. */
  predicate Spaced(ts: seq<int>) {
    forall i, j :: 0 <= i < j < |ts| ==> ts[j] - ts[i] >= TEN_MINUTES
  }

  /** `t` is no earlier than some time of `kept` and less than a window after it. */
  predicate Covered(t: int, kept: seq<int>) {
    exists k :: 0 <= k < |kept| && kept[k] <= t < kept[k] + TEN_MINUTES
  }

  lemma {:induction false} TimesWithin(run: seq<Scan>, v: Visitor, now: int)
    requires InOrder(run)
    requires forall i :: 0 <= i < |run| ==> run[i].now <= now
    ensures Sorted(Times(run, v))
    ensures forall t :: t in Times(run, v) ==> t <= now
  {
    if run != [] {
      var init, last := Times(run[..|run| - 1], v), run[|run| - 1].now;
      TimesWithin(run[..|run| - 1], v, last);
      assert forall i :: 0 <= i < |init| ==> init[i] in init;
      assert Times(run, v) == init || Times(run, v) == init + [last];
    }
  }

  lemma {:induction false} GreedyKeeps(ts: seq<int>)
    requires Sorted(ts)
    ensures Spaced(Greedy(ts))
    ensures forall t :: t in Greedy(ts) ==> t in ts
    ensures forall t :: t in ts ==> Covered(t, Greedy(ts))
  {
    if ts != [] {
      var init, t := ts[..|ts| - 1], ts[|ts| - 1];
      var kept, all := Greedy(init), Greedy(ts);
      GreedyKeeps(init);
      forall x | x in init ensures Covered(x, all) {
        var k :| 0 <= k < |kept| && kept[k] <= x < kept[k] + TEN_MINUTES;
        assert all[k] == kept[k];
      }
      if all == kept {
        assert kept[|kept| - 1] in init;
      } else {
        assert all[|kept|] == t;
        if kept != [] {
          assert forall i :: 0 <= i < |kept| ==> kept[i] <= kept[|kept| - 1];
        }
      }
      assert Covered(t, all);
    }
  }

  /** The latest row of a visitor, when rows were added in order of time. */
  lemma {:induction false} LastSeenIsLast(rows: seq<Row>, v: Visitor)
    requires Sorted(Counted(rows, v))
    ensures var c := Counted(rows, v);
            LastSeen(rows, v) == if c == [] then None else Some(c[|c| - 1])
  {
    if rows != [] {
      var init, last := Counted(rows[..|rows| - 1], v), rows[|rows| - 1];
      assert Counted(rows, v) == init + if RowVisitor(last) == v then [last.createdAt] else [];
      SortedInit(init, if RowVisitor(last) == v then [last.createdAt] else []);
      LastSeenIsLast(rows[..|rows| - 1], v);
    }
  }

  lemma SortedInit(init: seq<int>, more: seq<int>)
    requires Sorted(init + more)
    ensures Sorted(init)
    ensures init != [] && more != [] ==> init[|init| - 1] <= more[0]
  {
    var all := init + more;
    assert forall i :: 0 <= i < |init| ==> init[i] == all[i];
    assert more != [] ==> all[|init|] == more[0];
  }

  /** A visitor on a real code, whose scans are merged. */
  predicate Recognised(v: Visitor) {
    v.tenant != 0 && v.codeId != 0 && v.key != ""
  }

  /** What one scan adds to the counted scans of a visitor. */
  lemma CountedAfter(rows: seq<Row>, s: Scan, v: Visitor)
    ensures Counted(RowsAfter(rows, s), v)
      == Counted(rows, v) + if Counts(rows, s) && VisitorOf(s) == v then [s.now] else []
  {
    if Counts(rows, s) {
      assert RowsAfter(rows, s)[..|rows|] == rows;
    }
  }

  /** Whatever else is scanned in between, the counted scans of a visitor are the greedy selection. */
  lemma {:induction false} CountedIsGreedy(run: seq<Scan>, v: Visitor)
    requires InOrder(run) && Recognised(v)
    ensures Counted(RowsOf(run), v) == Greedy(Times(run, v))
  {
    if run != [] {
      var init, s := run[..|run| - 1], run[|run| - 1];
      CountedIsGreedy(init, v);
      TimesWithin(init, v, s.now);
      GreedyKeeps(Times(init, v));
      CountedAfter(RowsOf(init), s, v);
      if VisitorOf(s) == v {
        LastSeenIsLast(RowsOf(init), v);
        assert Times(run, v)[..|Times(init, v)|] == Times(init, v);
      } else {
        assert Times(run, v) == Times(init, v);
      }
    }
  }

  /** Spaced times, each covered by a sorted list of counted ones, are no more than those. */
  lemma {:induction false} NoMoreThan(some: seq<int>, kept: seq<int>)
    requires Spaced(some) && Sorted(kept)
    requires forall t :: t in some ==> Covered(t, kept)
    ensures |some| <= |kept|
    decreases |kept|
  {
    if some != [] {
      assert Covered(some[0], kept);
      var n, last := |some| - 1, kept[|kept| - 1];
      assert Covered(some[n], kept) && some[n] < last + TEN_MINUTES;
      var fewer := if some[n] < last then some else some[..n];
      forall i | 0 <= i < |fewer| ensures Covered(fewer[i], kept[..|kept| - 1]) {
        assert fewer[i] == some[i] && Covered(some[i], kept);
        var k :| 0 <= k < |kept| && kept[k] <= some[i] < kept[k] + TEN_MINUTES;
        assert some[i] < last && kept[..|kept| - 1][k] == kept[k];
      }
      NoMoreThan(fewer, kept[..|kept| - 1]);
    }
  }

  /** For one visitor, among any other scans in order of time: the counted scans are scans, pairwise ten
      minutes apart; every scan has a counted one at most, but not quite, ten minutes before it; and no
      selection of scans that are pairwise ten minutes apart is larger. */
  lemma CountedIsOptimal(run: seq<Scan>, v: Visitor)
    requires InOrder(run) && Recognised(v)
    ensures var counted, all := Counted(RowsOf(run), v), Times(run, v);
            && Spaced(counted)
            && (forall t :: t in counted ==> t in all)
            && (forall t :: t in all ==> Covered(t, counted))
            && (forall some: seq<int> :: Spaced(some) && (forall t :: t in some ==> t in all) ==> |some| <= |counted|)
  {
    var counted, all := Counted(RowsOf(run), v), Times(run, v);
    CountedIsGreedy(run, v);
    TimesWithin(run, v, if run == [] then 0 else run[|run| - 1].now);
    GreedyKeeps(all);
    forall some: seq<int> | Spaced(some) && (forall t :: t in some ==> t in all) ensures |some| <= |counted| {
      NoMoreThan(some, counted);
    }
  }

  /** Scans without a visitor key are all counted, and scans without a tenant or a code never are. */
  lemma {:induction false} AnonymousAllCounted(run: seq<Scan>, v: Visitor)
    requires v.key == ""
    ensures Counted(RowsOf(run), v) == if v.tenant != 0 && v.codeId != 0 then Times(run, v) else []
  {
    if run != [] {
      var init, s := run[..|run| - 1], run[|run| - 1];
      AnonymousAllCounted(init, v);
      CountedAfter(RowsOf(init), s, v);
    }
  }
}
