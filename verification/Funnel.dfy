/** The funnel of an acquisition code: its numbers, and the customers behind each of them. */
module Funnel {
  import opened Common
  import opened Contribution
  import opened Paging
  import opened Sorting

  datatype FunnelCustomer = FunnelCustomer(id: nat, spoke: bool, stage: string)

  /** The metric codes that can be opened; the number of scans and unknown codes cannot. */
  datatype FunnelMetric = New | Spoke | Lead | Arrived | Ordered | Scans | Unknown(code: string)

  const FUNNEL_METRICS: seq<FunnelMetric> := [New, Spoke, Lead, Arrived, Ordered]

  /** `MatchFunnelMetric` */
  predicate FunnelMatches(metric: FunnelMetric, c: FunnelCustomer) {
    match metric
    case New => true
    case Spoke => c.spoke
    case Lead => InStageSet(c.stage, LEAD_STAGES)
    case Arrived => InStageSet(c.stage, ARRIVED_STAGES)
    case Ordered => InStageSet(c.stage, ORDERED_STAGES)
    case Scans => false
    case Unknown(_) => false
  }

  function FunnelMatching(metric: FunnelMetric): FunnelCustomer -> bool {
    c => FunnelMatches(metric, c)
  }

  type Funnel = map<FunnelMetric, nat>

  /** The number of a metric; a missing key of the map reads as zero. */
  function Number(funnel: Funnel, metric: FunnelMetric): nat {
    if metric in funnel then funnel[metric] else 0
  }

  /** A number for each metric that can be opened: the length of its list. */
  ghost predicate FunnelIsLists(funnel: Funnel, cs: seq<FunnelCustomer>) {
    && (forall m :: m in funnel <==> m in FUNNEL_METRICS)
    && (forall m :: m in funnel ==> funnel[m] == |Filter(cs, FunnelMatching(m))|)
  }

  /** `ClassifyFunnelCounts` */
  method ClassifyFunnelCounts(cs: seq<FunnelCustomer>) returns (out: Funnel)
    ensures FunnelIsLists(out, cs)
  {
    out := map[];
    for i := 0 to |FUNNEL_METRICS|
      invariant forall m :: m in out <==> m in FUNNEL_METRICS[..i]
      invariant forall m :: m in out ==> out[m] == 0
    {
      out := out[FUNNEL_METRICS[i] := 0];
      assert FUNNEL_METRICS[..i + 1] == FUNNEL_METRICS[..i] + [FUNNEL_METRICS[i]];
    }
    for k := 0 to |cs|
      invariant FunnelIsLists(out, cs[..k])
    {
      out := CountCustomer(out, cs[k], cs[..k]);
      assert cs[..k + 1] == cs[..k] + [cs[k]];
    }
    assert cs[..|cs|] == cs;
  }

  /** The inner loop: one customer, under every metric. */
  method CountCustomer(funnel: Funnel, c: FunnelCustomer, ghost seen: seq<FunnelCustomer>) returns (out: Funnel)
    requires FunnelIsLists(funnel, seen)
    ensures FunnelIsLists(out, seen + [c])
  {
    out := funnel;
    for i := 0 to |FUNNEL_METRICS|
      invariant CountedBy(funnel, out, c, FUNNEL_METRICS[..i])
    {
      var m := FUNNEL_METRICS[i];
      assert FUNNEL_METRICS[..i + 1] == FUNNEL_METRICS[..i] + [m];
      MetricsDiffer();
      if FunnelMatches(m, c) {
        out := out[m := out[m] + 1];
      }
    }
    assert FUNNEL_METRICS[..|FUNNEL_METRICS|] == FUNNEL_METRICS;
    OneMoreCounted(funnel, out, c, seen);
  }

  /** These metrics have counted the customer, and no others. */
  ghost predicate CountedBy(funnel: Funnel, out: Funnel, c: FunnelCustomer, metrics: seq<FunnelMetric>) {
    && (forall m :: m in out <==> m in funnel)
    && (forall m :: m in out ==> out[m] == funnel[m] + if m in metrics && FunnelMatches(m, c) then 1 else 0)
  }

  lemma OneMoreCounted(funnel: Funnel, out: Funnel, c: FunnelCustomer, seen: seq<FunnelCustomer>)
    requires FunnelIsLists(funnel, seen) && CountedBy(funnel, out, c, FUNNEL_METRICS)
    ensures FunnelIsLists(out, seen + [c])
  {
    forall m | m in out ensures out[m] == |Filter(seen + [c], FunnelMatching(m))| {
      FilterOneMore(seen, c, FunnelMatching(m));
    }
  }

  lemma MetricsDiffer()
    ensures forall i, j :: 0 <= i < j < |FUNNEL_METRICS| ==> FUNNEL_METRICS[i] != FUNNEL_METRICS[j]
  {
  }

  lemma NumberIsLength(cs: seq<FunnelCustomer>, funnel: Funnel, metric: FunnelMetric)
    requires FunnelIsLists(funnel, cs) && metric in FUNNEL_METRICS
    ensures Number(funnel, metric) == |Filter(cs, FunnelMatching(metric))|
  {
  }

  lemma MetricsListed()
    ensures New in FUNNEL_METRICS && Spoke in FUNNEL_METRICS && Lead in FUNNEL_METRICS
    ensures Arrived in FUNNEL_METRICS && Ordered in FUNNEL_METRICS
  {
    assert FUNNEL_METRICS[0] == New && FUNNEL_METRICS[1] == Spoke && FUNNEL_METRICS[2] == Lead;
    assert FUNNEL_METRICS[3] == Arrived && FUNNEL_METRICS[4] == Ordered;
  }

  /** One metric finds no more than another. */
  lemma NumberShrinks(cs: seq<FunnelCustomer>, funnel: Funnel, m: FunnelMetric, n: FunnelMetric)
    requires FunnelIsLists(funnel, cs) && m in FUNNEL_METRICS && n in FUNNEL_METRICS
    requires forall c :: FunnelMatches(m, c) ==> FunnelMatches(n, c)
    ensures Number(funnel, m) <= Number(funnel, n)
  {
    NumberIsLength(cs, funnel, m);
    NumberIsLength(cs, funnel, n);
    FilterShrinks(cs, FunnelMatching(m), FunnelMatching(n));
  }

  /** A funnel narrows from stage to stage, and everybody in it is new. */
  lemma FunnelNarrows(cs: seq<FunnelCustomer>, funnel: Funnel)
    requires FunnelIsLists(funnel, cs)
    ensures Number(funnel, Ordered) <= Number(funnel, Arrived) <= Number(funnel, Lead) <= Number(funnel, New) == |cs|
    ensures Number(funnel, Spoke) <= Number(funnel, New)
  {
    MetricsListed();
    forall stage: string ensures InStageSet(stage, ORDERED_STAGES) ==> InStageSet(stage, ARRIVED_STAGES)
      ensures InStageSet(stage, ARRIVED_STAGES) ==> InStageSet(stage, LEAD_STAGES)
    {
      StagesNest(stage);
    }
    NumberShrinks(cs, funnel, Ordered, Arrived);
    NumberShrinks(cs, funnel, Arrived, Lead);
    NumberShrinks(cs, funnel, Lead, New);
    NumberShrinks(cs, funnel, Spoke, New);
    NumberIsLength(cs, funnel, New);
    FilterSplits(cs, FunnelMatching(New), FunnelMatching(Scans));
    FilterNone(cs);
  }

  lemma {:induction false} FilterNone(cs: seq<FunnelCustomer>)
    ensures Filter(cs, FunnelMatching(Scans)) == []
  {
    if cs != [] { FilterNone(cs[..|cs| - 1]); }
  }

  // ---------- the list behind a number ----------

  datatype FunnelRow = FunnelRow(id: nat, profile: string, spoke: bool)

  datatype FunnelPage = FunnelPage(total: nat, list: seq<FunnelRow>)

  datatype FunnelError = NotDrillable | CodeNotFound | OutOfBounds(cause: PageError)

  /** One row a customer, the larger id first: the order of the query. */
  predicate FallingIds(cs: seq<FunnelCustomer>) {
    forall i, j :: 0 <= i < j < |cs| ==> cs[i].id > cs[j].id
  }

  predicate LargerFirst(a: nat, b: nat) {
    a > b
  }

  predicate Falling(ids: seq<nat>) {
    forall i, j :: 0 <= i < j < |ids| ==> ids[i] > ids[j]
  }

  function Present(ids: seq<nat>, profiles: Profiles): (r: seq<nat>)
    ensures forall id :: id in r ==> id in ids
  {
    if ids == [] then []
    else
      var last := ids[|ids| - 1];
      Present(ids[..|ids| - 1], profiles) + if last in profiles then [last] else []
  }

  /** The second query: the rows that still exist for a list of ids, the larger id first. */
  function Fetch(ids: seq<nat>, profiles: Profiles): seq<nat> {
    Sort(Present(ids, profiles), LargerFirst)
  }

  /** What the page shows: a customer whose row is gone is left out. */
  function ShownOf(hits: seq<FunnelCustomer>, profiles: Profiles): seq<FunnelRow> {
    if hits == [] then []
    else
      var last := hits[|hits| - 1];
      ShownOf(hits[..|hits| - 1], profiles)
        + if last.id in profiles then [FunnelRow(last.id, profiles[last.id], last.spoke)] else []
  }

  function Ids(hits: seq<FunnelCustomer>): (r: seq<nat>)
    ensures |r| == |hits|
    ensures forall i :: 0 <= i < |hits| ==> r[i] == hits[i].id
  {
    if hits == [] then [] else Ids(hits[..|hits| - 1]) + [hits[|hits| - 1].id]
  }

  /** A fetched row with the hit of its id; a missing key of the map reads as a zero value. */
  function Join(id: nat, byId: map<nat, FunnelCustomer>, profiles: Profiles): FunnelRow {
    FunnelRow(id, if id in profiles then profiles[id] else "", id in byId && byId[id].spoke)
  }

  function Joined(found: seq<nat>, byId: map<nat, FunnelCustomer>, profiles: Profiles): seq<FunnelRow> {
    if found == [] then [] else Joined(found[..|found| - 1], byId, profiles) + [Join(found[|found| - 1], byId, profiles)]
  }

  lemma {:induction false} PresentFalls(ids: seq<nat>, profiles: Profiles)
    requires Falling(ids)
    ensures Falling(Present(ids, profiles))
  {
    if ids != [] {
      var init, last := ids[..|ids| - 1], ids[|ids| - 1];
      PresentFalls(init, profiles);
      var r := Present(init, profiles);
      forall i | 0 <= i < |r| ensures r[i] > last {
        assert r[i] in init;
      }
    }
  }

  /** On ids that fall already, the order of the second query is the order of the page. */
  lemma FetchInOrder(ids: seq<nat>, profiles: Profiles)
    requires Falling(ids)
    ensures Fetch(ids, profiles) == Present(ids, profiles)
  {
    PresentFalls(ids, profiles);
    assert IsOrder(LargerFirst);
    SortMeans(Present(ids, profiles), LargerFirst);
    SortedUnique(Fetch(ids, profiles), Present(ids, profiles), LargerFirst);
  }

  /** The hits of a metric, in the order of the first query. */
  function Hits(cs: seq<FunnelCustomer>, metric: FunnelMetric): seq<FunnelCustomer> {
    Filter(cs, FunnelMatching(metric))
  }

  method FindHits(cs: seq<FunnelCustomer>, metric: FunnelMetric) returns (hits: seq<FunnelCustomer>)
    ensures hits == Hits(cs, metric)
  {
    hits := [];
    for k := 0 to |cs|
      invariant hits == Hits(cs[..k], metric)
    {
      FilterOneMore(cs[..k], cs[k], FunnelMatching(metric));
      assert cs[..k + 1] == cs[..k] + [cs[k]];
      if FunnelMatches(metric, cs[k]) {
        hits := hits + [cs[k]];
      }
    }
    assert cs[..|cs|] == cs;
  }

  lemma {:induction false} HitsFall(cs: seq<FunnelCustomer>, metric: FunnelMetric)
    requires FallingIds(cs)
    ensures FallingIds(Hits(cs, metric))
    ensures forall c :: c in Hits(cs, metric) <==> c in cs && FunnelMatches(metric, c)
  {
    if cs != [] {
      var init, last := cs[..|cs| - 1], cs[|cs| - 1];
      HitsFall(init, metric);
      assert cs == init + [last];
      assert forall c :: c in init ==> c.id > last.id;
    }
  }

  /** `byID` */
  method IndexHits(hits: seq<FunnelCustomer>) returns (byId: map<nat, FunnelCustomer>)
    requires FallingIds(hits)
    ensures forall h :: h in hits ==> h.id in byId && byId[h.id] == h
  {
    byId := map[];
    for k := 0 to |hits|
      invariant forall i :: 0 <= i < k ==> hits[i].id in byId && byId[hits[i].id] == hits[i]
    {
      byId := byId[hits[k].id := hits[k]];
    }
  }

  /** The rows of a window of the hits, fetched by id and joined with their hits again. */
  method Show(window: seq<FunnelCustomer>, hits: seq<FunnelCustomer>, profiles: Profiles) returns (list: seq<FunnelRow>)
    requires FallingIds(hits) && FallingIds(window) && forall h :: h in window ==> h in hits
    ensures list == ShownOf(window, profiles)
  {
    var rows := Fetch(Ids(window), profiles);
    FetchInOrder(Ids(window), profiles);
    var byId := IndexHits(hits);
    JoinedIsShown(window, byId, profiles);
    list := JoinRows(rows, byId, profiles);
  }

  method JoinRows(rows: seq<nat>, byId: map<nat, FunnelCustomer>, profiles: Profiles) returns (list: seq<FunnelRow>)
    ensures list == Joined(rows, byId, profiles)
  {
    list := [];
    for k := 0 to |rows|
      invariant list == Joined(rows[..k], byId, profiles)
    {
      assert rows[..k + 1][..k] == rows[..k];
      list := list + [Join(rows[k], byId, profiles)];
    }
    assert rows[..|rows|] == rows;
  }

  lemma {:induction false} JoinedIsShown(window: seq<FunnelCustomer>, byId: map<nat, FunnelCustomer>, profiles: Profiles)
    requires forall h :: h in window ==> h.id in byId && byId[h.id] == h
    ensures Joined(Present(Ids(window), profiles), byId, profiles) == ShownOf(window, profiles)
  {
    if window != [] {
      var init, last := window[..|window| - 1], window[|window| - 1];
      JoinedIsShown(init, byId, profiles);
      assert last in window;
      var before, found := Present(Ids(init), profiles), Present(Ids(window), profiles);
      assert Ids(window)[..|init|] == Ids(init);
      if last.id in profiles {
        assert found == before + [last.id] && found[..|found| - 1] == before;
      } else {
        assert found == before;
        assert ShownOf(window, profiles) == ShownOf(init, profiles);
      }
    }
  }

  /** A stretch of the hits falls as they do. */
  lemma StretchFalls(hits: seq<FunnelCustomer>, start: int, size: nat, window: seq<FunnelCustomer>)
    requires FallingIds(hits)
    requires hits != [] ==> start >= 0 && window == From(hits, start, size)
    requires hits == [] ==> window == []
    ensures FallingIds(window) && forall h :: h in window ==> h in hits
  {
  }

  /** The window of the hits and the rows it shows. */
  method ShowPage(hits: seq<FunnelCustomer>, page: int, pageSize: int, profiles: Profiles)
    returns (list: Result<seq<FunnelRow>, FunnelError>)
    requires FallingIds(hits) && |hits| + MAX_PAGE_SIZE <= MAX_INT
    requires 1 <= page <= MAX_INT && 1 <= pageSize <= MAX_PAGE_SIZE
    ensures StartFits(|hits|, (page - 1) * pageSize) ==> list == Ok(ShownOf(Page(hits, page, pageSize), profiles))
    ensures list.Err? <==> hits != [] && Wrap((page - 1) * pageSize) < 0
    ensures list.Err? ==> list.error == OutOfBounds(SliceBounds)
  {
    var window := Window(hits, page, pageSize);
    if window.Err? {
      return Err(OutOfBounds(window.error));
    }
    StretchFalls(hits, Wrap((page - 1) * pageSize), pageSize, window.value);
    var rows := Show(window.value, hits, profiles);
    return Ok(rows);
  }

  /** `DrillCustomers`: the total is the number of hits, and the list is the page asked for, unless its
      start does not fit into an int. */
  method DrillCustomers(cs: seq<FunnelCustomer>, codeFound: bool, metric: FunnelMetric, page: int, pageSize: int,
                        profiles: Profiles)
    returns (r: Result<FunnelPage, FunnelError>)
    requires FallingIds(cs) && |cs| + MAX_PAGE_SIZE <= MAX_INT
    requires 1 <= page <= MAX_INT && 1 <= pageSize <= MAX_PAGE_SIZE
    ensures metric !in FUNNEL_METRICS <==> r == Err(NotDrillable)
    ensures metric in FUNNEL_METRICS && !codeFound <==> r == Err(CodeNotFound)
    ensures r.Ok? ==> r.value.total == |Hits(cs, metric)|
    ensures metric in FUNNEL_METRICS && codeFound && StartFits(|Hits(cs, metric)|, (page - 1) * pageSize)
      ==> r.Ok? && r.value.list == ShownOf(Page(Hits(cs, metric), page, pageSize), profiles)
  {
    if metric !in FUNNEL_METRICS {
      return Err(NotDrillable);
    }
    if !codeFound {
      return Err(CodeNotFound);
    }
    var hits := FindHits(cs, metric);
    HitsFall(cs, metric);
    var list := ShowPage(hits, page, pageSize, profiles);
    if list.Err? {
      return Err(list.error);
    }
    return Ok(FunnelPage(|hits|, list.value));
  }

  /** The list holds just the customers of the metric, as many as the funnel says, none of them twice; its
      pages, one after the other, are the list; and no customer is on two of them. */
  lemma FunnelListIsTheNumber(cs: seq<FunnelCustomer>, funnel: Funnel, metric: FunnelMetric, n: nat, size: int)
    requires FallingIds(cs) && FunnelIsLists(funnel, cs) && metric in FUNNEL_METRICS
    requires size >= 1 && n * size >= Number(funnel, metric)
    ensures var list := Hits(cs, metric);
            && |list| == Number(funnel, metric)
            && (forall c :: c in list <==> c in cs && FunnelMatches(metric, c))
            && FallingIds(list)
            && FirstPages(list, n, size) == list
            && (forall p, q: int, c: FunnelCustomer :: IsOn(list, p, size, c) && IsOn(list, q, size, c) ==> p == q)
  {
    var list := Hits(cs, metric);
    HitsFall(cs, metric);
    NumberIsLength(cs, funnel, metric);
    PagesConcatenate(list, n, size);
    forall p, q: int, c: FunnelCustomer | IsOn(list, p, size, c) && IsOn(list, q, size, c) ensures p == q {
      OnOnePage(list, p, q, size, c);
    }
  }

  /** What the lists are of, with the stages written out. */
  lemma FunnelListsMean(cs: seq<FunnelCustomer>, c: FunnelCustomer)
    requires FallingIds(cs)
    ensures Hits(cs, New) == cs
    ensures c in Hits(cs, Spoke) <==> c in cs && c.spoke
    ensures c in Hits(cs, Lead) <==> c in cs && c.stage in {"lead_captured", "arrived", "ordered", "delivered"}
    ensures c in Hits(cs, Arrived) <==> c in cs && c.stage in {"arrived", "ordered", "delivered"}
    ensures c in Hits(cs, Ordered) <==> c in cs && c.stage in {"ordered", "delivered"}
  {
    HitsFall(cs, Spoke);
    HitsFall(cs, Lead);
    HitsFall(cs, Arrived);
    HitsFall(cs, Ordered);
    StageSetsMean(c.stage);
    EverybodyIsNew(cs);
  }

  lemma {:induction false} EverybodyIsNew(cs: seq<FunnelCustomer>)
    ensures Hits(cs, New) == cs
  {
    if cs != [] {
      EverybodyIsNew(cs[..|cs| - 1]);
      assert cs == cs[..|cs| - 1] + [cs[|cs| - 1]];
    }
  }

  /** The rows of a page are its hits whose row is still there, in their order, each with its own profile and flag. */
  lemma {:induction false} ShownMeans(hits: seq<FunnelCustomer>, profiles: Profiles, h: FunnelCustomer, rest: seq<FunnelCustomer>)
    ensures ShownOf(hits + [h] + rest, profiles) == ShownOf(hits, profiles)
      + (if h.id in profiles then [FunnelRow(h.id, profiles[h.id], h.spoke)] else []) + ShownOf(rest, profiles)
  {
    var all := hits + [h] + rest;
    if rest == [] {
      assert all[..|all| - 1] == hits;
    } else {
      assert all[..|all| - 1] == hits + [h] + rest[..|rest| - 1];
      ShownMeans(hits, profiles, h, rest[..|rest| - 1]);
    }
  }
}
