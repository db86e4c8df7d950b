/** The contribution dashboard: six counts of customers, their rates, and the lists behind the counts. */
module Contribution {
  import opened Common
  import opened Paging
  import opened Sorting

  const LEAD_STAGES: seq<string> := ["lead_captured", "arrived", "ordered", "delivered"]
  const ARRIVED_STAGES: seq<string> := ["arrived", "ordered", "delivered"]
  const ORDERED_STAGES: seq<string> := ["ordered", "delivered"]

  /** `InStageSet` */
  predicate InStageSet(stage: string, stages: seq<string>) {
    stage != "" && stage in stages
  }

  /** Who has ordered has arrived, and who has arrived has left a lead. */
  lemma StagesNest(stage: string)
    ensures InStageSet(stage, ORDERED_STAGES) ==> InStageSet(stage, ARRIVED_STAGES)
    ensures InStageSet(stage, ARRIVED_STAGES) ==> InStageSet(stage, LEAD_STAGES)
  {
    assert ARRIVED_STAGES == ["arrived"] + ORDERED_STAGES;
    assert LEAD_STAGES == ["lead_captured"] + ARRIVED_STAGES;
  }

  datatype Customer = Customer(id: nat, hasHuman: bool, stage: string)

  /** The metric codes that can be opened, and any other code a request may name. */
  datatype Metric = AIServed | HumanServed | AILead | AssistedLead | AIArrived | AIOrdered | Other(code: string)

  /** `MatchContributionMetric` */
  predicate Matches(metric: Metric, c: Customer) {
    match metric
    case AIServed => !c.hasHuman
    case HumanServed => c.hasHuman
    case AILead => !c.hasHuman && InStageSet(c.stage, LEAD_STAGES)
    case AssistedLead => c.hasHuman && InStageSet(c.stage, LEAD_STAGES)
    case AIArrived => !c.hasHuman && InStageSet(c.stage, ARRIVED_STAGES)
    case AIOrdered => !c.hasHuman && InStageSet(c.stage, ORDERED_STAGES)
    case Other(_) => false
  }

  function Matching(metric: Metric): Customer -> bool {
    c => Matches(metric, c)
  }

  datatype Counts = Counts(aiServed: nat, humanServed: nat, aiLeads: nat, assistedLeads: nat, aiArrived: nat, aiOrdered: nat) {
    /** The number on the card of a metric. */
    function Number(metric: Metric): nat {
      match metric
      case AIServed => aiServed
      case HumanServed => humanServed
      case AILead => aiLeads
      case AssistedLead => assistedLeads
      case AIArrived => aiArrived
      case AIOrdered => aiOrdered
      case Other(_) => 0
    }
  }

  /** Every card shows the length of its list. */
  ghost predicate NumbersAreLists(counts: Counts, cs: seq<Customer>) {
    forall m: Metric :: counts.Number(m) == |Filter(cs, Matching(m))|
  }

  /** `ClassifyContributionCounts` */
  method ClassifyContributionCounts(cs: seq<Customer>) returns (out: Counts)
    ensures NumbersAreLists(out, cs)
  {
    out := Counts(0, 0, 0, 0, 0, 0);
    for k := 0 to |cs|
      invariant NumbersAreLists(out, cs[..k])
    {
      out := CountOne(out, cs[k], cs[..k]);
      assert cs[..k + 1] == cs[..k] + [cs[k]];
    }
    assert cs[..|cs|] == cs;
  }

  method CountOne(counts: Counts, c: Customer, ghost seen: seq<Customer>) returns (out: Counts)
    requires NumbersAreLists(counts, seen)
    ensures NumbersAreLists(out, seen + [c])
  {
    out := counts;
    if Matches(AIServed, c) { out := out.(aiServed := out.aiServed + 1); }
    if Matches(HumanServed, c) { out := out.(humanServed := out.humanServed + 1); }
    if Matches(AILead, c) { out := out.(aiLeads := out.aiLeads + 1); }
    if Matches(AssistedLead, c) { out := out.(assistedLeads := out.assistedLeads + 1); }
    if Matches(AIArrived, c) { out := out.(aiArrived := out.aiArrived + 1); }
    if Matches(AIOrdered, c) { out := out.(aiOrdered := out.aiOrdered + 1); }
    forall m: Metric ensures out.Number(m) == |Filter(seen + [c], Matching(m))| {
      assert out.Number(m) == counts.Number(m) + if Matches(m, c) then 1 else 0;
      FilterOneMore(seen, c, Matching(m));
    }
  }

  /** `FilterContributionCustomers` */
  method FilterContributionCustomers(cs: seq<Customer>, metric: Metric) returns (out: seq<Customer>)
    ensures out == Filter(cs, Matching(metric))
  {
    out := [];
    for k := 0 to |cs|
      invariant out == Filter(cs[..k], Matching(metric))
    {
      FilterOneMore(cs[..k], cs[k], Matching(metric));
      assert cs[..k + 1] == cs[..k] + [cs[k]];
      if Matches(metric, cs[k]) {
        out := out + [cs[k]];
      }
    }
    assert cs[..|cs|] == cs;
  }

  // ---------- rates ----------

  /** `rate`: nothing out of nothing is nothing. */
  function Rate(part: int, whole: int): real {
    if whole <= 0 then 0.0 else part as real / whole as real
  }

  predicate IsShare(r: real) {
    0.0 <= r <= 1.0
  }

  lemma RateIsShare(part: int, whole: int)
    requires 0 <= part <= whole
    ensures IsShare(Rate(part, whole))
    ensures whole > 0 ==> Rate(part, whole) + Rate(whole - part, whole) == 1.0
  {
  }

  datatype Messages = Messages(ai: nat, human: nat, customer: nat)

  datatype Report = Report(counts: Counts, aiServeShare: real, handoffRate: real, aiLeadRate: real, assistedLeadRate: real,
                           aiArriveRate: real, aiOrderRate: real, aiMessageShare: real)

  /** `Build` */
  function Build(counts: Counts, messages: Messages): Report {
    var served := counts.aiServed + counts.humanServed;
    Report(counts, Rate(counts.aiServed, served), Rate(counts.humanServed, served),
           Rate(counts.aiLeads, counts.aiServed), Rate(counts.assistedLeads, counts.humanServed),
           Rate(counts.aiArrived, counts.aiServed), Rate(counts.aiOrdered, counts.aiServed),
           Rate(messages.ai, messages.ai + messages.human))
  }

  predicate AllShares(r: Report) {
    && IsShare(r.aiServeShare) && IsShare(r.handoffRate) && IsShare(r.aiLeadRate) && IsShare(r.assistedLeadRate)
    && IsShare(r.aiArriveRate) && IsShare(r.aiOrderRate) && IsShare(r.aiMessageShare)
  }

  /** The counts of any set of customers narrow down from stage to stage, and split by who served them. */
  lemma CountsNarrow(cs: seq<Customer>, counts: Counts)
    requires NumbersAreLists(counts, cs)
    ensures counts.aiOrdered <= counts.aiArrived <= counts.aiLeads <= counts.aiServed
    ensures counts.assistedLeads <= counts.humanServed
    ensures counts.aiServed + counts.humanServed == |cs|
  {
    forall c: Customer ensures Matches(AIOrdered, c) ==> Matches(AIArrived, c)
      ensures Matches(AIArrived, c) ==> Matches(AILead, c)
    {
      StagesNest(c.stage);
    }
    assert forall m: Metric :: counts.Number(m) == |Filter(cs, Matching(m))|;
    FilterShrinks(cs, Matching(AIOrdered), Matching(AIArrived));
    FilterShrinks(cs, Matching(AIArrived), Matching(AILead));
    FilterShrinks(cs, Matching(AILead), Matching(AIServed));
    FilterShrinks(cs, Matching(AssistedLead), Matching(HumanServed));
    FilterSplits(cs, Matching(AIServed), Matching(HumanServed));
    assert counts.Number(AIServed) == counts.aiServed && counts.Number(HumanServed) == counts.humanServed;
    assert counts.Number(AILead) == counts.aiLeads && counts.Number(AssistedLead) == counts.assistedLeads;
    assert counts.Number(AIArrived) == counts.aiArrived && counts.Number(AIOrdered) == counts.aiOrdered;
  }

  /** Every rate on the dashboard is a share, the later the stage the smaller, and the two ways of being
      served add up. */
  lemma RatesAreShares(cs: seq<Customer>, counts: Counts, messages: Messages)
    requires NumbersAreLists(counts, cs)
    ensures var r := Build(counts, messages);
            && AllShares(r)
            && r.aiOrderRate <= r.aiArriveRate <= r.aiLeadRate
            && r.aiServeShare + r.handoffRate == if cs == [] then 0.0 else 1.0
  {
    CountsNarrow(cs, counts);
    RateIsShare(counts.aiServed, |cs|);
    RateIsShare(counts.humanServed, |cs|);
    RateIsShare(counts.aiLeads, counts.aiServed);
    RateIsShare(counts.assistedLeads, counts.humanServed);
    RateIsShare(counts.aiArrived, counts.aiServed);
    RateIsShare(counts.aiOrdered, counts.aiServed);
    RateIsShare(messages.ai, messages.ai + messages.human);
    RateMonotone(counts.aiOrdered, counts.aiArrived, counts.aiServed);
    RateMonotone(counts.aiArrived, counts.aiLeads, counts.aiServed);
  }

  /** A rate times its denominator is its numerator again. */
  predicate Gives(rate: real, part: int, whole: int) {
    rate * (whole as real) == part as real
  }

  ghost predicate RatesGive(r: Report, served: int, messages: Messages) {
    && Gives(r.aiServeShare, r.counts.aiServed, served)
    && Gives(r.handoffRate, r.counts.humanServed, served)
    && Gives(r.aiLeadRate, r.counts.aiLeads, r.counts.aiServed)
    && Gives(r.assistedLeadRate, r.counts.assistedLeads, r.counts.humanServed)
    && Gives(r.aiArriveRate, r.counts.aiArrived, r.counts.aiServed)
    && Gives(r.aiOrderRate, r.counts.aiOrdered, r.counts.aiServed)
    && Gives(r.aiMessageShare, messages.ai, messages.ai + messages.human)
  }

  /** Every rate belongs to its own two counts, also when nobody was served. */
  lemma RatesGiveCounts(cs: seq<Customer>, counts: Counts, messages: Messages)
    requires NumbersAreLists(counts, cs)
    ensures Build(counts, messages).counts == counts && RatesGive(Build(counts, messages), |cs|, messages)
  {
    CountsNarrow(cs, counts);
    NarrowRatesGive(counts, messages);
  }

  lemma NarrowRatesGive(counts: Counts, messages: Messages)
    requires counts.aiOrdered <= counts.aiArrived <= counts.aiLeads <= counts.aiServed
    requires counts.assistedLeads <= counts.humanServed
    ensures RatesGive(Build(counts, messages), counts.aiServed + counts.humanServed, messages)
  {
    RateTimes(counts.aiServed, counts.aiServed + counts.humanServed);
    RateTimes(counts.humanServed, counts.aiServed + counts.humanServed);
    RateTimes(counts.aiLeads, counts.aiServed);
    RateTimes(counts.assistedLeads, counts.humanServed);
    RateTimes(counts.aiArrived, counts.aiServed);
    RateTimes(counts.aiOrdered, counts.aiServed);
    RateTimes(messages.ai, messages.ai + messages.human);
  }

  lemma RateTimes(part: int, whole: int)
    requires 0 <= part <= whole
    ensures Gives(Rate(part, whole), part, whole)
  {
  }

  lemma RateMonotone(a: int, b: int, whole: int)
    requires a <= b
    ensures Rate(a, whole) <= Rate(b, whole)
  {
  }

  // ---------- the list behind a number ----------

  /** What a customer's row shows now, if it can be seen at all. */
  type Profiles = map<nat, string>

  datatype ListRow = ListRow(id: nat, profile: string, servedBy: string)

  datatype DrillError = BadMetric | Broken(cause: PageError)

  datatype DrillPage = DrillPage(total: nat, list: seq<ListRow>)

  const DEFAULT_PAGE_SIZE: int := 20

  /** The larger id first. */
  predicate NewerFirst(a: Customer, b: Customer) {
    a.id > b.id
  }

  lemma NewerFirstIsOrder()
    ensures IsOrder(NewerFirst)
  {
  }

  /** The customers a metric names, in the order in which they are shown. */
  function Named(cs: seq<Customer>, metric: Metric): seq<Customer> {
    Sort(Filter(cs, Matching(metric)), NewerFirst)
  }

  function RowOf(c: Customer, profiles: Profiles): ListRow
    requires c.id in profiles
  {
    ListRow(c.id, profiles[c.id], if c.hasHuman then "human" else "ai")
  }

  /** The rows of a page: a customer whose row cannot be seen any more is left out. */
  function RowsOf(cs: seq<Customer>, profiles: Profiles): seq<ListRow> {
    if cs == [] then []
    else
      var last := cs[|cs| - 1];
      RowsOf(cs[..|cs| - 1], profiles) + if last.id in profiles then [RowOf(last, profiles)] else []
  }

  /** A query parameter: a positive number is taken, anything else gives the default. */
  function PositiveOr(v: Option<int>, default_: int): (r: int)
    ensures v.Some? && v.value > 0 ==> r == v.value
    ensures v.None? || v.value <= 0 ==> r == default_
  {
    if v.Some? && v.value > 0 then v.value else default_
  }

  /** Whatever counts the card shows, this is the number of the metric. */
  ghost predicate IsNumber(total: nat, cs: seq<Customer>, metric: Metric) {
    forall counts :: NumbersAreLists(counts, cs) ==> total == counts.Number(metric)
  }

  method NamedCustomers(cs: seq<Customer>, metric: Metric) returns (matched: seq<Customer>)
    ensures matched == Named(cs, metric) && IsNumber(|matched|, cs, metric) && |matched| <= |cs|
  {
    matched := FilterContributionCustomers(cs, metric);
    NewerFirstIsOrder();
    SortMeans(matched, NewerFirst);
    matched := Sort(matched, NewerFirst);
  }

  /** `GetAIContributionCustomers`: the total is the number on the card, and the list is the page asked
      for, unless its start does not fit into an int. */
  method GetAIContributionCustomers(cs: seq<Customer>, metric: Metric, pageParam: Option<int>, sizeParam: Option<int>,
                                    profiles: Profiles)
    returns (r: Result<DrillPage, DrillError>)
    requires pageParam.Some? ==> IsInt(pageParam.value)
    requires sizeParam.Some? ==> IsInt(sizeParam.value)
    requires |cs| + MAX_PAGE_SIZE <= MAX_INT
    ensures metric.Other? <==> r == Err(BadMetric)
    ensures r.Ok? ==> IsNumber(r.value.total, cs, metric)
    ensures var page, size := PositiveOr(pageParam, 1), Min(PositiveOr(sizeParam, DEFAULT_PAGE_SIZE), MAX_PAGE_SIZE);
            !metric.Other? && StartFits(|Named(cs, metric)|, (page - 1) * size)
            ==> r.Ok? && r.value.list == RowsOf(Page(Named(cs, metric), page, size), profiles)
  {
    if metric.Other? {
      return Err(BadMetric);
    }
    var page := PositiveOr(pageParam, 1);
    var size := PositiveOr(sizeParam, DEFAULT_PAGE_SIZE);
    if size > MAX_PAGE_SIZE {
      size := MAX_PAGE_SIZE;
    }
    var matched := NamedCustomers(cs, metric);
    var list := ShowPage(matched, page, size, profiles);
    if list.Err? {
      return Err(list.error);
    }
    return Ok(DrillPage(|matched|, list.value));
  }

  /** The window of the sorted list and the rows it shows. */
  method ShowPage(matched: seq<Customer>, page: int, size: int, profiles: Profiles)
    returns (list: Result<seq<ListRow>, DrillError>)
    requires |matched| + MAX_PAGE_SIZE <= MAX_INT && 1 <= page <= MAX_INT && 1 <= size <= MAX_PAGE_SIZE
    ensures StartFits(|matched|, (page - 1) * size) ==> list == Ok(RowsOf(Page(matched, page, size), profiles))
    ensures list.Err? <==> matched != [] && Wrap((page - 1) * size) < 0
    ensures list.Err? ==> list.error == Broken(SliceBounds)
  {
    var pageRows := Window(matched, page, size);
    if pageRows.Err? {
      return Err(Broken(pageRows.error));
    }
    var rows := ShowRows(pageRows.value, profiles);
    return Ok(rows);
  }

  method ShowRows(pageRows: seq<Customer>, profiles: Profiles) returns (list: seq<ListRow>)
    ensures list == RowsOf(pageRows, profiles)
  {
    list := [];
    for k := 0 to |pageRows|
      invariant list == RowsOf(pageRows[..k], profiles)
    {
      var m := pageRows[k];
      assert pageRows[..k + 1][..k] == pageRows[..k];
      if m.id in profiles {
        list := list + [ListRow(m.id, profiles[m.id], if m.hasHuman then "human" else "ai")];
      }
    }
    assert pageRows[..|pageRows|] == pageRows;
  }

  // ---------- the numbers and the lists are the same people ----------

  /** One row a customer, as the grouped query returns them. */
  predicate DistinctIds(cs: seq<Customer>) {
    forall i, j :: 0 <= i < j < |cs| ==> cs[i].id != cs[j].id
  }

  /** Where the rows of the query stood does not show in the list. */
  lemma OrderNeverShows(cs: seq<Customer>, other: seq<Customer>, metric: Metric)
    requires DistinctIds(cs) && multiset(cs) == multiset(other)
    ensures Named(cs, metric) == Named(other, metric)
  {
    var s := Filter(cs, Matching(metric));
    FilterForgetsOrder(cs, other, Matching(metric));
    NewerFirstIsOrder();
    forall x, y | x in multiset(s) && y in multiset(s) && Tied(x, y, NewerFirst) ensures x == y {
      FilterCount(cs, Matching(metric), x);
      FilterCount(cs, Matching(metric), y);
      assert x in cs && y in cs;
    }
    SortForgetsOrder(s, Filter(other, Matching(metric)), NewerFirst);
  }

  /** The list holds just the customers of the metric, by falling id, none of them twice; its pages, one
      after the other, are the list; and no customer is on two of them. */
  lemma ListIsTheNumber(cs: seq<Customer>, counts: Counts, metric: Metric, n: nat, size: int)
    requires DistinctIds(cs) && NumbersAreLists(counts, cs) && size >= 1 && n * size >= counts.Number(metric)
    ensures var list := Named(cs, metric);
            && |list| == counts.Number(metric)
            && (forall c :: c in list <==> c in cs && Matches(metric, c))
            && (forall i, j :: 0 <= i < j < |list| ==> list[i].id > list[j].id)
            && FirstPages(list, n, size) == list
            && (forall p, q: int, c: Customer :: IsOn(list, p, size, c) && IsOn(list, q, size, c) ==> p == q)
  {
    var found, list := Filter(cs, Matching(metric)), Named(cs, metric);
    NewerFirstIsOrder();
    SortMeans(found, NewerFirst);
    forall c ensures c in list <==> c in cs && Matches(metric, c) {
      FilterCount(cs, Matching(metric), c);
      assert (c in list <==> c in multiset(list)) && (c in cs <==> c in multiset(cs));
    }
    ListFalls(cs, metric);
    PagesConcatenate(list, n, size);
    forall p, q: int, c: Customer | IsOn(list, p, size, c) && IsOn(list, q, size, c) ensures p == q {
      OnOnePage(list, p, q, size, c);
    }
  }

  lemma ListFalls(cs: seq<Customer>, metric: Metric)
    requires DistinctIds(cs)
    ensures var list := Named(cs, metric); forall i, j :: 0 <= i < j < |list| ==> list[i].id > list[j].id
  {
    var found, list := Filter(cs, Matching(metric)), Named(cs, metric);
    NewerFirstIsOrder();
    SortMeans(found, NewerFirst);
    forall i, j | 0 <= i < j < |list| ensures list[i].id > list[j].id {
      FilterCount(cs, Matching(metric), list[i]);
      FilterCount(cs, Matching(metric), list[j]);
      assert list[i] in multiset(list) && list[j] in multiset(list);
      if list[i].id == list[j].id {
        assert list[i] == list[j];
        Twice(list, i, j);
        Once(cs, list[i]);
      }
    }
  }

  lemma {:induction false} Once(cs: seq<Customer>, c: Customer)
    requires DistinctIds(cs)
    ensures multiset(cs)[c] <= 1
  {
    if cs != [] {
      Once(cs[1..], c);
      assert cs == [cs[0]] + cs[1..];
      assert cs[0] !in cs[1..];
    }
  }

  /** What the lists are of: no customer on a card of the AI has a human reply, every one on a card of the staff
      has; and the stages count as written out here. */
  lemma ListsMean(cs: seq<Customer>, c: Customer)
    ensures c in Named(cs, AIServed) <==> c in cs && !c.hasHuman
    ensures c in Named(cs, HumanServed) <==> c in cs && c.hasHuman
    ensures c in Named(cs, AILead) <==> c in cs && !c.hasHuman && c.stage in {"lead_captured", "arrived", "ordered", "delivered"}
    ensures c in Named(cs, AssistedLead) <==> c in cs && c.hasHuman && c.stage in {"lead_captured", "arrived", "ordered", "delivered"}
    ensures c in Named(cs, AIArrived) <==> c in cs && !c.hasHuman && c.stage in {"arrived", "ordered", "delivered"}
    ensures c in Named(cs, AIOrdered) <==> c in cs && !c.hasHuman && c.stage in {"ordered", "delivered"}
  {
    InNamed(cs, AIServed, c);
    InNamed(cs, HumanServed, c);
    InNamed(cs, AILead, c);
    InNamed(cs, AssistedLead, c);
    InNamed(cs, AIArrived, c);
    InNamed(cs, AIOrdered, c);
    StageSetsMean(c.stage);
  }

  lemma InNamed(cs: seq<Customer>, metric: Metric, c: Customer)
    ensures c in Named(cs, metric) <==> c in cs && Matches(metric, c)
  {
    NewerFirstIsOrder();
    SortMeans(Filter(cs, Matching(metric)), NewerFirst);
    FilterCount(cs, Matching(metric), c);
    assert (c in Named(cs, metric) <==> c in multiset(Named(cs, metric))) && (c in cs <==> c in multiset(cs));
  }

  lemma StageSetsMean(stage: string)
    ensures InStageSet(stage, LEAD_STAGES) <==> stage in {"lead_captured", "arrived", "ordered", "delivered"}
    ensures InStageSet(stage, ARRIVED_STAGES) <==> stage in {"arrived", "ordered", "delivered"}
    ensures InStageSet(stage, ORDERED_STAGES) <==> stage in {"ordered", "delivered"}
  {
  }

  /** The rows of a page are its customers whose row can be seen, in their order, each with its own profile and
      with who served it. */
  lemma {:induction false} RowsShow(cs: seq<Customer>, profiles: Profiles, c: Customer, rest: seq<Customer>)
    ensures RowsOf(cs + [c] + rest, profiles) == RowsOf(cs, profiles)
      + (if c.id !in profiles then [] else if c.hasHuman then [ListRow(c.id, profiles[c.id], "human")]
         else [ListRow(c.id, profiles[c.id], "ai")])
      + RowsOf(rest, profiles)
  {
    var all := cs + [c] + rest;
    if rest == [] {
      assert all[..|all| - 1] == cs;
    } else {
      assert all[..|all| - 1] == cs + [c] + rest[..|rest| - 1];
      RowsShow(cs, profiles, c, rest[..|rest| - 1]);
    }
  }

  /** The size of a page: as asked for, up to a hundred, and twenty if it is not a positive number. */
  lemma PageSizes(asked: Option<int>)
    ensures Min(PositiveOr(asked, DEFAULT_PAGE_SIZE), MAX_PAGE_SIZE) ==
      if asked.None? || asked.value <= 0 then 20 else if asked.value > 100 then 100 else asked.value
  {
  }
}
