/** The replay evaluation: every selected sample meets exactly one fate, and every fate is counted once. */
module ReplayEval {
  import opened Common
  import opened Text
  import opened Stratify
  import opened Judge

  const POOL_FACTOR := 6
  const HARD_CAP := 200

  datatype Options = Options(limit: int, dryRun: bool)

  datatype Failure = Failure

  /** External calls; each is given the number of the sample it serves, so it may answer differently
      every time it is called. A slot may be left unassembled. */
  datatype Deps = Deps(
    selectPool: Option<int -> Result<seq<Sample>, Failure>>,
    fetchTrigger: Option<(nat, Sample) -> Result<string, Failure>>,
    generate: Option<(nat, Sample, string) -> Result<string, Failure>>,
    judge: Option<(nat, Prompt) -> Result<string, Failure>>,
    side: nat -> Side)                                // the seeded coin of one attribution id

  datatype EvalError = Unassembled | SelectionFailed

  /** The slots that a real run needs. */
  predicate Assembled(d: Deps) {
    d.fetchTrigger.Some? && d.generate.Some? && d.judge.Some?
  }

  // ---------- fates ----------

  datatype Fate = ChainFailed | NoInput | JudgeFailed | Voted(verdict: Verdict, parsed: bool)

  /** What becomes of the k-th selected sample. */
  function FateOf(d: Deps, k: nat, s: Sample): Fate
    requires Assembled(d)
  {
    match d.fetchTrigger.value(k, s)
    case Err(_) => ChainFailed
    case Ok(trigger) =>
      if Trim(trigger) == "" then NoInput
      else
        match d.generate.value(k, s, trigger)
        case Err(_) => ChainFailed
        case Ok(replay) =>
          if Trim(replay) == "" then NoInput
          else
            var side := d.side(s.attributionId);
            match d.judge.value(k, BuildPrompt(trigger, s.historyReply, replay, side))
            case Err(_) => JudgeFailed
            case Ok(raw) =>
              var (verdict, parsed) := Counted(ReadBallot(raw), side);
              Voted(verdict, parsed)
  }

  /** One sample with its fate; a sample that is only selected, as in a dry run, has none. */
  datatype Entry = Entry(bucket: Bucket, fate: Option<Fate>)

  function Entries(d: Deps, selected: seq<Sample>, n: nat): (r: seq<Entry>)
    requires Assembled(d)
    requires n <= |selected|
    ensures |r| == n
    ensures forall k :: 0 <= k < n ==> r[k] == Entry(selected[k].bucket, Some(FateOf(d, k, selected[k])))
  {
    seq(n, k requires 0 <= k < n => Entry(selected[k].bucket, Some(FateOf(d, k, selected[k]))))
  }

  function SelectedOnly(selected: seq<Sample>): (r: seq<Entry>)
    ensures |r| == |selected|
    ensures forall k :: 0 <= k < |r| ==> r[k] == Entry(selected[k].bucket, None)
  {
    seq(|selected|, k requires 0 <= k < |selected| => Entry(selected[k].bucket, None))
  }

  // ---------- counting ----------

  /** The kinds of entry that the report's counters are about. */
  datatype Kind = In(bucket: Bucket) | Votes(bucket: Bucket, verdict: Verdict) | SpoiledIn(bucket: Bucket)
                | JudgeFailedIn(bucket: Bucket) | Anywhere(fate: Fate) | AnyVote | Valid

  predicate Voting(e: Entry) {
    e.fate.Some? && e.fate.value.Voted?
  }

  predicate Fits(e: Entry, kind: Kind) {
    match kind
    case In(b) => e.bucket == b
    case Votes(b, v) => e.bucket == b && Voting(e) && e.fate.value.verdict == v
    case SpoiledIn(b) => e.bucket == b && Voting(e) && !e.fate.value.parsed
    case JudgeFailedIn(b) => e.bucket == b && e.fate == Some(JudgeFailed)
    case Anywhere(fate) => e.fate == Some(fate)
    case AnyVote => Voting(e)
    case Valid => Voting(e) && e.fate.value.parsed
  }

  function Count(entries: seq<Entry>, kind: Kind): nat {
    if entries == [] then 0
    else Count(entries[..|entries| - 1], kind) + if Fits(entries[|entries| - 1], kind) then 1 else 0
  }

  datatype Tally = Tally(selected: nat, win: nat, tie: nat, loss: nat, unparsed: nat, judgeErrors: nat)

  function Blank(): Tally {
    Tally(0, 0, 0, 0, 0, 0)
  }

  function Plus(s: Tally, t: Tally): Tally {
    Tally(s.selected + t.selected, s.win + t.win, s.tie + t.tie, s.loss + t.loss,
          s.unparsed + t.unparsed, s.judgeErrors + t.judgeErrors)
  }

  function OneIf(b: bool): nat {
    if b then 1 else 0
  }

  /** What one vote adds to its bucket. */
  function OneVote(verdict: Verdict, parsed: bool): Tally {
    Tally(0, OneIf(verdict.Win?), OneIf(verdict.Tie?), OneIf(verdict.Loss?), OneIf(!parsed), 0)
  }

  /** What one sample adds to its bucket. */
  function OneEntry(e: Entry): Tally {
    if Voting(e) then OneVote(e.fate.value.verdict, e.fate.value.parsed).(selected := 1)
    else Tally(1, 0, 0, 0, 0, OneIf(e.fate == Some(JudgeFailed)))
  }

  /** A bucket's tally after these entries. */
  function TallyOf(entries: seq<Entry>, b: Bucket): Tally {
    if entries == [] then Blank()
    else
      var before, last := TallyOf(entries[..|entries| - 1], b), entries[|entries| - 1];
      if last.bucket == b then Plus(before, OneEntry(last)) else before
  }

  /** The field of a tally that counts a kind of entry of its bucket. */
  function Field(t: Tally, kind: Kind): nat {
    match kind
    case In(_) => t.selected
    case Votes(_, Win) => t.win
    case Votes(_, Tie) => t.tie
    case Votes(_, Loss) => t.loss
    case SpoiledIn(_) => t.unparsed
    case JudgeFailedIn(_) => t.judgeErrors
    case _ => 0
  }

  predicate AboutBucket(kind: Kind, b: Bucket) {
    (kind.In? || kind.Votes? || kind.SpoiledIn? || kind.JudgeFailedIn?) && kind.bucket == b
  }

  /** Every field of a bucket's tally is the number of entries of its kind. */
  lemma {:induction false} TallyCounts(entries: seq<Entry>, b: Bucket, kind: Kind)
    requires AboutBucket(kind, b)
    ensures Field(TallyOf(entries, b), kind) == Count(entries, kind)
  {
    if entries != [] { TallyCounts(entries[..|entries| - 1], b, kind); }
  }

  // ---------- the report ----------

  /** The counters of a report as one value. */
  datatype Book = Book(tallies: map<Bucket, Tally>, judgeExecuted: bool,
                       judgeErrors: nat, generateFailed: nat, skippedNoInput: nat)

  /** The counters account for exactly these entries. */
  ghost predicate Accounts(book: Book, entries: seq<Entry>) {
    && (forall b :: b in book.tallies <==> b in ORDER)
    && (forall b :: b in ORDER ==> book.tallies[b] == TallyOf(entries, b))
    && book.judgeErrors == Count(entries, Anywhere(JudgeFailed))
    && book.generateFailed == Count(entries, Anywhere(ChainFailed))
    && book.skippedNoInput == Count(entries, Anywhere(NoInput))
    && (book.judgeExecuted <==> Count(entries, Valid) > 0)
  }

  /** `recordSelected`, `recordVerdict` and `recordJudgeError` ignore a bucket they have no tally for. */
  function CountSelected(book: Book, bucket: Bucket): Book {
    if bucket !in book.tallies then book
    else book.(tallies := book.tallies[bucket := Plus(book.tallies[bucket], Tally(1, 0, 0, 0, 0, 0))])
  }

  function CountVerdict(book: Book, bucket: Bucket, verdict: Verdict, parsed: bool): Book {
    if bucket !in book.tallies then book
    else book.(tallies := book.tallies[bucket := Plus(book.tallies[bucket], OneVote(verdict, parsed))],
               judgeExecuted := book.judgeExecuted || parsed)
  }

  function CountJudgeError(book: Book, bucket: Bucket): Book {
    var counted := book.(judgeErrors := book.judgeErrors + 1);
    if bucket !in book.tallies then counted
    else counted.(tallies := book.tallies[bucket := Plus(book.tallies[bucket], Tally(0, 0, 0, 0, 0, 1))])
  }

  class EvalReport {
    var tallies: map<Bucket, Tally>
    var judgeExecuted: bool
    var judgeErrors: nat
    var generateFailed: nat
    var skippedNoInput: nat

    ghost function View(): Book
      reads this
    {
      Book(tallies, judgeExecuted, judgeErrors, generateFailed, skippedNoInput)
    }

    constructor ()
      ensures View() == Book(map b | b in ORDER :: Blank(), false, 0, 0, 0)
    {
      tallies := map b | b in ORDER :: Blank();
      judgeExecuted := false;
      judgeErrors, generateFailed, skippedNoInput := 0, 0, 0;
    }

    method RecordSelected(bucket: Bucket)
      modifies this
      ensures View() == CountSelected(old(View()), bucket)
    {
      if bucket in tallies {
        var t := tallies[bucket];
        tallies := tallies[bucket := t.(selected := t.selected + 1)];
      }
    }

    method RecordVerdict(bucket: Bucket, verdict: Verdict, parsed: bool)
      modifies this
      ensures View() == CountVerdict(old(View()), bucket, verdict, parsed)
    {
      if bucket !in tallies {
        return;
      }
      var t := tallies[bucket];
      if !parsed {
        t := t.(unparsed := t.unparsed + 1);
      }
      match verdict {
        case Win => t := t.(win := t.win + 1);
        case Loss => t := t.(loss := t.loss + 1);
        case Tie => t := t.(tie := t.tie + 1);
      }
      tallies := tallies[bucket := t];
      if parsed {
        judgeExecuted := true;
      }
    }

    method RecordJudgeError(bucket: Bucket)
      modifies this
      ensures View() == CountJudgeError(old(View()), bucket)
    {
      judgeErrors := judgeErrors + 1;
      if bucket in tallies {
        var t := tallies[bucket];
        tallies := tallies[bucket := t.(judgeErrors := t.judgeErrors + 1)];
      }
    }

    /** `total`: the sum over the four buckets. */
    method Total(ghost entries: seq<Entry>) returns (sum: Tally)
      requires Accounts(View(), entries)
      ensures sum == TotalOf(entries)
    {
      sum := Blank();
      for k := 0 to |ORDER|
        invariant sum == SumUpTo(entries, k)
      {
        sum := Plus(sum, tallies[ORDER[k]]);
      }
    }
  }

  /** The counters after one more entry. */
  function Recorded(book: Book, e: Entry): Book {
    var s := CountSelected(book, e.bucket);
    match e.fate
    case None => s
    case Some(ChainFailed) => s.(generateFailed := s.generateFailed + 1)
    case Some(NoInput) => s.(skippedNoInput := s.skippedNoInput + 1)
    case Some(JudgeFailed) => CountJudgeError(s, e.bucket)
    case Some(Voted(verdict, parsed)) => CountVerdict(s, e.bucket, verdict, parsed)
  }

  lemma RecordedTallies(book: Book, e: Entry)
    requires e.bucket in book.tallies
    ensures Recorded(book, e).tallies == book.tallies[e.bucket := Plus(book.tallies[e.bucket], OneEntry(e))]
  {
  }

  lemma NothingAccounted(entries: seq<Entry>)
    requires entries == []
    ensures Accounts(Book(map b | b in ORDER :: Blank(), false, 0, 0, 0), entries)
  {
  }

  lemma AccountsMore(book: Book, entries: seq<Entry>, e: Entry)
    requires Accounts(book, entries) && e.bucket in ORDER
    ensures Accounts(Recorded(book, e), entries + [e])
  {
    TotalsMore(entries, e);
    RecordedTallies(book, e);
    var tallies := Recorded(book, e).tallies;
    forall b | b in ORDER ensures tallies[b] == TallyOf(entries + [e], b) {
      TallyMore(entries, e, b);
    }
  }

  function SumUpTo(entries: seq<Entry>, k: nat): Tally
    requires k <= 4
  {
    if k == 0 then Blank() else Plus(SumUpTo(entries, k - 1), TallyOf(entries, ORDER[k - 1]))
  }

  function TotalOf(entries: seq<Entry>): Tally {
    SumUpTo(entries, 4)
  }

  /** Counting one entry more. */
  lemma CountMore(entries: seq<Entry>, e: Entry, kind: Kind)
    ensures Count(entries + [e], kind) == Count(entries, kind) + if Fits(e, kind) then 1 else 0
  {
    assert (entries + [e])[..|entries + [e]| - 1] == entries;
  }

  lemma TallyMore(entries: seq<Entry>, e: Entry, b: Bucket)
    ensures TallyOf(entries + [e], b) == if e.bucket == b then Plus(TallyOf(entries, b), OneEntry(e)) else TallyOf(entries, b)
  {
    assert (entries + [e])[..|entries + [e]| - 1] == entries;
  }

  lemma TotalsMore(entries: seq<Entry>, e: Entry)
    ensures Count(entries + [e], Anywhere(JudgeFailed)) == Count(entries, Anywhere(JudgeFailed)) + if e.fate == Some(JudgeFailed) then 1 else 0
    ensures Count(entries + [e], Anywhere(ChainFailed)) == Count(entries, Anywhere(ChainFailed)) + if e.fate == Some(ChainFailed) then 1 else 0
    ensures Count(entries + [e], Anywhere(NoInput)) == Count(entries, Anywhere(NoInput)) + if e.fate == Some(NoInput) then 1 else 0
    ensures Count(entries + [e], Valid) == Count(entries, Valid) +
              if Fits(e, Valid) then 1 else 0
  {
    CountMore(entries, e, Anywhere(JudgeFailed));
    CountMore(entries, e, Anywhere(ChainFailed));
    CountMore(entries, e, Anywhere(NoInput));
    CountMore(entries, e, Valid);
  }

  // ---------- conservation ----------

  lemma {:induction false} SumMore(entries: seq<Entry>, e: Entry, k: nat)
    requires k <= 4 && e.bucket in ORDER
    ensures SumUpTo(entries + [e], k) == if Pos(e.bucket) < k then Plus(SumUpTo(entries, k), OneEntry(e)) else SumUpTo(entries, k)
  {
    if k > 0 {
      SumMore(entries, e, k - 1);
      TallyMore(entries, e, ORDER[k - 1]);
      assert ORDER[k - 1] == e.bucket <==> Pos(e.bucket) == k - 1;
    }
  }

  lemma {:induction false} SumOfNothing(entries: seq<Entry>, k: nat)
    requires entries == [] && k <= 4
    ensures SumUpTo(entries, k) == SumUpTo(entries, 0)
  {
    if k > 0 {
      SumOfNothing(entries, k - 1);
      PlusNothing(SumUpTo(entries, k - 1), entries, ORDER[k - 1]);
    }
  }

  lemma PlusNothing(t: Tally, entries: seq<Entry>, b: Bucket)
    requires entries == []
    ensures Plus(t, TallyOf(entries, b)) == t
  {
  }

  /** Totals over the buckets are counts over all entries. */
  lemma {:induction false} TotalCounts(entries: seq<Entry>)
    requires forall e :: e in entries ==> e.bucket in ORDER
    ensures var t := TotalOf(entries);
            && t.selected == |entries|
            && t.judgeErrors == Count(entries, Anywhere(JudgeFailed))
            && (t.win + t.tie + t.loss) == Count(entries, AnyVote) == t.unparsed + Count(entries, Valid)
  {
    if entries == [] {
      SumOfNothing(entries, 4);
    } else {
      var init, e := entries[..|entries| - 1], entries[|entries| - 1];
      assert entries == init + [e];
      TotalCounts(init);
      SumMore(init, e, 4);
      OneEntryFields(e);
      CountMore(init, e, Anywhere(JudgeFailed));
      CountMore(init, e, AnyVote);
      CountMore(init, e, Valid);
      PlusFields(TotalOf(init), OneEntry(e));
    }
  }

  lemma OneEntryFields(e: Entry)
    ensures OneEntry(e).selected == 1 && OneEntry(e).judgeErrors == OneIf(Fits(e, Anywhere(JudgeFailed)))
    ensures var t := OneEntry(e); t.win + t.tie + t.loss == OneIf(Fits(e, AnyVote)) == t.unparsed + OneIf(Fits(e, Valid))
  {
    if Voting(e) {
      VoteFields(e.fate.value.verdict, e.fate.value.parsed);
    }
  }

  lemma VoteFields(verdict: Verdict, parsed: bool)
    ensures var t := OneVote(verdict, parsed).(selected := 1);
            t.selected == 1 && t.judgeErrors == 0 && t.win + t.tie + t.loss == 1 && t.unparsed == OneIf(!parsed)
  {
  }

  lemma PlusFields(s: Tally, t: Tally)
    ensures var u := Plus(s, t);
            && u.selected == s.selected + t.selected && u.judgeErrors == s.judgeErrors + t.judgeErrors
            && (u.win + u.tie + u.loss) == (s.win + s.tie + s.loss) + (t.win + t.tie + t.loss) && u.unparsed == s.unparsed + t.unparsed
  {
  }

  /** Each entry of a real run has exactly one fate. */
  lemma {:induction false} FatesPartition(entries: seq<Entry>)
    requires forall e :: e in entries ==> e.fate.Some?
    ensures |entries| == Count(entries, AnyVote) + Count(entries, Anywhere(JudgeFailed))
                       + Count(entries, Anywhere(ChainFailed)) + Count(entries, Anywhere(NoInput))
  {
    if entries != [] {
      var init, e := entries[..|entries| - 1], entries[|entries| - 1];
      assert e in entries && forall x :: x in init ==> x in entries;
      FatesPartition(init);
    }
  }

  /** A spoiled vote is counted as a tie of its bucket. */
  ghost predicate SpoiledAreTies(entries: seq<Entry>) {
    forall e :: e in entries && Voting(e) && !e.fate.value.parsed ==> e.fate.value.verdict == Tie
  }

  lemma {:induction false} UnparsedWithinTies(entries: seq<Entry>, b: Bucket)
    requires SpoiledAreTies(entries)
    ensures TallyOf(entries, b).unparsed <= TallyOf(entries, b).tie
  {
    if entries != [] {
      var init, e := entries[..|entries| - 1], entries[|entries| - 1];
      assert entries == init + [e] && e in entries;
      UnparsedWithinTies(init, b);
      TallyMore(init, e, b);
    }
  }

  // ---------- the run ----------

  function PoolLimit(limit: int): int {
    Min(Max(limit * POOL_FACTOR, limit), HARD_CAP * POOL_FACTOR)
  }

  /** The body of the loop of `runReplayEval`: one sample driven to its outcome. */
  method RunSample(d: Deps, k: nat, s: Sample, rep: EvalReport)
    requires Assembled(d)
    modifies rep
    ensures rep.View() == Recorded(old(rep.View()), Entry(s.bucket, Some(FateOf(d, k, s))))
  {
    rep.RecordSelected(s.bucket);
    var trigger := d.fetchTrigger.value(k, s);
    if trigger.Err? {
      rep.generateFailed := rep.generateFailed + 1;
      return;
    }
    if Trim(trigger.value) == "" {
      rep.skippedNoInput := rep.skippedNoInput + 1;
      return;
    }
    var replay := d.generate.value(k, s, trigger.value);
    if replay.Err? {
      rep.generateFailed := rep.generateFailed + 1;
      return;
    }
    if Trim(replay.value) == "" {
      rep.skippedNoInput := rep.skippedNoInput + 1;
      return;
    }
    var side := d.side(s.attributionId);
    var raw := d.judge.value(k, BuildPrompt(trigger.value, s.historyReply, replay.value, side));
    if raw.Err? {
      rep.RecordJudgeError(s.bucket);
      return;
    }
    var verdict, parsed := ParseJudgeVerdict(raw.value, side);
    rep.RecordVerdict(s.bucket, verdict, parsed);
  }

  /** The entries a run over this selection accounts for. */
  function RunEntries(o: Options, d: Deps, selected: seq<Sample>): seq<Entry>
    requires o.dryRun || Assembled(d)
  {
    if o.dryRun then SelectedOnly(selected) else Entries(d, selected, |selected|)
  }

  lemma SelectedStep(selected: seq<Sample>, k: nat, book: Book)
    requires k < |selected| && selected[k].bucket in ORDER
    requires Accounts(book, SelectedOnly(selected)[..k])
    ensures Accounts(CountSelected(book, selected[k].bucket), SelectedOnly(selected)[..k + 1])
  {
    var e := Entry(selected[k].bucket, None);
    AccountsMore(book, SelectedOnly(selected)[..k], e);
    assert SelectedOnly(selected)[..k + 1] == SelectedOnly(selected)[..k] + [e];
  }

  /** The dry run only counts what it selected. */
  method CountSelection(selected: seq<Sample>) returns (rep: EvalReport)
    requires forall s :: s in selected ==> s.bucket in ORDER
    ensures fresh(rep) && Accounts(rep.View(), SelectedOnly(selected))
  {
    rep := new EvalReport();
    NothingAccounted(SelectedOnly(selected)[..0]);
    for k := 0 to |selected|
      invariant fresh(rep) && Accounts(rep.View(), SelectedOnly(selected)[..k])
    {
      SelectedStep(selected, k, rep.View());
      rep.RecordSelected(selected[k].bucket);
    }
    assert SelectedOnly(selected)[..|selected|] == SelectedOnly(selected);
  }

  lemma EntriesStep(d: Deps, selected: seq<Sample>, k: nat, book: Book)
    requires Assembled(d) && k < |selected| && selected[k].bucket in ORDER
    requires Accounts(book, Entries(d, selected, k))
    ensures Accounts(Recorded(book, Entry(selected[k].bucket, Some(FateOf(d, k, selected[k])))), Entries(d, selected, k + 1))
  {
    var e := Entry(selected[k].bucket, Some(FateOf(d, k, selected[k])));
    AccountsMore(book, Entries(d, selected, k), e);
    assert Entries(d, selected, k + 1) == Entries(d, selected, k) + [e];
  }

  /** The real run drives every sample to its outcome. */
  method RunSelection(d: Deps, selected: seq<Sample>) returns (rep: EvalReport)
    requires Assembled(d)
    requires forall s :: s in selected ==> s.bucket in ORDER
    ensures fresh(rep) && Accounts(rep.View(), Entries(d, selected, |selected|))
  {
    rep := new EvalReport();
    NothingAccounted(Entries(d, selected, 0));
    for k := 0 to |selected|
      invariant fresh(rep) && Accounts(rep.View(), Entries(d, selected, k))
    {
      label sample:
      RunSample(d, k, selected[k], rep);
      EntriesStep(d, selected, k, old@sample(rep.View()));
    }
  }

  /** `runReplayEval`: select, then drive every sample to its one counted outcome. */
  method RunReplayEval(o: Options, d: Deps) returns (r: Result<EvalReport, EvalError>)
    ensures d.selectPool.None? ==> r == Err(Unassembled)
    ensures d.selectPool.Some? ==>
      match d.selectPool.value(PoolLimit(o.limit))
      case Err(_) => r == Err(SelectionFailed)
      case Ok(pool) =>
        if o.dryRun || Assembled(d)
        then r.Ok? && fresh(r.value) && Accounts(r.value.View(), RunEntries(o, d, Selection(pool, o.limit)))
        else r == Err(Unassembled)
  {
    if d.selectPool.None? {
      return Err(Unassembled);
    }
    var poolLimit := o.limit * POOL_FACTOR;
    if poolLimit < o.limit {
      poolLimit := o.limit;
    }
    if poolLimit > HARD_CAP * POOL_FACTOR {
      poolLimit := HARD_CAP * POOL_FACTOR;
    }
    var pool := d.selectPool.value(poolLimit);
    if pool.Err? {
      return Err(SelectionFailed);
    }
    var selected := StratifySamples(pool.value, o.limit);
    SelectionIsFair(pool.value, o.limit);
    var rep;
    if o.dryRun {
      rep := CountSelection(selected);
      return Ok(rep);
    }
    if d.fetchTrigger.None? || d.generate.None? || d.judge.None? {
      return Err(Unassembled);
    }
    rep := RunSelection(d, selected);
    r := Ok(rep);
  }

  /** What a real run's report says: nothing selected is lost or counted twice, spoiled votes are ties,
      and votes were produced exactly when they outnumber the spoiled ones. */
  lemma RunConserves(d: Deps, selected: seq<Sample>, book: Book)
    requires Assembled(d) && forall s :: s in selected ==> s.bucket in ORDER
    requires Accounts(book, Entries(d, selected, |selected|))
    ensures var t := TotalOf(Entries(d, selected, |selected|));
            && t.selected == |selected|
            && t.selected == t.win + t.tie + t.loss + book.judgeErrors + book.generateFailed + book.skippedNoInput
            && t.judgeErrors == book.judgeErrors
            && (book.judgeExecuted <==> t.win + t.tie + t.loss > t.unparsed)
    ensures forall b :: b in ORDER ==> book.tallies[b].unparsed <= book.tallies[b].tie
  {
    var entries := Entries(d, selected, |selected|);
    forall e | e in entries ensures e.bucket in ORDER && e.fate.Some? {
      var k :| 0 <= k < |entries| && entries[k] == e;
      assert selected[k] in selected;
    }
    TotalCounts(entries);
    FatesPartition(entries);
    SpoiledCountAsTies(d, selected);
    forall b | b in ORDER ensures book.tallies[b].unparsed <= book.tallies[b].tie {
      UnparsedWithinTies(entries, b);
    }
  }

  lemma SpoiledCountAsTies(d: Deps, selected: seq<Sample>)
    requires Assembled(d)
    ensures SpoiledAreTies(Entries(d, selected, |selected|))
  {
  }

  // ---------- what becomes of a sample ----------

  /** A sample's fate, from the answers it got: an error before the judge is a failure to generate, a blank
      question or reply is a skip, an error of the judge is a judge error, and otherwise its text is a vote. */
  lemma FateMeans(d: Deps, k: nat, s: Sample)
    requires Assembled(d)
    ensures var asked := d.fetchTrigger.value(k, s);
            var open := asked.Ok? && Trim(asked.value) != "";
            var made := if open then d.generate.value(k, s, asked.value) else Err(Failure);
            var judged := open && made.Ok? && Trim(made.value) != "";
            var side := d.side(s.attributionId);
            && (FateOf(d, k, s) == ChainFailed <==> asked.Err? || (open && made.Err?))
            && (FateOf(d, k, s) == NoInput <==>
                  (asked.Ok? && Trim(asked.value) == "") || (open && made.Ok? && Trim(made.value) == ""))
            && (judged ==>
                  var prompt := if side == A then Prompt(asked.value, Trim(made.value), Trim(s.historyReply))
                                else Prompt(asked.value, Trim(s.historyReply), Trim(made.value));
                  match d.judge.value(k, prompt)
                  case Err(_) => FateOf(d, k, s) == JudgeFailed
                  case Ok(raw) =>
                    FateOf(d, k, s) == Voted(Counted(ReadBallot(raw), side).0, Counted(ReadBallot(raw), side).1))
            && (!judged ==> FateOf(d, k, s) == ChainFailed || FateOf(d, k, s) == NoInput)
  {
  }

  /** Six times the limit are drawn from the database, twelve hundred at most. */
  lemma PoolLimitIs(limit: int)
    ensures limit >= 0 ==> PoolLimit(limit) == if limit <= 200 then 6 * limit else 1200
    ensures limit < 0 ==> PoolLimit(limit) == limit
  {
  }
}
