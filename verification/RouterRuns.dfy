/** The router over whole runs: callers one after the other, and marks interleaved in any order. */
module RouterRuns {
  import opened Common
  import opened Router

  function RecoverAll(ms: seq<Model>, now: int, cool: int): (r: seq<Model>)
    ensures |r| == |ms|
    ensures forall i :: 0 <= i < |ms| ==> r[i] == AfterRecover(ms[i], now, cool)
  {
    seq(|ms|, i requires 0 <= i < |ms| => AfterRecover(ms[i], now, cool))
  }

  // ---------- callers one at a time: failing models are spaced out ----------

  /** A whole pass or a recovery, each begun some time after the previous event ended. A stage
      override calls its provider without touching any model, so here it is only time that passes. */
  datatype Event = Pass(gap: nat, parent: Option<int>, world: World) | Recovery(gap: nat)

  datatype RunState = RunState(models: seq<Model>, clock: int, history: seq<Attempt>)

  function Step(c: Config, s: RunState, ev: Event): RunState {
    match ev
    case Pass(gap, parent, w) =>
      var e := RunChain(c, parent, s.clock + gap, w, s.models);
      RunState(e.models, e.clock, s.history + e.attempts)
    case Recovery(gap) =>
      RunState(RecoverAll(s.models, s.clock + gap, c.Cool()), s.clock + gap, s.history)
  }

  function Run(c: Config, s: RunState, events: seq<Event>): RunState
    decreases |events|
  {
    if events == [] then s else Run(c, Step(c, s, events[0]), events[1..])
  }

  /** A failure that trips the breaker: an account error, or the third or later failure in a row. */
  predicate Tripping(a: Attempt) {
    !a.answer.Answered() && (a.answer.err == Some(AuthError) || a.after.fails >= 3)
  }

  /** Later attempts on the model of a tripping one start at least `cool` after it failed. */
  ghost predicate Spaced(history: seq<Attempt>, cool: int) {
    forall i, j :: 0 <= i < j < |history| && history[i].index == history[j].index && Tripping(history[i])
      ==> history[j].at >= history[i].ended + cool
  }

  /** The model is still held back because of a failure at `failed`, or the time is served. */
  predicate HeldBack(m: Model, failed: int, cool: int, clock: int) {
    || clock >= failed + cool
    || (m.lastFail.Some? && m.lastFail.value >= failed && (m.fails >= 3 || !m.available))
  }

  ghost predicate RunInv(c: Config, s: RunState) {
    && Spaced(s.history, c.Cool())
    && (forall a :: a in s.history ==> a.index < |s.models|)
    && (forall a :: a in s.history && Tripping(a) ==> HeldBack(s.models[a.index], a.ended, c.Cool(), s.clock))
  }

  lemma ReleasedOnlyAfterCooling(m: Model, failed: int, cool: int, clock: int, now: int)
    requires HeldBack(m, failed, cool, clock) && clock <= now && Eligible(m, now, cool)
    ensures now >= failed + cool
  {
  }

  /** What a pass begun at `start` did, seen from outside: whom it tried, when, and what it left behind. */
  ghost predicate Passed(e: ChainEnd, eligible: seq<nat>, ms: seq<Model>, start: int, cool: int) {
    && InOrder(e.attempts, eligible) && MarkedBy(e, ms)
    && (forall k :: k in eligible ==> k < |ms| && Eligible(ms[k], start, cool))
    && (forall j, k :: 0 <= j < k < |eligible| ==> eligible[j] < eligible[k])
    && start <= e.clock && (forall b :: b in e.attempts ==> start <= b.at <= b.ended <= e.clock)
  }

  lemma PassShape(c: Config, parent: Option<int>, start: int, w: World, ms: seq<Model>) returns (e: ChainEnd, eligible: seq<nat>)
    ensures e == RunChain(c, parent, start, w, ms) && Passed(e, eligible, ms, start, c.Cool())
  {
    e, eligible := RunChain(c, parent, start, w, ms), EligibleFrom(ms, 0, start, c.Cool());
    PassFacts(c, parent, start, w, ms);
    CappedFrom(MakePlan(c, parent, start, w, ms), w, ms, 0, start + w.readLag + w.baseLag, None);
    EligibleFromMeans(ms, 0, start, c.Cool());
  }

  lemma PassKeeps(c: Config, s: RunState, gap: nat, parent: Option<int>, w: World)
    requires RunInv(c, s)
    ensures RunInv(c, Step(c, s, Pass(gap, parent, w)))
  {
    var e, eligible := PassShape(c, parent, s.clock + gap, w, s.models);
    PassAdds(c, s, e, eligible, s.clock + gap);
  }

  /** A pass started at `start` over the eligible models keeps the spacing. */
  lemma PassAdds(c: Config, s: RunState, e: ChainEnd, eligible: seq<nat>, start: int)
    requires RunInv(c, s) && s.clock <= start && Passed(e, eligible, s.models, start, c.Cool())
    ensures RunInv(c, RunState(e.models, e.clock, s.history + e.attempts))
  {
    OldAgainstNew(c, s, e, eligible, start);
    var history := s.history + e.attempts;
    forall i, j | 0 <= i < j < |history| && history[i].index == history[j].index && Tripping(history[i])
      ensures history[j].at >= history[i].ended + c.Cool()
    {
      if i < |s.history| <= j {
        assert history[i] in s.history && history[j] in e.attempts;
      }
    }
    forall a | a in history && Tripping(a) ensures HeldBack(e.models[a.index], a.ended, c.Cool(), e.clock) {
      if a in s.history && !exists b :: b in e.attempts && b.index == a.index {
        assert Untried(e.attempts, a.index);
      }
    }
  }

  /** A model tried in this pass was eligible at its start, so every old trip of it has been sat out. */
  lemma OldAgainstNew(c: Config, s: RunState, e: ChainEnd, eligible: seq<nat>, start: int)
    requires RunInv(c, s) && s.clock <= start && InOrder(e.attempts, eligible)
    requires forall k :: k in eligible ==> k < |s.models| && Eligible(s.models[k], start, c.Cool())
    requires forall b :: b in e.attempts ==> start <= b.at
    ensures forall a, b :: a in s.history && Tripping(a) && b in e.attempts && a.index == b.index
              ==> b.at >= a.ended + c.Cool()
  {
    forall a, b | a in s.history && Tripping(a) && b in e.attempts && a.index == b.index
      ensures b.at >= a.ended + c.Cool()
    {
      var k :| 0 <= k < |e.attempts| && e.attempts[k] == b;
      assert eligible[k] in eligible;
      ReleasedOnlyAfterCooling(s.models[a.index], a.ended, c.Cool(), s.clock, start);
    }
  }

  lemma {:induction false} RunKeeps(c: Config, s: RunState, events: seq<Event>)
    requires RunInv(c, s)
    ensures RunInv(c, Run(c, s, events))
    decreases |events|
  {
    if events != [] {
      if events[0].Pass? {
        PassKeeps(c, s, events[0].gap, events[0].parent, events[0].world);
      }
      RunKeeps(c, Step(c, s, events[0]), events[1..]);
    }
  }

  /** Over every run of callers one at a time, starting from any state of the models, no attempt on a
      model follows a tripping failure of it within the cooldown. */
  lemma FailuresSpacedOut(c: Config, ms: seq<Model>, clock: int, events: seq<Event>)
    ensures Spaced(Run(c, RunState(ms, clock, []), events).history, c.Cool())
  {
    RunKeeps(c, RunState(ms, clock, []), events);
  }

  // ---------- marks and recoveries in any order: no model is bricked ----------

  /** The atomic steps on the shared list; concurrent callers interleave them in any order. */
  datatype Mark = Mark(index: nat, answer: Answer, at: int) | Recover(at: int)

  function Apply(cool: int, ms: seq<Model>, mark: Mark): (r: seq<Model>)
    ensures |r| == |ms|
  {
    match mark
    case Mark(i, answer, at) => if i < |ms| then ms[i := Marked(ms[i], answer, at)] else ms
    case Recover(at) => RecoverAll(ms, at, cool)
  }

  function ApplyAll(cool: int, ms: seq<Model>, marks: seq<Mark>): (r: seq<Model>)
    ensures |r| == |ms|
    decreases |marks|
  {
    if marks == [] then ms else ApplyAll(cool, Apply(cool, ms, marks[0]), marks[1..])
  }

  predicate Initial(m: Model) {
    m.available && m.fails == 0 && m.lastFail.None?
  }

  /** The failure count and the failure time agree, and only a failure can have closed the model. */
  predicate Sound(m: Model) {
    (m.fails == 0 <==> m.lastFail.None?) && (!m.available ==> m.lastFail.Some?)
  }

  lemma {:induction false} MarksKeepSound(cool: int, ms: seq<Model>, marks: seq<Mark>)
    requires forall m :: m in ms ==> Sound(m)
    ensures forall m :: m in ApplyAll(cool, ms, marks) ==> Sound(m)
    decreases |marks|
  {
    if marks != [] {
      var next := Apply(cool, ms, marks[0]);
      forall i | 0 <= i < |next| ensures Sound(next[i]) {
        assert ms[i] in ms;
      }
      MarksKeepSound(cool, next, marks[1..]);
    }
  }

  /** Whatever marks and recoveries came before, a recovery opens exactly the models whose last failure
      has cooled down, and an open one that has cooled down is eligible from then on. */
  lemma NoModelBricked(cool: int, ms: seq<Model>, marks: seq<Mark>, at: int, k: nat)
    requires forall m :: m in ms ==> Initial(m)
    requires k < |ms|
    ensures var before := ApplyAll(cool, ms, marks)[k];
            var after := ApplyAll(cool, ms, marks + [Recover(at)])[k];
            && Sound(before) && Sound(after)
            && (after.available <==> before.available || !Cooling(before, at, cool))
            && (!Cooling(before, at, cool) ==> forall now :: now >= at ==> Eligible(after, now, cool))
  {
    MarksKeepSound(cool, ms, marks);
    MarksKeepSound(cool, ms, marks + [Recover(at)]);
    ApplyAllLast(cool, ms, marks, Recover(at));
    var before := ApplyAll(cool, ms, marks);
    var after := ApplyAll(cool, ms, marks + [Recover(at)]);
    assert before[k] in before && after[k] in after;
  }

  lemma {:induction false} ApplyAllLast(cool: int, ms: seq<Model>, marks: seq<Mark>, last: Mark)
    ensures ApplyAll(cool, ms, marks + [last]) == Apply(cool, ApplyAll(cool, ms, marks), last)
    decreases |marks|
  {
    if marks == [] {
      assert [last][1..] == [];
    } else {
      assert (marks + [last])[1..] == marks[1..] + [last];
      ApplyAllLast(cool, Apply(cool, ms, marks[0]), marks[1..], last);
    }
  }

  /** The marks of a pass, in the order it makes them. */
  function MarksOf(attempts: seq<Attempt>): seq<Mark> {
    if attempts == [] then []
    else [Mark(attempts[0].index, attempts[0].answer, attempts[0].ended)] + MarksOf(attempts[1..])
  }

  /** A pass changes the list only through the marks of its attempts. */
  lemma {:induction false} PassIsItsMarks(p: Plan, w: World, ms: seq<Model>, i: nat, clock: int,
                                          lastErr: Option<ErrClass>, cool: int)
    requires i <= |ms|
    ensures var e := RunFrom(p, w, ms, i, clock, lastErr); e.models == ApplyAll(cool, ms, MarksOf(e.attempts))
    decreases |ms| - i
  {
    if i == |ms| { return; }
    match TurnOf(p, w, ms[i], i, clock)
    case Stops(t) =>
    case Skips(t) => PassIsItsMarks(p, w, ms, i + 1, t, lastErr, cool);
    case Asks(a) =>
      FirstMark(cool, ms, a, []);
      if !a.answer.Answered() {
        PassIsItsMarks(p, w, ms[i := a.after], i + 1, a.ended, a.answer.err, cool);
        FirstMark(cool, ms, a, RunFrom(p, w, ms[i := a.after], i + 1, a.ended, a.answer.err).attempts);
      }
  }

  lemma FirstMark(cool: int, ms: seq<Model>, a: Attempt, rest: seq<Attempt>)
    requires a.index < |ms| && a.after == Marked(ms[a.index], a.answer, a.ended)
    ensures ApplyAll(cool, ms, MarksOf([a] + rest)) == ApplyAll(cool, ms[a.index := a.after], MarksOf(rest))
    ensures rest == [] ==> [a] + rest == [a]
  {
    var mark := Mark(a.index, a.answer, a.ended);
    assert ([a] + rest)[1..] == rest;
    assert MarksOf([a] + rest) == [mark] + MarksOf(rest);
    assert ([mark] + MarksOf(rest))[1..] == MarksOf(rest);
  }

  // ---------- what the history of a run says about the models ----------

  /** How often in a row a model has failed, up to now. */
  function Streak(history: seq<Attempt>, i: nat): nat {
    if history == [] then 0
    else
      var before, last := history[..|history| - 1], history[|history| - 1];
      if last.index != i then Streak(before, i)
      else if last.answer.err.None? && last.answer.reply != "" then 0
      else Streak(before, i) + 1
  }

  /** The last attempt on a model. */
  function LastOn(history: seq<Attempt>, i: nat): Option<Attempt> {
    if history == [] then None
    else if history[|history| - 1].index == i then Some(history[|history| - 1])
    else LastOn(history[..|history| - 1], i)
  }

  /** When the last attempt on a model failed, if it did. */
  function FailedAt(history: seq<Attempt>, i: nat): Option<int> {
    var last := LastOn(history, i);
    if last.Some? && !last.value.answer.Answered() then Some(last.value.ended) else None
  }

  /** The last attempt on a model was an account error, or its fifth or later failure in a row. */
  predicate ClosedBy(history: seq<Attempt>, i: nat) {
    var last := LastOn(history, i);
    last.Some? && !last.value.answer.Answered() && (last.value.answer.err == Some(AuthError) || Streak(history, i) >= 5)
  }

  predicate Known(m: Model, history: seq<Attempt>, i: nat, cool: int, clock: int) {
    && m.fails == Streak(history, i) && m.lastFail == FailedAt(history, i)
    && (!m.available ==> ClosedBy(history, i))
    && (ClosedBy(history, i) && m.available ==> clock >= FailedAt(history, i).value + cool)
  }

  ghost predicate AllKnown(c: Config, s: RunState) {
    forall i :: 0 <= i < |s.models| ==> Known(s.models[i], s.history, i, c.Cool(), s.clock)
  }

  lemma {:induction false} Unmentioned(history: seq<Attempt>, attempts: seq<Attempt>, i: nat)
    requires Untried(attempts, i)
    ensures Streak(history + attempts, i) == Streak(history, i)
    ensures LastOn(history + attempts, i) == LastOn(history, i)
  {
    if attempts == [] {
      assert history + attempts == history;
    } else {
      var n := |attempts| - 1;
      assert attempts[n] in attempts;
      assert (history + attempts)[..|history| + n] == history + attempts[..n];
      Unmentioned(history, attempts[..n], i);
    }
  }

  /** A model tried once in a pass. */
  lemma Mentioned(history: seq<Attempt>, attempts: seq<Attempt>, k: nat)
    requires k < |attempts| && forall j :: 0 <= j < |attempts| && j != k ==> attempts[j].index != attempts[k].index
    ensures var i := attempts[k].index;
            && LastOn(history + attempts, i) == Some(attempts[k])
            && Streak(history + attempts, i) == if attempts[k].answer.Answered() then 0 else Streak(history, i) + 1
  {
    var i := attempts[k].index;
    var sofar := history + attempts[..k];
    Unmentioned(history, attempts[..k], i);
    assert history + attempts == sofar + [attempts[k]] + attempts[k + 1..];
    assert (sofar + [attempts[k]])[..|sofar|] == sofar;
    Unmentioned(sofar + [attempts[k]], attempts[k + 1..], i);
  }

  lemma PassKnown(c: Config, s: RunState, e: ChainEnd, eligible: seq<nat>, start: int, i: nat)
    requires AllKnown(c, s) && s.clock <= start && Passed(e, eligible, s.models, start, c.Cool()) && i < |s.models|
    ensures Known(e.models[i], s.history + e.attempts, i, c.Cool(), e.clock)
  {
    assert Known(s.models[i], s.history, i, c.Cool(), s.clock);
    if k :| 0 <= k < |e.attempts| && e.attempts[k].index == i {
      assert eligible[k] in eligible && e.attempts[k] in e.attempts;
      Mentioned(s.history, e.attempts, k);
    } else {
      assert Untried(e.attempts, i);
      Unmentioned(s.history, e.attempts, i);
    }
  }

  lemma StepKnown(c: Config, s: RunState, ev: Event)
    requires AllKnown(c, s)
    ensures AllKnown(c, Step(c, s, ev)) && |Step(c, s, ev).models| == |s.models|
  {
    match ev
    case Pass(gap, parent, w) =>
      var e, eligible := PassShape(c, parent, s.clock + gap, w, s.models);
      forall i | 0 <= i < |s.models| ensures Known(e.models[i], s.history + e.attempts, i, c.Cool(), e.clock) {
        PassKnown(c, s, e, eligible, s.clock + gap, i);
      }
    case Recovery(gap) =>
      forall i | 0 <= i < |s.models|
        ensures Known(AfterRecover(s.models[i], s.clock + gap, c.Cool()), s.history, i, c.Cool(), s.clock + gap)
      {
        assert Known(s.models[i], s.history, i, c.Cool(), s.clock);
      }
  }

  lemma {:induction false} RunKnown(c: Config, s: RunState, events: seq<Event>)
    requires AllKnown(c, s)
    ensures AllKnown(c, Run(c, s, events)) && |Run(c, s, events).models| == |s.models|
    decreases |events|
  {
    if events != [] {
      StepKnown(c, s, events[0]);
      RunKnown(c, Step(c, s, events[0]), events[1..]);
    }
  }

  /** Over every run from the initial list: a model is closed only by an account error or by the fifth failure
      in a row, it then stays closed at least until the failure has cooled down, and its counters are those of
      the history. */
  lemma ClosedExactly(c: Config, ms: seq<Model>, clock: int, events: seq<Event>, i: nat)
    requires (forall m :: m in ms ==> Initial(m)) && i < |ms|
    ensures var s := Run(c, RunState(ms, clock, []), events);
            && |s.models| == |ms|
            && s.models[i].fails == Streak(s.history, i)
            && (!s.models[i].available ==> ClosedBy(s.history, i))
            && (ClosedBy(s.history, i) && s.clock < FailedAt(s.history, i).value + c.coolDownSec * SECOND
                ==> !s.models[i].available)
  {
    var start := RunState(ms, clock, []);
    forall k | 0 <= k < |ms| ensures Known(ms[k], start.history, k, c.Cool(), clock) {
      assert Initial(ms[k]);
    }
    RunKnown(c, start, events);
    assert Known(Run(c, start, events).models[i], Run(c, start, events).history, i, c.Cool(), Run(c, start, events).clock);
  }

  /** The history lets a model be asked at an instant: it is not closed, and it has failed less than three times
      in a row or has sat out its cooldown. */
  predicate Allows(history: seq<Attempt>, i: nat, now: int, cool: int) {
    && !ClosedBy(history, i)
    && (Streak(history, i) < 3 || FailedAt(history, i).None? || now - FailedAt(history, i).value >= cool)
  }

  /** A known model is eligible if the history allows it; and if it does not, only after its cooldown. */
  lemma EligibleByHistory(m: Model, history: seq<Attempt>, i: nat, cool: int, clock: int, now: int)
    requires Known(m, history, i, cool, clock) && clock <= now
    ensures Allows(history, i, now, cool) ==> Eligible(m, now, cool)
    ensures Eligible(m, now, cool) && !Allows(history, i, now, cool) ==>
      ClosedBy(history, i) && now >= FailedAt(history, i).value + cool
  {
  }

  lemma {:induction false} EligibleAtMost(ms: seq<Model>, i: nat, now: int, cool: int)
    requires i <= |ms|
    ensures |EligibleFrom(ms, i, now, cool)| <= |ms| - i
    decreases |ms| - i
  {
    if i < |ms| { EligibleAtMost(ms, i + 1, now, cool); }
  }

  lemma QuotientBound(budget: int, n: nat, q: int)
    requires n > 0 && n * q <= budget
    ensures q <= budget / n
  {
    var d := budget / n;
    assert n * (q - d) == n * q - n * d;
    LessThanOne(n, q - d);
  }

  lemma LessThanOne(n: int, x: int)
    requires n > 0 && n * x < n
    ensures x <= 0
  {
  }

  lemma SharesGrow(budget: int, n: nat, all: nat)
    requires budget >= 0 && 0 < n <= all
    ensures budget / all <= budget / n
  {
    assert n * (budget / all) <= all * (budget / all) <= budget;
    QuotientBound(budget, n, budget / all);
  }

  /** No provider before the i-th ever answers. */
  ghost predicate NobodyBefore(w: World, i: nat) {
    forall k, at, deadline :: 0 <= k < i ==> !w.answer(k, at, deadline).Answered()
  }

  /** Over every run from the initial list: the next pass asks every model that the history allows, when there
      is time to ask everybody and nobody before it answers. */
  lemma AllowedIsAsked(c: Config, ms: seq<Model>, clock: int, events: seq<Event>, gap: nat, parent: Option<int>,
                       w: World, i: nat)
    requires (forall m :: m in ms ==> Initial(m)) && i < |ms|
    requires Honest(w) && NobodyBefore(w, i)
    requires var s := Run(c, RunState(ms, clock, []), events);
             && Allows(s.history, i, s.clock + gap, c.coolDownSec * SECOND)
             && Remaining(c, parent, s.clock + gap, w) >= SECOND
             && TotalLag(w, |ms|) < Remaining(c, parent, s.clock + gap, w) / |ms|
    ensures var s := Run(c, RunState(ms, clock, []), events);
            exists a :: a in RunChain(c, parent, s.clock + gap, w, s.models).attempts && a.index == i
  {
    var s := Run(c, RunState(ms, clock, []), events);
    forall k | 0 <= k < |ms| ensures Known(ms[k], [], k, c.Cool(), clock) {
      assert Initial(ms[k]);
    }
    RunKnown(c, RunState(ms, clock, []), events);
    EligibleByHistory(s.models[i], s.history, i, c.Cool(), s.clock, s.clock + gap);
    EligibleIsAsked(c, parent, s.clock + gap, w, s.models, i);
  }

  lemma EligibleIsAsked(c: Config, parent: Option<int>, start: int, w: World, ms: seq<Model>, i: nat)
    requires i < |ms| && Eligible(ms[i], start, c.Cool()) && Honest(w) && NobodyBefore(w, i)
    requires Remaining(c, parent, start, w) >= SECOND && TotalLag(w, |ms|) < Remaining(c, parent, start, w) / |ms|
    ensures exists a :: a in RunChain(c, parent, start, w, ms).attempts && a.index == i
  {
    var eligible := EligibleFrom(ms, 0, start, c.Cool());
    EligibleFromMeans(ms, 0, start, c.Cool());
    EligibleAtMost(ms, 0, start, c.Cool());
    var k :| 0 <= k < |eligible| && eligible[k] == i;
    SharesGrow(Remaining(c, parent, start, w), |eligible|, |ms|);
    NoModelStarved(c, parent, start, w, ms);
    PassFacts(c, parent, start, w, ms);
    ReachesAsFarAs(RunChain(c, parent, start, w, ms), eligible, w, k);
  }

  lemma ReachesAsFarAs(e: ChainEnd, eligible: seq<nat>, w: World, k: nat)
    requires k < |eligible| && InOrder(e.attempts, eligible) && Verdict(e, None) && NobodyBefore(w, eligible[k])
    requires forall a :: a in e.attempts ==> a.answer == w.answer(a.index, a.at, a.deadline)
    requires forall j, l :: 0 <= j < l < |eligible| ==> eligible[j] < eligible[l]
    requires e.winner.None? ==> |e.attempts| == |eligible|
    ensures exists a :: a in e.attempts && a.index == eligible[k]
  {
    var n := |e.attempts|;
    if e.winner.Some? {
      var last := e.attempts[n - 1];
      assert last in e.attempts && w.answer(last.index, last.at, last.deadline).Answered();
      assert last.index == eligible[n - 1] && last.index >= eligible[k];
    }
    assert n > k;
    assert e.attempts[k] in e.attempts;
  }
}
