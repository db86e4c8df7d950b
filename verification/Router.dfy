/**
 The degradation router on values: what one mark, one recovery and one pass over the
 priority list do to the list of models. `RouterState.dfy` holds the objects that are
 updated in place and ties each of their methods to a function of this module.

 Everything the router cannot decide itself is in a `World`: how much time passes between
 two statements, and what each provider answers after how long.
 */
module Router {
  import opened Common

  /** `classifyAIError` splits errors into account errors, which never heal, and the rest. */
  datatype ErrClass = AuthError | OtherError

  datatype Answer = Answer(reply: string, err: Option<ErrClass>, elapsed: nat) {
    /** Only a reply that is both error-free and non-empty counts as an answer. */
    predicate Answered() {
      err.None? && reply != ""
    }
  }

  /** One entry of the priority list; `lastFail` is None for Go's zero time. */
  datatype Model = Model(provider: string, name: string, available: bool, lastFail: Option<int>, fails: nat)

  datatype Config = Config(coolDownSec: int, budget: int) {
    function Cool(): int {
      coolDownSec * SECOND
    }

    function TotalBudget(): int {
      if budget > 0 then budget else 110 * SECOND
    }
  }

  datatype World = World(
    readLag: nat,                       // from the first clock read to reading the parent's deadline
    baseLag: nat,                       // from there to deriving the chain's context
    checkLag: nat -> nat,               // before the budget check of candidate i
    callLag: nat -> nat,                // from that check to deriving the candidate's context
    answer: (nat, int, int) -> Answer)  // candidate i, asked at an instant with a context deadline

  // ---------- marking, recovering, eligibility ----------

  predicate Cooling(m: Model, now: int, cool: int) {
    m.lastFail.Some? && now - m.lastFail.value < cool
  }

  predicate Eligible(m: Model, now: int, cool: int) {
    m.available && !(Cooling(m, now, cool) && m.fails >= 3)
  }

  function AfterSuccess(m: Model): Model {
    m.(fails := 0, available := true, lastFail := None)
  }

  function AfterFailure(m: Model, at: int): Model {
    m.(fails := m.fails + 1, lastFail := Some(at), available := m.available && m.fails + 1 < 5)
  }

  function AfterAuthFailure(m: Model, at: int): Model {
    m.(fails := m.fails + 1, lastFail := Some(at), available := false)
  }

  function AfterRecover(m: Model, now: int, cool: int): Model {
    if !m.available && m.lastFail.Some? && now - m.lastFail.value >= cool
    then m.(available := true) else m
  }

  /** The mark that one provider answer leaves on the model that gave it. */
  function Marked(m: Model, answer: Answer, at: int): Model {
    if answer.Answered() then AfterSuccess(m)
    else if answer.err == Some(AuthError) then AfterAuthFailure(m, at)
    else AfterFailure(m, at)
  }

  // ---------- one pass over the chain ----------

  /** context.WithTimeout: a derived deadline never exceeds its parent's. */
  function WithTimeout(parent: Option<int>, now: int, timeout: int): int {
    match parent
    case None => now + timeout
    case Some(d) => Min(d, now + timeout)
  }

  /** What `runChain` fixes before its loop. */
  datatype Plan = Plan(start: int, budget: int, deadline: int, base: int, perModel: int, cool: int)

  /** One provider call: when, for how long, under which deadline, and what came of it. */
  datatype Attempt = Attempt(index: nat, at: int, timeout: int, deadline: int, answer: Answer, ended: int, after: Model)

  datatype ChainEnd = ChainEnd(models: seq<Model>, clock: int, attempts: seq<Attempt>,
                               winner: Option<nat>, reply: string, err: Option<ErrClass>)

  /** The budget before the one-second floor: the total, shrunk to what the parent has left. */
  function Remaining(c: Config, parent: Option<int>, start: int, w: World): int {
    match parent
    case None => c.TotalBudget()
    case Some(d) => Min(c.TotalBudget(), d - (start + w.readLag))
  }

  function EligibleFrom(ms: seq<Model>, i: nat, now: int, cool: int): seq<nat>
    requires i <= |ms|
    decreases |ms| - i
  {
    if i == |ms| then []
    else (if Eligible(ms[i], now, cool) then [i] else []) + EligibleFrom(ms, i + 1, now, cool)
  }

  function PerModel(budget: int, eligible: nat, all: nat): int {
    var n := if eligible == 0 then all else eligible;
    if n == 0 || budget / n <= 0 then budget else budget / n
  }

  function MakePlan(c: Config, parent: Option<int>, start: int, w: World, ms: seq<Model>): Plan {
    var budget := Max(Remaining(c, parent, start, w), SECOND);
    Plan(start, budget, start + budget,
         WithTimeout(parent, start + w.readLag + w.baseLag, budget),
         PerModel(budget, |EligibleFrom(ms, 0, start, c.Cool())|, |ms|),
         c.Cool())
  }

  /** What one iteration of the loop does with its candidate. */
  datatype Turn = Stops(clock: int) | Skips(clock: int) | Asks(attempt: Attempt)

  function Ask(p: Plan, w: World, m: Model, i: nat, at: int, timeout: int): Attempt {
    var deadline := WithTimeout(Some(p.base), at, timeout);
    var answer := w.answer(i, at, deadline);
    Attempt(i, at, timeout, deadline, answer, at + answer.elapsed, Marked(m, answer, at + answer.elapsed))
  }

  function TurnOf(p: Plan, w: World, m: Model, i: nat, clock: int): Turn {
    var checked := clock + w.checkLag(i);
    var at := checked + w.callLag(i);
    var timeout := Min(p.deadline - at, p.perModel);
    if checked - p.start >= p.budget || checked > p.deadline then Stops(checked)
    else if !Eligible(m, p.start, p.cool) then Skips(checked)
    else if timeout <= 0 then Stops(at)
    else Asks(Ask(p, w, m, i, at, timeout))
  }

  /** The loop of `runChain` from candidate i on. */
  function RunFrom(p: Plan, w: World, ms: seq<Model>, i: nat, clock: int, lastErr: Option<ErrClass>): ChainEnd
    requires i <= |ms|
    decreases |ms| - i
  {
    if i == |ms| then ChainEnd(ms, clock, [], None, "", lastErr)
    else
      match TurnOf(p, w, ms[i], i, clock)
      case Stops(t) => ChainEnd(ms, t, [], None, "", lastErr)
      case Skips(t) => RunFrom(p, w, ms, i + 1, t, lastErr)
      case Asks(a) =>
        if a.answer.Answered() then ChainEnd(ms[i := a.after], a.ended, [a], Some(i), a.answer.reply, None)
        else After(a, RunFrom(p, w, ms[i := a.after], i + 1, a.ended, a.answer.err))
  }

  function After(a: Attempt, rest: ChainEnd): ChainEnd {
    rest.(attempts := [a] + rest.attempts)
  }

  function RunChain(c: Config, parent: Option<int>, start: int, w: World, ms: seq<Model>): ChainEnd {
    RunFrom(MakePlan(c, parent, start, w, ms), w, ms, 0, start + w.readLag + w.baseLag, None)
  }

  // ---------- shape of a pass ----------

  /** Marking candidate i leaves the eligibility of the later ones alone. */
  lemma {:induction false} EligibleFromUpdate(ms: seq<Model>, k: nat, m: Model, i: nat, now: int, cool: int)
    requires k < i <= |ms|
    ensures EligibleFrom(ms[k := m], i, now, cool) == EligibleFrom(ms, i, now, cool)
    decreases |ms| - i
  {
    if i < |ms| { EligibleFromUpdate(ms, k, m, i + 1, now, cool); }
  }

  lemma {:induction false} EligibleFromIn(ms: seq<Model>, i: nat, now: int, cool: int, k: nat)
    requires i <= |ms|
    ensures k in EligibleFrom(ms, i, now, cool) <==> i <= k < |ms| && Eligible(ms[k], now, cool)
    decreases |ms| - i
  {
    if i < |ms| {
      EligibleFromIn(ms, i + 1, now, cool, k);
      var later, all := EligibleFrom(ms, i + 1, now, cool), EligibleFrom(ms, i, now, cool);
      assert all == if Eligible(ms[i], now, cool) then [i] + later else later;
    }
  }

  lemma {:induction false} EligibleFromRises(ms: seq<Model>, i: nat, now: int, cool: int)
    requires i <= |ms|
    ensures var es := EligibleFrom(ms, i, now, cool); forall j, k :: 0 <= j < k < |es| ==> es[j] < es[k]
    decreases |ms| - i
  {
    if i < |ms| {
      EligibleFromRises(ms, i + 1, now, cool);
      var later, all := EligibleFrom(ms, i + 1, now, cool), EligibleFrom(ms, i, now, cool);
      forall k | 0 <= k < |later| ensures i < later[k] {
        EligibleFromIn(ms, i + 1, now, cool, later[k]);
      }
      var d := if Eligible(ms[i], now, cool) then 1 else 0;
      assert all == (if d == 1 then [i] else []) + later;
      assert forall k :: d <= k < |all| ==> all[k] == later[k - d];
      forall j, k | 0 <= j < k < |all| ensures all[j] < all[k] {
        if j < d {
          assert i < later[k - d];
        } else {
          assert later[j - d] < later[k - d];
        }
      }
    }
  }

  lemma EligibleFromMeans(ms: seq<Model>, i: nat, now: int, cool: int)
    requires i <= |ms|
    ensures var es := EligibleFrom(ms, i, now, cool);
            && (forall k :: k in es <==> i <= k < |ms| && Eligible(ms[k], now, cool))
            && (forall j, k :: 0 <= j < k < |es| ==> es[j] < es[k])
  {
    EligibleFromRises(ms, i, now, cool);
    forall k: nat ensures k in EligibleFrom(ms, i, now, cool) <==> i <= k < |ms| && Eligible(ms[k], now, cool) {
      EligibleFromIn(ms, i, now, cool, k);
    }
  }

  /** The candidates tried are a prefix of the eligible ones, and all but the last of them failed. */
  ghost predicate InOrder(attempts: seq<Attempt>, eligible: seq<nat>) {
    && |attempts| <= |eligible|
    && (forall k :: 0 <= k < |attempts| ==> attempts[k].index == eligible[k])
    && (forall k :: 0 <= k < |attempts| - 1 ==> !attempts[k].answer.Answered())
  }

  /** The pass has a winner exactly when its last attempt answered; otherwise the last error is handed on. */
  ghost predicate Verdict(e: ChainEnd, lastErr: Option<ErrClass>) {
    if e.attempts == [] then e.winner.None? && e.reply == "" && e.err == lastErr
    else
      var last := e.attempts[|e.attempts| - 1];
      if last.answer.Answered() then e.winner == Some(last.index) && e.reply == last.answer.reply && e.err.None?
      else e.winner.None? && e.reply == "" && e.err == last.answer.err
  }

  ghost predicate Untried(attempts: seq<Attempt>, j: nat) {
    forall a :: a in attempts ==> a.index != j
  }

  /** Each model carries exactly the mark of its own attempt, or no mark at all. */
  ghost predicate MarkedBy(e: ChainEnd, ms: seq<Model>) {
    && |e.models| == |ms|
    && (forall a :: a in e.attempts ==>
          a.index < |ms| && e.models[a.index] == a.after == Marked(ms[a.index], a.answer, a.ended))
    && (forall j :: 0 <= j < |ms| && Untried(e.attempts, j) ==> e.models[j] == ms[j])
  }

  lemma {:induction false} OrderFrom(p: Plan, w: World, ms: seq<Model>, i: nat, clock: int, lastErr: Option<ErrClass>)
    requires i <= |ms|
    ensures InOrder(RunFrom(p, w, ms, i, clock, lastErr).attempts, EligibleFrom(ms, i, p.start, p.cool))
    ensures Verdict(RunFrom(p, w, ms, i, clock, lastErr), lastErr)
    decreases |ms| - i
  {
    if i == |ms| { return; }
    match TurnOf(p, w, ms[i], i, clock)
    case Stops(t) =>
    case Skips(t) => OrderFrom(p, w, ms, i + 1, t, lastErr);
    case Asks(a) =>
      if !a.answer.Answered() {
        EligibleFromUpdate(ms, i, a.after, i + 1, p.start, p.cool);
        OrderFrom(p, w, ms[i := a.after], i + 1, a.ended, a.answer.err);
        OrderStep(RunFrom(p, w, ms[i := a.after], i + 1, a.ended, a.answer.err),
                  EligibleFrom(ms, i + 1, p.start, p.cool), a, lastErr);
      }
  }

  lemma OrderStep(rest: ChainEnd, later: seq<nat>, a: Attempt, lastErr: Option<ErrClass>)
    requires !a.answer.Answered() && InOrder(rest.attempts, later) && Verdict(rest, a.answer.err)
    ensures InOrder(After(a, rest).attempts, [a.index] + later) && Verdict(After(a, rest), lastErr)
  {
    var attempts := [a] + rest.attempts;
    assert forall k :: 0 < k < |attempts| ==> attempts[k] == rest.attempts[k - 1];
  }

  lemma {:induction false} MarksFrom(p: Plan, w: World, ms: seq<Model>, i: nat, clock: int, lastErr: Option<ErrClass>)
    requires i <= |ms|
    ensures MarkedBy(RunFrom(p, w, ms, i, clock, lastErr), ms)
    ensures forall a :: a in RunFrom(p, w, ms, i, clock, lastErr).attempts ==> i <= a.index
    decreases |ms| - i
  {
    if i == |ms| { return; }
    match TurnOf(p, w, ms[i], i, clock)
    case Stops(t) =>
    case Skips(t) => MarksFrom(p, w, ms, i + 1, t, lastErr);
    case Asks(a) =>
      if a.answer.Answered() {
        assert a in [a];
      } else {
        MarksFrom(p, w, ms[i := a.after], i + 1, a.ended, a.answer.err);
        MarksStep(RunFrom(p, w, ms[i := a.after], i + 1, a.ended, a.answer.err), ms, a);
      }
  }

  lemma MarksStep(rest: ChainEnd, ms: seq<Model>, a: Attempt)
    requires a.index < |ms| && a.after == Marked(ms[a.index], a.answer, a.ended)
    requires MarkedBy(rest, ms[a.index := a.after])
    requires forall b :: b in rest.attempts ==> a.index < b.index
    ensures MarkedBy(After(a, rest), ms)
  {
    var e := After(a, rest);
    assert forall b :: b in e.attempts <==> b == a || b in rest.attempts;
    assert a in e.attempts;
    assert forall j :: Untried(e.attempts, j) ==> j != a.index && Untried(rest.attempts, j);
  }

  // ---------- one shared deadline ----------

  /** What the calls of a pass begun at `clock` look like: their deadline is capped by the pass's base
      context and their own slice, and their slice by the pass's own deadline. */
  ghost predicate Capped(e: ChainEnd, p: Plan, w: World, clock: int) {
    && clock <= e.clock
    && forall a :: a in e.attempts ==> CappedCall(a, p, w, clock, e.clock)
  }

  predicate CappedCall(a: Attempt, p: Plan, w: World, from: int, to: int) {
    && a.deadline == WithTimeout(Some(p.base), a.at, a.timeout)
    && 0 < a.timeout <= p.perModel && a.at + a.timeout <= p.deadline
    && a.answer == w.answer(a.index, a.at, a.deadline)
    && from <= a.at <= a.ended == a.at + a.answer.elapsed <= to
  }

  lemma {:induction false} CappedFrom(p: Plan, w: World, ms: seq<Model>, i: nat, clock: int, lastErr: Option<ErrClass>)
    requires i <= |ms|
    ensures Capped(RunFrom(p, w, ms, i, clock, lastErr), p, w, clock)
    decreases |ms| - i
  {
    if i == |ms| { return; }
    match TurnOf(p, w, ms[i], i, clock)
    case Stops(t) =>
    case Skips(t) => CappedFrom(p, w, ms, i + 1, t, lastErr);
    case Asks(a) =>
      assert CappedCall(a, p, w, clock, a.ended);
      if !a.answer.Answered() {
        CappedFrom(p, w, ms[i := a.after], i + 1, a.ended, a.answer.err);
        CappedStep(RunFrom(p, w, ms[i := a.after], i + 1, a.ended, a.answer.err), a, p, w, clock);
      }
  }

  lemma CappedStep(rest: ChainEnd, a: Attempt, p: Plan, w: World, clock: int)
    requires CappedCall(a, p, w, clock, a.ended) && Capped(rest, p, w, a.ended)
    ensures Capped(After(a, rest), p, w, clock)
  {
  }

  /** A stage override is tried first, outside the list of models. */
  datatype StageWorld = StageWorld(ctxLag: nat, callLag: nat, chainLag: nat, answer: (int, int) -> Answer)

  datatype Call = Call(at: int, deadline: int, elapsed: nat)

  /** What a caller gets back: the text, who gave it, and the error. */
  datatype Reply = Reply(text: string, provider: string, model: string, err: Option<ErrClass>)

  datatype StageEnd = StageEnd(calls: seq<Call>, models: seq<Model>, reply: Reply)

  function CallsOf(attempts: seq<Attempt>): (calls: seq<Call>)
    ensures |calls| == |attempts|
    ensures forall k :: 0 <= k < |calls| ==> calls[k] == Call(attempts[k].at, attempts[k].deadline, attempts[k].answer.elapsed)
  {
    if attempts == [] then []
    else [Call(attempts[0].at, attempts[0].deadline, attempts[0].answer.elapsed)] + CallsOf(attempts[1..])
  }

  function StageStart(start: int, sw: StageWorld): int {
    start + sw.ctxLag
  }

  function ReplyOf(ms: seq<Model>, e: ChainEnd): Reply {
    if e.winner.Some? && e.winner.value < |ms|
    then Reply(e.reply, ms[e.winner.value].provider, ms[e.winner.value].name, None)
    else Reply("", "", "", e.err)
  }

  function FromChain(ms: seq<Model>, e: ChainEnd, before: seq<Call>): StageEnd {
    StageEnd(before + CallsOf(e.attempts), e.models, ReplyOf(ms, e))
  }

  function GenerateForStage(c: Config, ctx: Option<int>, override: Option<(string, string)>, start: int,
                            sw: StageWorld, w: World, ms: seq<Model>): StageEnd
  {
    var t0 := StageStart(start, sw);
    var parent := WithTimeout(ctx, t0, c.TotalBudget());
    match override
    case None => FromChain(ms, RunChain(c, Some(parent), t0 + sw.chainLag, w, ms), [])
    case Some((provider, name)) =>
      var at := t0 + sw.callLag;
      var deadline := WithTimeout(Some(parent), at, c.TotalBudget());
      var answer := sw.answer(at, deadline);
      var call := Call(at, deadline, answer.elapsed);
      if answer.Answered() then StageEnd([call], ms, Reply(answer.reply, provider, name, None))
      else FromChain(ms, RunChain(c, Some(parent), at + answer.elapsed + sw.chainLag, w, ms), [call])
  }

  /** A provider honours its context when it returns by the deadline, or at once if that has passed. */
  predicate Honours(elapsed: nat, at: int, deadline: int) {
    at + elapsed <= Max(at, deadline)
  }

  ghost predicate Honest(w: World) {
    forall i, at, deadline :: Honours(w.answer(i, at, deadline).elapsed, at, deadline)
  }

  ghost predicate HonestStage(sw: StageWorld) {
    forall at, deadline :: Honours(sw.answer(at, deadline).elapsed, at, deadline)
  }

  ghost predicate CallsWithin(calls: seq<Call>, ctx: Option<int>, limit: int, honest: bool) {
    forall call :: call in calls ==> Within(call, ctx, limit, honest)
  }

  predicate Within(call: Call, ctx: Option<int>, limit: int, honest: bool) {
    && call.deadline <= limit
    && (ctx.Some? ==> call.deadline <= ctx.value)
    && (honest ==> call.at + call.elapsed <= Max(call.at, limit))
  }

  /** The calls of a pass whose base context ends by `parent`. */
  lemma AttemptsWithin(e: ChainEnd, p: Plan, w: World, clock: int, parent: int, ctx: Option<int>)
    requires Capped(e, p, w, clock) && p.base <= parent && (ctx.Some? ==> parent <= ctx.value)
    ensures CallsWithin(CallsOf(e.attempts), ctx, parent, Honest(w))
  {
    forall a | a in e.attempts ensures a.deadline <= parent && (Honest(w) ==> a.at + a.answer.elapsed <= Max(a.at, parent)) {
      assert Honest(w) ==> Honours(w.answer(a.index, a.at, a.deadline).elapsed, a.at, a.deadline);
    }
  }

  lemma ChainWithin(c: Config, parent: int, start: int, w: World, ms: seq<Model>, ctx: Option<int>) returns (e: ChainEnd)
    requires ctx.Some? ==> parent <= ctx.value
    ensures e == RunChain(c, Some(parent), start, w, ms) && CallsWithin(CallsOf(e.attempts), ctx, parent, Honest(w))
  {
    e := RunChain(c, Some(parent), start, w, ms);
    var p, clock := MakePlan(c, Some(parent), start, w, ms), start + w.readLag + w.baseLag;
    CappedFrom(p, w, ms, 0, clock, None);
    AttemptsWithin(e, p, w, clock, parent, ctx);
  }

  /** The override and the whole chain share one deadline: no call gets a later one, whatever the
      one-second floor does to the chain's own budget, so no honest call is still running after it. */
  lemma SharedDeadline(c: Config, ctx: Option<int>, override: Option<(string, string)>, start: int,
                       sw: StageWorld, w: World, ms: seq<Model>)
    ensures CallsWithin(GenerateForStage(c, ctx, override, start, sw, w, ms).calls, ctx,
                        StageStart(start, sw) + c.TotalBudget(), Honest(w) && HonestStage(sw))
  {
    var before, parent, from := StageCalls(c, ctx, override, start, sw, w, ms);
    var e := ChainWithin(c, parent, from, w, ms, ctx);
    StageWithin(ms, e, before, ctx, parent, Honest(w), HonestStage(sw));
  }

  /** A stage makes the call of its override, if any, and then perhaps those of a chain under the same context. */
  lemma StageCalls(c: Config, ctx: Option<int>, override: Option<(string, string)>, start: int,
                   sw: StageWorld, w: World, ms: seq<Model>) returns (before: seq<Call>, parent: int, from: int)
    ensures parent <= StageStart(start, sw) + c.TotalBudget() && (ctx.Some? ==> parent <= ctx.value)
    ensures CallsWithin(before, ctx, parent, HonestStage(sw))
    ensures var calls := GenerateForStage(c, ctx, override, start, sw, w, ms).calls;
            calls == before || calls == FromChain(ms, RunChain(c, Some(parent), from, w, ms), before).calls
  {
    var t0 := StageStart(start, sw);
    parent := WithTimeout(ctx, t0, c.TotalBudget());
    match override
    case None =>
      before, from := [], t0 + sw.chainLag;
    case Some((provider, name)) =>
      var first := OverrideWithin(c, ctx, parent, t0 + sw.callLag, sw);
      before, from := [first], first.at + first.elapsed + sw.chainLag;
  }

  /** The call of the stage model on its own. */
  lemma OverrideWithin(c: Config, ctx: Option<int>, parent: int, at: int, sw: StageWorld) returns (call: Call)
    requires ctx.Some? ==> parent <= ctx.value
    ensures var deadline := WithTimeout(Some(parent), at, c.TotalBudget());
            call == Call(at, deadline, sw.answer(at, deadline).elapsed)
    ensures CallsWithin([call], ctx, parent, HonestStage(sw))
  {
    var deadline := WithTimeout(Some(parent), at, c.TotalBudget());
    call := Call(at, deadline, sw.answer(at, deadline).elapsed);
    assert HonestStage(sw) ==> Honours(call.elapsed, at, deadline);
  }

  lemma StageWithin(ms: seq<Model>, e: ChainEnd, before: seq<Call>, ctx: Option<int>, limit: int, honest: bool, honestStage: bool)
    requires CallsWithin(before, ctx, limit, honestStage)
    requires CallsWithin(CallsOf(e.attempts), ctx, limit, honest)
    ensures CallsWithin(FromChain(ms, e, before).calls, ctx, limit, honest && honestStage)
  {
  }

  lemma PassFacts(c: Config, parent: Option<int>, start: int, w: World, ms: seq<Model>)
    ensures InOrder(RunChain(c, parent, start, w, ms).attempts, EligibleFrom(ms, 0, start, c.Cool()))
    ensures Verdict(RunChain(c, parent, start, w, ms), None)
    ensures MarkedBy(RunChain(c, parent, start, w, ms), ms)
    ensures forall a :: a in RunChain(c, parent, start, w, ms).attempts ==> a.answer == w.answer(a.index, a.at, a.deadline)
  {
    var p := MakePlan(c, parent, start, w, ms);
    var clock := start + w.readLag + w.baseLag;
    OrderFrom(p, w, ms, 0, clock, None);
    MarksFrom(p, w, ms, 0, clock, None);
    CappedFrom(p, w, ms, 0, clock, None);
  }

  // ---------- no live model is starved ----------

  /** All the time that passes outside provider calls while candidates i.. are visited. */
  function LagFrom(w: World, i: nat, n: nat): nat
    decreases n - i
  {
    if i >= n then 0 else w.checkLag(i) + w.callLag(i) + LagFrom(w, i + 1, n)
  }

  function TotalLag(w: World, n: nat): nat {
    w.readLag + w.baseLag + LagFrom(w, 0, n)
  }

  function SumTimeouts(attempts: seq<Attempt>): int {
    if attempts == [] then 0 else attempts[0].timeout + SumTimeouts(attempts[1..])
  }

  predicate Sliced(a: Attempt, slice: int, lag: int) {
    slice - lag <= a.timeout <= slice && a.deadline == a.at + a.timeout
  }

  /** Each attempt of a pass gets its slice up to the accumulated lag, and without a winner nobody is left out. */
  ghost predicate Fair(e: ChainEnd, eligible: nat, slice: int, lag: int) {
    && (e.winner.None? ==> |e.attempts| == eligible)
    && (forall a :: a in e.attempts ==> Sliced(a, slice, lag))
    && SumTimeouts(e.attempts) <= |e.attempts| * slice
  }

  lemma {:induction false} FairFrom(p: Plan, w: World, ms: seq<Model>, i: nat, clock: int, lastErr: Option<ErrClass>,
                                    spent: int, lag: nat, bound: int)
    requires i <= |ms| && Honest(w)
    requires p.deadline == p.start + p.budget <= p.base
    requires clock - p.start <= spent + lag
    requires lag + LagFrom(w, i, |ms|) <= bound < p.perModel
    requires spent + |EligibleFrom(ms, i, p.start, p.cool)| * p.perModel <= p.budget
    ensures Fair(RunFrom(p, w, ms, i, clock, lastErr), |EligibleFrom(ms, i, p.start, p.cool)|, p.perModel, bound)
    decreases |ms| - i
  {
    if i == |ms| { return; }
    var n := |EligibleFrom(ms, i, p.start, p.cool)|;
    var lag' := lag + w.checkLag(i) + w.callLag(i);
    if n > 0 { MulStep(n, p.perModel); }
    match TurnOf(p, w, ms[i], i, clock)
    case Stops(t) =>
    case Skips(t) => FairFrom(p, w, ms, i + 1, t, lastErr, spent, lag', bound);
    case Asks(a) =>
      assert Honours(w.answer(i, a.at, a.deadline).elapsed, a.at, a.deadline);
      assert Sliced(a, p.perModel, bound);
      if !a.answer.Answered() {
        EligibleFromUpdate(ms, i, a.after, i + 1, p.start, p.cool);
        FairFrom(p, w, ms[i := a.after], i + 1, a.ended, a.answer.err, spent + p.perModel, lag', bound);
        var rest := RunFrom(p, w, ms[i := a.after], i + 1, a.ended, a.answer.err);
        FairStep(rest, a, n - 1, p.perModel, bound);
      } else {
        assert [a][1..] == [];
      }
  }

  lemma FairStep(rest: ChainEnd, a: Attempt, later: nat, slice: int, lag: int)
    requires Fair(rest, later, slice, lag)
    requires Sliced(a, slice, lag)
    ensures Fair(After(a, rest), later + 1, slice, lag)
  {
    assert ([a] + rest.attempts)[1..] == rest.attempts;
    MulStep(|rest.attempts| + 1, slice);
  }

  lemma MulStep(n: int, x: int)
    requires n > 0
    ensures n * x == x + (n - 1) * x
    ensures x >= 0 ==> (n - 1) * x >= 0
  {
  }

  /** With n eligible models, B of budget left and honest providers, every eligible model up to the
      first answering one is tried; each gets floor(B/n) of the clock less at most the time lost
      between statements, and together they are promised no more than B. */
  lemma NoModelStarved(c: Config, parent: Option<int>, start: int, w: World, ms: seq<Model>)
    requires Honest(w)
    requires Remaining(c, parent, start, w) >= SECOND
    requires |EligibleFrom(ms, 0, start, c.Cool())| > 0
    requires TotalLag(w, |ms|) < Remaining(c, parent, start, w) / |EligibleFrom(ms, 0, start, c.Cool())|
    ensures var e := RunChain(c, parent, start, w, ms);
            var eligible := EligibleFrom(ms, 0, start, c.Cool());
            var slice := Remaining(c, parent, start, w) / |eligible|;
            && (if e.winner.None? then |e.attempts| == |eligible| else 0 < |e.attempts| <= |eligible|)
            && (forall k :: 0 <= k < |e.attempts| ==> e.attempts[k].index == eligible[k])
            && (forall a :: a in e.attempts ==> slice - TotalLag(w, |ms|) <= a.deadline - a.at <= slice)
            && SumTimeouts(e.attempts) <= Remaining(c, parent, start, w)
  {
    var p := MakePlan(c, parent, start, w, ms);
    var n := |EligibleFrom(ms, 0, start, c.Cool())|;
    var clock := start + w.readLag + w.baseLag;
    DivTimes(p.budget, n);
    FairFrom(p, w, ms, 0, clock, None, 0, w.readLag + w.baseLag, TotalLag(w, |ms|));
    OrderFrom(p, w, ms, 0, clock, None);
    MulMonotone(|RunChain(c, parent, start, w, ms).attempts|, n, p.perModel);
  }

  lemma DivTimes(b: int, n: int)
    requires n > 0
    ensures n * (b / n) <= b
  {
  }

  lemma MulMonotone(a: nat, b: nat, x: int)
    requires a <= b && 0 <= x
    ensures a * x <= b * x
  {
  }

  // ---------- the first answer wins ----------

  /** The reference: the first index in the list at which `says` holds. */
  function FirstWhere(candidates: seq<nat>, says: nat -> bool): Option<nat> {
    if candidates == [] then None
    else if says(candidates[0]) then Some(candidates[0])
    else FirstWhere(candidates[1..], says)
  }

  lemma {:induction false} FirstWhereAt(candidates: seq<nat>, says: nat -> bool, k: nat)
    requires k <= |candidates|
    requires forall j :: 0 <= j < k ==> !says(candidates[j])
    requires k < |candidates| ==> says(candidates[k])
    ensures FirstWhere(candidates, says) == if k < |candidates| then Some(candidates[k]) else None
  {
    if k > 0 { FirstWhereAt(candidates[1..], says, k - 1); }
  }

  /** Whoever answers does so regardless of when it is asked. */
  ghost predicate AnswersIff(w: World, says: nat -> bool) {
    forall i, at, deadline :: w.answer(i, at, deadline).Answered() <==> says(i)
  }

  /** What a pass leaves on candidate j: a skipped one and those after the winner are untouched, the
      winner is reset, and every other eligible one has one failure more. */
  ghost predicate EffectOn(j: nat, e: ChainEnd, eligible: seq<nat>, ms: seq<Model>)
    requires j < |ms| == |e.models|
  {
    if j !in eligible || (e.winner.Some? && j > e.winner.value) then e.models[j] == ms[j]
    else if e.winner == Some(j) then e.models[j] == AfterSuccess(ms[j])
    else e.models[j].fails == ms[j].fails + 1 && e.models[j].lastFail.Some?
  }

  ghost predicate FirstWins(e: ChainEnd, eligible: seq<nat>, ms: seq<Model>, says: nat -> bool) {
    && |e.models| == |ms|
    && e.winner == FirstWhere(eligible, says)
    && (e.reply != "" <==> e.winner.Some?)
    && forall j :: 0 <= j < |ms| ==> EffectOn(j, e, eligible, ms)
  }

  /** With time to ask everybody, the winner is the first eligible model that answers; every eligible
      model before it takes exactly one failure mark, it is itself reset, and all the others keep their state. */
  lemma FirstAnswerWins(c: Config, parent: Option<int>, start: int, w: World, ms: seq<Model>, says: nat -> bool)
    requires Honest(w) && AnswersIff(w, says)
    requires Remaining(c, parent, start, w) >= SECOND
    requires |EligibleFrom(ms, 0, start, c.Cool())| > 0
    requires TotalLag(w, |ms|) < Remaining(c, parent, start, w) / |EligibleFrom(ms, 0, start, c.Cool())|
    ensures FirstWins(RunChain(c, parent, start, w, ms), EligibleFrom(ms, 0, start, c.Cool()), ms, says)
  {
    NoModelStarved(c, parent, start, w, ms);
    PassFacts(c, parent, start, w, ms);
    EligibleFromMeans(ms, 0, start, c.Cool());
    WinnerIsFirst(RunChain(c, parent, start, w, ms), EligibleFrom(ms, 0, start, c.Cool()), ms, w, says);
  }

  lemma WinnerIsFirst(e: ChainEnd, eligible: seq<nat>, ms: seq<Model>, w: World, says: nat -> bool)
    requires AnswersIff(w, says) && InOrder(e.attempts, eligible) && Verdict(e, None) && MarkedBy(e, ms)
    requires forall a :: a in e.attempts ==> a.answer == w.answer(a.index, a.at, a.deadline)
    requires e.winner.None? ==> |e.attempts| == |eligible|
    requires forall j, k :: 0 <= j < k < |eligible| ==> eligible[j] < eligible[k]
    ensures FirstWins(e, eligible, ms, says)
  {
    SpokenFor(e, eligible, w, says);
    FirstWhereAt(eligible, says, if e.winner.Some? then |e.attempts| - 1 else |e.attempts|);
    forall j | 0 <= j < |ms| ensures EffectOn(j, e, eligible, ms) {
      EffectIs(j, e, eligible, ms);
    }
  }

  lemma SpokenFor(e: ChainEnd, eligible: seq<nat>, w: World, says: nat -> bool)
    requires AnswersIff(w, says) && InOrder(e.attempts, eligible)
    requires forall a :: a in e.attempts ==> a.answer == w.answer(a.index, a.at, a.deadline)
    ensures forall k :: 0 <= k < |e.attempts| ==> (e.attempts[k].answer.Answered() <==> says(eligible[k]))
  {
    forall k | 0 <= k < |e.attempts| ensures e.attempts[k].answer.Answered() <==> says(eligible[k]) {
      var a := e.attempts[k];
      assert w.answer(a.index, a.at, a.deadline).Answered() <==> says(a.index);
    }
  }

  lemma EffectIs(j: nat, e: ChainEnd, eligible: seq<nat>, ms: seq<Model>)
    requires InOrder(e.attempts, eligible) && Verdict(e, None) && MarkedBy(e, ms) && j < |ms|
    requires e.winner.None? ==> |e.attempts| == |eligible|
    requires forall j, k :: 0 <= j < k < |eligible| ==> eligible[j] < eligible[k]
    ensures EffectOn(j, e, eligible, ms)
  {
    var n := |e.attempts|;
    if k :| 0 <= k < |eligible| && eligible[k] == j {
      if k < n {
        assert e.attempts[k] in e.attempts;
      } else {
        assert Untried(e.attempts, j);
      }
    } else {
      assert Untried(e.attempts, j);
    }
  }

  /** With no eligible candidate nobody is asked, nothing changes, and the caller sees an empty reply
      without an error: failure has to be read off the reply. */
  lemma NobodyEligible(c: Config, parent: Option<int>, start: int, w: World, ms: seq<Model>)
    requires EligibleFrom(ms, 0, start, c.Cool()) == []
    ensures var e := RunChain(c, parent, start, w, ms);
            e.attempts == [] && e.models == ms && e.reply == "" && e.err.None?
  {
    PassFacts(c, parent, start, w, ms);
    assert forall j :: 0 <= j < |ms| ==> Untried([], j);
  }

  // ---------- an empty reply without an error ----------

  /** A provider that says nothing and reports nothing. */
  predicate Mute(answer: Answer) {
    answer.reply == "" && answer.err.None?
  }

  /** In any pass the caller gets an empty reply without an error exactly when nobody was asked, or the last
      one asked was mute. */
  lemma SilentFailureIff(c: Config, parent: Option<int>, start: int, w: World, ms: seq<Model>)
    ensures var e := RunChain(c, parent, start, w, ms);
            e.reply == "" && e.err.None? <==> e.attempts == [] || Mute(e.attempts[|e.attempts| - 1].answer)
  {
    PassFacts(c, parent, start, w, ms);
  }

  /** Whoever does not answer fails in the same way whenever it is asked. */
  ghost predicate FailsWith(w: World, says: nat -> bool, errs: nat -> Option<ErrClass>) {
    forall i, at, deadline :: !says(i) ==> w.answer(i, at, deadline).err == errs(i)
  }

  /** Before the pass, with time to ask everybody: the caller is going to get an empty reply without an error
      exactly when no model is eligible, or none of the eligible ones answers and the last of them is mute. */
  lemma SilentFailureForeseen(c: Config, parent: Option<int>, start: int, w: World, ms: seq<Model>,
                              says: nat -> bool, errs: nat -> Option<ErrClass>)
    requires Honest(w) && AnswersIff(w, says) && FailsWith(w, says, errs)
    requires var eligible := EligibleFrom(ms, 0, start, c.Cool());
             eligible != [] ==> Remaining(c, parent, start, w) >= SECOND
                                && TotalLag(w, |ms|) < Remaining(c, parent, start, w) / |eligible|
    ensures var e := RunChain(c, parent, start, w, ms);
            var eligible := EligibleFrom(ms, 0, start, c.Cool());
            e.reply == "" && e.err.None? <==>
              eligible == []
              || (FirstWhere(eligible, says).None? && errs(eligible[|eligible| - 1]).None?)
  {
    var eligible := EligibleFrom(ms, 0, start, c.Cool());
    if eligible == [] {
      NobodyEligible(c, parent, start, w, ms);
    } else {
      NoModelStarved(c, parent, start, w, ms);
      FirstAnswerWins(c, parent, start, w, ms, says);
      SilentFailureIff(c, parent, start, w, ms);
      LastAsked(c, parent, start, w, ms, says, errs);
    }
  }

  /** Without a winner the last one asked is the last eligible one, and it failed in its own way. */
  lemma LastAsked(c: Config, parent: Option<int>, start: int, w: World, ms: seq<Model>,
                  says: nat -> bool, errs: nat -> Option<ErrClass>)
    requires AnswersIff(w, says) && FailsWith(w, says, errs)
    requires var e := RunChain(c, parent, start, w, ms);
             e.winner.None? ==> 0 < |e.attempts| == |EligibleFrom(ms, 0, start, c.Cool())|
    ensures var e := RunChain(c, parent, start, w, ms);
            var eligible := EligibleFrom(ms, 0, start, c.Cool());
            e.winner.None? ==>
              e.attempts[|e.attempts| - 1].answer.err == errs(eligible[|eligible| - 1])
              && !e.attempts[|e.attempts| - 1].answer.Answered()
  {
    PassFacts(c, parent, start, w, ms);
    var e := RunChain(c, parent, start, w, ms);
    if e.winner.None? {
      var last := e.attempts[|e.attempts| - 1];
      assert last in e.attempts;
      assert w.answer(last.index, last.at, last.deadline).Answered() <==> says(last.index);
    }
  }

  /** A single model in perfect health that is mute: it is asked, it fails, and the caller sees no error. */
  lemma MuteModel() returns (w: World, ms: seq<Model>)
    ensures var e := RunChain(Config(300, 0), None, 0, w, ms);
            EligibleFrom(ms, 0, 0, Config(300, 0).Cool()) == [0] && e.attempts != []
            && e.reply == "" && e.err.None? && |e.models| == 1 && e.models[0].fails == 1
  {
    w := World(0, 0, i => 0, i => 0, (i, at, deadline) => Answer("", None, 0));
    ms := [Model("siliconflow", "glm", true, None, 0)];
    var c := Config(300, 0);
    assert EligibleFrom(ms, 1, 0, c.Cool()) == [] && EligibleFrom(ms, 0, 0, c.Cool()) == [0];
    assert LagFrom(w, 0, 1) == 0;
    SilentFailureForeseen(c, None, 0, w, ms, i => false, i => None);
    FirstAnswerWins(c, None, 0, w, ms, i => false);
    assert EffectOn(0, RunChain(c, None, 0, w, ms), [0], ms);
  }

  // ---------- whose reply it is ----------

  /** The reply of a chain is the text of its last attempt with the provider and the name of the model asked,
      or nothing with the last error. */
  lemma ReplyIsTheWinners(c: Config, parent: Option<int>, start: int, w: World, ms: seq<Model>)
    ensures var e := RunChain(c, parent, start, w, ms);
            var reply := ReplyOf(ms, e);
            if e.attempts != [] && e.attempts[|e.attempts| - 1].answer.err.None? && e.attempts[|e.attempts| - 1].answer.reply != ""
            then
              var last := e.attempts[|e.attempts| - 1];
              last.index < |ms|
              && reply == Reply(last.answer.reply, ms[last.index].provider, ms[last.index].name, None)
            else
              reply == Reply("", "", "", if e.attempts == [] then None else e.attempts[|e.attempts| - 1].answer.err)
  {
    PassFacts(c, parent, start, w, ms);
    var e := RunChain(c, parent, start, w, ms);
    assert e.attempts != [] ==> e.attempts[|e.attempts| - 1] in e.attempts;
  }

  /** A configured stage model is asked first, under the deadline of the whole. If it answers, its text is the
      reply, nobody else is asked, and the list of models stays as it is. If it does not, the rest is the chain,
      begun when the stage model has ended. */
  lemma StageModelFirst(c: Config, ctx: Option<int>, provider: string, name: string, start: int,
                        sw: StageWorld, w: World, ms: seq<Model>)
    ensures var end := GenerateForStage(c, ctx, Some((provider, name)), start, sw, w, ms);
            var limit := start + sw.ctxLag + c.TotalBudget();
            var deadline := if ctx.Some? && ctx.value < limit then ctx.value else limit;
            var at := start + sw.ctxLag + sw.callLag;
            var answer := sw.answer(at, deadline);
            && end.calls != [] && end.calls[0] == Call(at, deadline, answer.elapsed)
            && if answer.err.None? && answer.reply != ""
               then |end.calls| == 1 && end.models == ms && end.reply == Reply(answer.reply, provider, name, None)
               else
                 var e := RunChain(c, Some(deadline), at + answer.elapsed + sw.chainLag, w, ms);
                 end.calls[1..] == CallsOf(e.attempts) && end.models == e.models && end.reply == ReplyOf(ms, e)
  {
  }

  /** Without a stage model only models of the list are asked. */
  lemma NoStageModel(c: Config, ctx: Option<int>, start: int, sw: StageWorld, w: World, ms: seq<Model>)
    ensures var end := GenerateForStage(c, ctx, None, start, sw, w, ms);
            var limit := start + sw.ctxLag + c.TotalBudget();
            var deadline := if ctx.Some? && ctx.value < limit then ctx.value else limit;
            var e := RunChain(c, Some(deadline), start + sw.ctxLag + sw.chainLag, w, ms);
            end.calls == CallsOf(e.attempts) && end.models == e.models && end.reply == ReplyOf(ms, e)
  {
    var e := RunChain(c, Some(WithTimeout(ctx, StageStart(start, sw), c.TotalBudget())), StageStart(start, sw) + sw.chainLag, w, ms);
    assert [] + CallsOf(e.attempts) == CallsOf(e.attempts);
  }

  /** Unless it is configured otherwise, no call is given a deadline later than 110 seconds after the start. */
  lemma DefaultDeadline(c: Config, ctx: Option<int>, override: Option<(string, string)>, start: int,
                        sw: StageWorld, w: World, ms: seq<Model>)
    requires c.budget <= 0
    ensures forall call :: call in GenerateForStage(c, ctx, override, start, sw, w, ms).calls
              ==> call.deadline <= start + sw.ctxLag + 110_000_000_000
  {
    SharedDeadline(c, ctx, override, start, sw, w, ms);
  }

  // ---------- the one-second floor ----------

  lemma {:induction false} FirstIsAsked(p: Plan, w: World, ms: seq<Model>, i: nat, clock: int, lastErr: Option<ErrClass>)
    requires i <= |ms| && EligibleFrom(ms, i, p.start, p.cool) != []
    requires p.deadline == p.start + p.budget && p.perModel > 0
    requires clock + LagFrom(w, i, |ms|) < p.deadline
    ensures RunFrom(p, w, ms, i, clock, lastErr).attempts != []
    decreases |ms| - i
  {
    match TurnOf(p, w, ms[i], i, clock)
    case Stops(t) =>
    case Skips(t) => FirstIsAsked(p, w, ms, i + 1, t, lastErr);
    case Asks(a) =>
  }

  /** However little time the caller has left, even none: if less than a second is lost between statements, the
      first eligible model is asked, because a chain never gives itself less than a second. */
  lemma SomebodyIsAsked(c: Config, parent: Option<int>, start: int, w: World, ms: seq<Model>)
    requires EligibleFrom(ms, 0, start, c.Cool()) != [] && TotalLag(w, |ms|) < 1_000_000_000
    ensures var e := RunChain(c, parent, start, w, ms);
            e.attempts != [] && e.attempts[0].index == EligibleFrom(ms, 0, start, c.Cool())[0]
  {
    var p := MakePlan(c, parent, start, w, ms);
    FirstIsAsked(p, w, ms, 0, start + w.readLag + w.baseLag, None);
    PassFacts(c, parent, start, w, ms);
  }
}
