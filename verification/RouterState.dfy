/** The router's objects, updated in place, each method tied to its function in `Router`. */
module RouterState {
  import opened Common
  import opened Router
  import Runs = RouterRuns

  class ModelState {
    const provider: string
    const name: string
    var available: bool
    var lastFail: Option<int>
    var fails: nat

    function View(): Model
      reads this
    {
      Model(provider, name, available, lastFail, fails)
    }

    constructor (provider: string, name: string)
      ensures View() == Model(provider, name, true, None, 0)
    {
      this.provider := provider;
      this.name := name;
      available := true;
      lastFail := None;
      fails := 0;
    }
  }

  class AIRouter {
    const models: seq<ModelState>
    const coolDownSec: int
    const budget: int

    function Settings(): Config {
      Config(coolDownSec, budget)
    }

    /** The priority list holds every model once. */
    ghost predicate Valid() {
      forall i, j :: 0 <= i < j < |models| ==> models[i] != models[j]
    }

    ghost function Views(): (vs: seq<Model>)
      reads models
      ensures |vs| == |models|
      ensures forall i :: 0 <= i < |models| ==> vs[i] == models[i].View()
    {
      seq(|models|, i requires 0 <= i < |models| reads models => models[i].View())
    }

    constructor (models: seq<ModelState>, coolDownSec: int, budget: int)
      requires forall i, j :: 0 <= i < j < |models| ==> models[i] != models[j]
      ensures Valid() && this.models == models && Settings() == Config(coolDownSec, budget)
    {
      this.models := models;
      this.coolDownSec := coolDownSec;
      this.budget := budget;
    }

    method MarkSuccess(model: ModelState)
      modifies model
      ensures model.View() == AfterSuccess(old(model.View()))
    {
      model.fails := 0;
      model.available := true;
      model.lastFail := None;
    }

    method MarkFailure(model: ModelState, now: int)
      modifies model
      ensures model.View() == AfterFailure(old(model.View()), now)
    {
      model.fails := model.fails + 1;
      model.lastFail := Some(now);
      if model.fails >= 5 {
        model.available := false;
      }
    }

    method MarkAuthFailure(model: ModelState, now: int)
      modifies model
      ensures model.View() == AfterAuthFailure(old(model.View()), now)
    {
      model.fails := model.fails + 1;
      model.lastFail := Some(now);
      model.available := false;
    }

    method RecoverCoolingModels(now: int)
      requires Valid()
      modifies models
      ensures Views() == Runs.RecoverAll(old(Views()), now, Settings().Cool())
    {
      for k := 0 to |models|
        invariant forall i :: 0 <= i < k ==> models[i].View() == AfterRecover(old(models[i].View()), now, Settings().Cool())
        invariant forall i :: k <= i < |models| ==> models[i].View() == old(models[i].View())
      {
        var model := models[k];
        if !model.available && model.lastFail.Some? {
          if now - model.lastFail.value >= coolDownSec * SECOND {
            model.available := true;
          }
        }
      }
    }

    method CountActive(now: int) returns (active: nat)
      ensures active == |EligibleFrom(Views(), 0, now, Settings().Cool())|
    {
      active := 0;
      for k := 0 to |models|
        invariant active + |EligibleFrom(Views(), k, now, Settings().Cool())| == |EligibleFrom(Views(), 0, now, Settings().Cool())|
      {
        var m := models[k];
        var cooling := m.fails >= 3 && m.lastFail.Some? && now - m.lastFail.value < coolDownSec * SECOND;
        if m.available && !cooling {
          active := active + 1;
        }
      }
    }

    /** The budget of one candidate: an even share among the live ones, or among all if none is live. */
    method Slice(chainBudget: int, live: nat) returns (perModel: int)
      ensures perModel == PerModel(chainBudget, live, |models|)
    {
      var active := live;
      if active == 0 {
        active := |models|;
      }
      perModel := if active == 0 then chainBudget else chainBudget / active;
      if perModel <= 0 {
        perModel := chainBudget;
      }
    }

    /** The part of `runChain` before its loop: the budget, its deadline, the base context and the slices. */
    method PlanChain(parent: Option<int>, start: int, w: World) returns (p: Plan, clock: int)
      ensures p == MakePlan(Settings(), parent, start, w, Views())
      ensures clock == start + w.readLag + w.baseLag
    {
      var chainBudget := if budget > 0 then budget else 110 * SECOND;
      clock := start + w.readLag;
      if parent.Some? && parent.value - clock < chainBudget {
        chainBudget := parent.value - clock;
      }
      if chainBudget < SECOND {
        chainBudget := SECOND;
      }
      clock := clock + w.baseLag;
      var active := CountActive(start);
      var perModel := Slice(chainBudget, active);
      p := Plan(start, chainBudget, start + chainBudget, WithTimeout(parent, clock, chainBudget), perModel, coolDownSec * SECOND);
    }

    /** One iteration of the loop of `runChain`: check the budget, skip, or call and mark. */
    method Visit(p: Plan, w: World, k: nat, from: int) returns (turn: Turn)
      requires Valid() && k < |models|
      requires p.cool == Settings().Cool()
      modifies models[k]
      ensures turn == TurnOf(p, w, old(Views())[k], k, from)
      ensures Views() == if turn.Asks? then old(Views())[k := turn.attempt.after] else old(Views())
    {
      var model := models[k];
      var clock := from + w.checkLag(k);
      if clock - p.start >= p.budget || clock > p.deadline {
        return Stops(clock);
      }
      var inCoolDown := model.lastFail.Some? && p.start - model.lastFail.value < coolDownSec * SECOND;
      if !model.available || (inCoolDown && model.fails >= 3) {
        return Skips(clock);
      }
      var at := clock + w.callLag(k);
      var remain := p.deadline - at;
      var timeout := if p.perModel < remain then p.perModel else remain;
      if timeout <= 0 {
        return Stops(at);
      }
      var deadline := WithTimeout(Some(p.base), at, timeout);
      var answer := w.answer(k, at, deadline);
      clock := at + answer.elapsed;
      if answer.err.None? && answer.reply != "" {
        MarkSuccess(model);
      } else if answer.err == Some(AuthError) {
        MarkAuthFailure(model, clock);
      } else {
        MarkFailure(model, clock);
      }
      turn := Asks(Attempt(k, at, timeout, deadline, answer, clock, model.View()));
    }

    /** `runChain`: what is fixed before the loop, and the loop over the candidates in priority order. */
    method RunChain(parent: Option<int>, start: int, w: World) returns (reply: Reply)
      requires Valid()
      modifies models
      ensures reply == ReplyOf(old(Views()), Router.RunChain(Settings(), parent, start, w, old(Views())))
      ensures Views() == Router.RunChain(Settings(), parent, start, w, old(Views())).models
    {
      var p, clock := PlanChain(parent, start, w);
      reply := TryAll(p, w, clock);
    }

    method TryAll(p: Plan, w: World, from: int) returns (reply: Reply)
      requires Valid() && p.cool == Settings().Cool()
      modifies models
      ensures reply == ReplyOf(old(Views()), RunFrom(p, w, old(Views()), 0, from, None))
      ensures Views() == RunFrom(p, w, old(Views()), 0, from, None).models
    {
      var clock := from;
      ghost var whole := RunFrom(p, w, Views(), 0, clock, None);
      ghost var done: seq<Attempt> := [];
      var lastErr: Option<ErrClass> := None;
      var k := 0;
      while k < |models|
        invariant 0 <= k <= |models|
        invariant whole == Behind(done, RunFrom(p, w, Views(), k, clock, lastErr))
      {
        ghost var before := Views();
        Resume(done, p, w, before, k, clock, lastErr);
        var turn := Visit(p, w, k, clock);
        match turn {
          case Stops(t) =>
            break;
          case Skips(t) =>
            clock := t;
          case Asks(a) =>
            if a.answer.err.None? && a.answer.reply != "" {
              return Reply(a.answer.reply, models[k].provider, models[k].name, None);
            }
            clock, lastErr, done := a.ended, a.answer.err, done + [a];
        }
        k := k + 1;
      }
      reply := Reply("", "", "", lastErr);
    }

    /** `GenerateTextForStage`: a configured stage model first, then the chain under the same deadline. */
    method GenerateTextForStage(ctx: Option<int>, override: Option<(string, string)>, start: int, sw: StageWorld, w: World)
      returns (reply: Reply)
      requires Valid()
      modifies models
      ensures reply == GenerateForStage(Settings(), ctx, override, start, sw, w, old(Views())).reply
      ensures Views() == GenerateForStage(Settings(), ctx, override, start, sw, w, old(Views())).models
    {
      var total := if budget > 0 then budget else 110 * SECOND;
      var clock := start + sw.ctxLag;
      var chainCtx := WithTimeout(ctx, clock, total);
      if override.Some? {
        clock := clock + sw.callLag;
        var answer := sw.answer(clock, WithTimeout(Some(chainCtx), clock, total));
        clock := clock + answer.elapsed;
        if answer.err.None? && answer.reply != "" {
          return Reply(answer.reply, override.value.0, override.value.1, None);
        }
      }
      reply := RunChain(Some(chainCtx), clock + sw.chainLag, w);
    }
  }

  /** Attempts already made, in front of what is still to come. */
  ghost function Behind(done: seq<Attempt>, e: ChainEnd): ChainEnd {
    e.(attempts := done + e.attempts)
  }

  /** One iteration further along, with the attempts made so far kept in front. */
  lemma Resume(done: seq<Attempt>, p: Plan, w: World, ms: seq<Model>, k: nat, clock: int, err: Option<ErrClass>)
    requires k < |ms|
    ensures Behind(done, RunFrom(p, w, ms, k, clock, err)) ==
      match TurnOf(p, w, ms[k], k, clock)
      case Stops(t) => ChainEnd(ms, t, done, None, "", err)
      case Skips(t) => Behind(done, RunFrom(p, w, ms, k + 1, t, err))
      case Asks(a) =>
        if a.answer.Answered() then ChainEnd(ms[k := a.after], a.ended, done + [a], Some(k), a.answer.reply, None)
        else Behind(done + [a], RunFrom(p, w, ms[k := a.after], k + 1, a.ended, a.answer.err))
  {
    var turn := TurnOf(p, w, ms[k], k, clock);
    if turn.Asks? && !turn.attempt.answer.Answered() {
      var rest := RunFrom(p, w, ms[k := turn.attempt.after], k + 1, turn.attempt.ended, turn.attempt.answer.err);
      assert done + ([turn.attempt] + rest.attempts) == (done + [turn.attempt]) + rest.attempts;
    }
  }
}
