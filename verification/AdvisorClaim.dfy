/**
 Who is in charge of a customer. A send by an advisor claims an unassigned customer with a conditional
 UPDATE; the customer form and the detection of a lead write the same column without a condition, from a row
 they read earlier. Schedules interleave any number of requests, statement by statement.
 */
module AdvisorClaim {

  datatype Kind =
    | Send(advisor: nat)  // AdvisorSendMessage, without an administrator's role
    | Edit(to: nat)       // UpdateCustomer: 0 names nobody and writes back what was read
    | Lead(best: nat)     // a detected lead on an unassigned customer; 0 when nobody is available

  datatype Stage = Arrived | Claiming | Sending | Loaded(seen: nat) | Over

  datatype Request = Request(customer: nat, kind: Kind, stage: Stage)

  /** `inCharge` maps every customer to the advisor in charge, 0 for nobody. */
  datatype State = State(inCharge: map<nat, nat>, requests: map<nat, Request>)

  datatype Action =
    | Arrive(req: nat, customer: nat, kind: Kind)
    | Read(req: nat)
    | Claim(req: nat, ok: bool)
    | Write(req: nat, ok: bool)

  function Put(s: State, r: nat, q: Request): State {
    s.(requests := s.requests[r := q])
  }

  predicate At(s: State, r: nat, stage: Stage) {
    r in s.requests && s.requests[r].stage == stage
  }

  /** After the row is read: a sender in charge may send, nobody in charge may be claimed, a form keeps its
      copy, and a lead assigns only a customer it saw unassigned. */
  function AfterRead(q: Request, seen: nat): Stage {
    match q.kind
    case Send(advisor) => if seen == advisor then Sending else if seen == 0 then Claiming else Over
    case Edit(_) => Loaded(seen)
    case Lead(_) => if seen == 0 then Loaded(seen) else Over
  }

  /** What an unconditional write puts into the column. */
  function Value(kind: Kind, seen: nat): nat {
    match kind
    case Send(advisor) => advisor
    case Edit(to) => if to != 0 then to else seen
    case Lead(best) => best
  }

  function Step(s: State, a: Action): State {
    match a
    case Arrive(r, customer, kind) =>
      if r in s.requests || kind == Send(0) then s else Put(s, r, Request(customer, kind, Arrived))
    case Read(r) =>
      if !At(s, r, Arrived) then s
      else
        var q := s.requests[r];
        Put(s, r, q.(stage := if q.customer in s.inCharge then AfterRead(q, s.inCharge[q.customer]) else Over))
    case Claim(r, ok) =>
      if !At(s, r, Claiming) then s
      else
        var q := s.requests[r];
        if ok && q.customer in s.inCharge && s.inCharge[q.customer] == 0 && q.kind.Send?
        then Put(s.(inCharge := s.inCharge[q.customer := q.kind.advisor]), r, q.(stage := Sending))
        else Put(s, r, q.(stage := Over))
    case Write(r, ok) =>
      if r !in s.requests || !s.requests[r].stage.Loaded? then s
      else
        var q := s.requests[r];
        var written := if ok && q.customer in s.inCharge
                       then s.(inCharge := s.inCharge[q.customer := Value(q.kind, q.stage.seen)]) else s;
        Put(written, r, q.(stage := Over))
  }

  function Run(s: State, actions: seq<Action>): State {
    if actions == [] then s else Step(Run(s, actions[..|actions| - 1]), actions[|actions| - 1])
  }

  /** The state before the k-th action of a schedule. */
  function Before(s: State, actions: seq<Action>, k: nat): State
    requires k <= |actions|
  {
    Run(s, actions[..k])
  }

  lemma Next(s: State, actions: seq<Action>, k: nat)
    requires k < |actions|
    ensures Before(s, actions, k + 1) == Step(Before(s, actions, k), actions[k])
  {
    assert actions[..k + 1][..k] == actions[..k];
  }

  function InCharge(s: State, c: nat): nat {
    if c in s.inCharge then s.inCharge[c] else 0
  }

  // ---------- what a single action may do to an assignment ----------

  /** The action is an unconditional write that puts somebody else, or nobody, in charge. */
  predicate Overwrites(s: State, a: Action, c: nat) {
    && a.Write? && a.ok && a.req in s.requests && s.requests[a.req].customer == c && c in s.inCharge
    && s.requests[a.req].stage.Loaded? && Value(s.requests[a.req].kind, s.requests[a.req].stage.seen) != s.inCharge[c]
  }

  predicate ClaimsNow(s: State, a: Action, c: nat) {
    && a.Claim? && a.ok && At(s, a.req, Claiming) && s.requests[a.req].customer == c
    && c in s.inCharge && s.inCharge[c] == 0
  }

  /** With this action a request of the advisor passes the ownership check on the customer. */
  predicate Passes(s: State, a: Action, advisor: nat, c: nat) {
    && !a.Arrive? && a.req in s.requests && s.requests[a.req].customer == c && s.requests[a.req].kind == Send(advisor)
    && s.requests[a.req].stage != Sending && At(Step(s, a), a.req, Sending)
  }

  // ---------- whole schedules ----------

  /** An advisor who is no longer in charge has been overwritten. */
  lemma {:induction false} Unseated(s: State, actions: seq<Action>, i: nat, j: nat, c: nat) returns (k: nat)
    requires i <= j <= |actions|
    requires InCharge(Before(s, actions, i), c) != 0
    requires InCharge(Before(s, actions, j), c) != InCharge(Before(s, actions, i), c)
    ensures i <= k < j && Overwrites(Before(s, actions, k), actions[k], c)
    ensures InCharge(Before(s, actions, k), c) == InCharge(Before(s, actions, i), c)
    decreases j
  {
    Next(s, actions, j - 1);
    k := j - 1;
    if InCharge(Before(s, actions, j - 1), c) != InCharge(Before(s, actions, i), c) {
      k := Unseated(s, actions, i, j - 1, c);
    }
  }

  /** A customer who had an advisor and has none has been overwritten with nobody. */
  lemma {:induction false} Vacated(s: State, actions: seq<Action>, i: nat, j: nat, c: nat) returns (k: nat)
    requires i <= j <= |actions|
    requires InCharge(Before(s, actions, i), c) != 0 == InCharge(Before(s, actions, j), c)
    ensures i <= k < j && Overwrites(Before(s, actions, k), actions[k], c)
    ensures InCharge(Before(s, actions, k + 1), c) == 0
    decreases j
  {
    Next(s, actions, j - 1);
    k := j - 1;
    if InCharge(Before(s, actions, j - 1), c) == 0 {
      k := Vacated(s, actions, i, j - 1, c);
    }
  }

  /** From wherever a customer has an advisor: the advisor stays exactly as long as no unconditional write
      names somebody else. No claim and no send ever takes a customer away. */
  lemma OneAdvisorIff(s: State, actions: seq<Action>, i: nat, c: nat)
    requires i <= |actions| && InCharge(Before(s, actions, i), c) != 0
    ensures (forall j :: i <= j <= |actions| ==> InCharge(Before(s, actions, j), c) == InCharge(Before(s, actions, i), c))
      <==> (forall k :: i <= k < |actions| ==> !Overwrites(Before(s, actions, k), actions[k], c))
  {
    if j :| i <= j <= |actions| && InCharge(Before(s, actions, j), c) != InCharge(Before(s, actions, i), c) {
      var k := Unseated(s, actions, i, j, c);
    }
    if k :| i <= k < |actions| && Overwrites(Before(s, actions, k), actions[k], c) {
      Next(s, actions, k);
      assert InCharge(Before(s, actions, k + 1), c) != InCharge(Before(s, actions, k), c);
    }
  }

  /** No requests yet, and any assignment. */
  function Start(inCharge: map<nat, nat>): State {
    State(inCharge, map[])
  }

  predicate RequestOk(q: Request) {
    q.kind != Send(0) && (q.stage == Claiming || q.stage == Sending ==> q.kind.Send?)
  }

  ghost predicate AllOk(s: State) {
    forall r :: r in s.requests ==> RequestOk(s.requests[r])
  }

  lemma StepOk(s: State, a: Action)
    requires AllOk(s)
    ensures AllOk(Step(s, a))
  {
    assert a.req in s.requests ==> RequestOk(s.requests[a.req]);
    assert a.req in Step(s, a).requests ==> RequestOk(Step(s, a).requests[a.req]);
  }

  lemma {:induction false} RequestsOk(inCharge: map<nat, nat>, actions: seq<Action>)
    ensures AllOk(Run(Start(inCharge), actions))
  {
    if actions != [] {
      RequestsOk(inCharge, actions[..|actions| - 1]);
      StepOk(Run(Start(inCharge), actions[..|actions| - 1]), actions[|actions| - 1]);
    }
  }

  /** Between two claims of one customer somebody wrote that nobody is in charge. */
  lemma TwoClaims(inCharge: map<nat, nat>, actions: seq<Action>, i: nat, j: nat, c: nat) returns (k: nat)
    requires i < j < |actions|
    requires ClaimsNow(Before(Start(inCharge), actions, i), actions[i], c)
    requires ClaimsNow(Before(Start(inCharge), actions, j), actions[j], c)
    ensures i < k < j && Overwrites(Before(Start(inCharge), actions, k), actions[k], c)
    ensures InCharge(Before(Start(inCharge), actions, k + 1), c) == 0
  {
    RequestsOk(inCharge, actions[..i]);
    Next(Start(inCharge), actions, i);
    k := Vacated(Start(inCharge), actions, i + 1, j, c);
  }

  /** Whoever passes the check is in charge at that moment. */
  lemma PassesInCharge(inCharge: map<nat, nat>, actions: seq<Action>, i: nat, advisor: nat, c: nat)
    requires i < |actions| && Passes(Before(Start(inCharge), actions, i), actions[i], advisor, c)
    ensures InCharge(Before(Start(inCharge), actions, i + 1), c) == advisor != 0
  {
    RequestsOk(inCharge, actions[..i]);
    Next(Start(inCharge), actions, i);
  }

  /** Everybody who gets to send to a customer was its advisor when passing the check. */
  lemma {:induction false} SenderWasInCharge(inCharge: map<nat, nat>, actions: seq<Action>, r: nat) returns (i: nat)
    requires At(Run(Start(inCharge), actions), r, Sending)
    ensures var q := Run(Start(inCharge), actions).requests[r];
            && q.kind.Send? && i < |actions|
            && Passes(Before(Start(inCharge), actions, i), actions[i], q.kind.advisor, q.customer)
            && InCharge(Before(Start(inCharge), actions, i + 1), q.customer) == q.kind.advisor != 0
  {
    var n := |actions| - 1;
    RequestsOk(inCharge, actions);
    var q := Run(Start(inCharge), actions).requests[r];
    if At(Run(Start(inCharge), actions[..n]), r, Sending) {
      i := SenderWasInCharge(inCharge, actions[..n], r);
      assert actions[..n][..i] == actions[..i] && actions[..n][..i + 1] == actions[..i + 1];
    } else {
      i := n;
      assert actions[..n + 1] == actions;
      StartsSending(Run(Start(inCharge), actions[..n]), actions[n], r);
      PassesInCharge(inCharge, actions, n, q.kind.advisor, q.customer);
    }
  }

  lemma StartsSending(s: State, a: Action, r: nat)
    requires !At(s, r, Sending) && At(Step(s, a), r, Sending) && Step(s, a).requests[r].kind.Send?
    ensures a.req == r && Passes(s, a, Step(s, a).requests[r].kind.advisor, Step(s, a).requests[r].customer)
  {
  }

  /** Two advisors pass the check on one customer only with an unconditional write in between that takes it
      away from the first. */
  lemma TwoAdvisors(inCharge: map<nat, nat>, actions: seq<Action>, i: nat, j: nat, first: nat, second: nat, c: nat)
    returns (k: nat)
    requires i < j < |actions| && first != second
    requires Passes(Before(Start(inCharge), actions, i), actions[i], first, c)
    requires Passes(Before(Start(inCharge), actions, j), actions[j], second, c)
    ensures i < k < j && Overwrites(Before(Start(inCharge), actions, k), actions[k], c)
    ensures InCharge(Before(Start(inCharge), actions, k), c) == first
  {
    PassesInCharge(inCharge, actions, i, first, c);
    PassesInCharge(inCharge, actions, j, second, c);
    k := Unseated(Start(inCharge), actions, i + 1, j + 1, c);
  }

  // ---------- the customer form ----------

  predicate Leaves(actions: seq<Action>, r: nat) {
    forall k :: 0 <= k < |actions| ==> actions[k].req != r
  }

  lemma {:induction false} LeavesAlone(s: State, actions: seq<Action>, r: nat)
    requires r in s.requests && Leaves(actions, r)
    ensures r in Run(s, actions).requests && Run(s, actions).requests[r] == s.requests[r]
    ensures forall c :: c in Run(s, actions).inCharge <==> c in s.inCharge
  {
    if actions != [] {
      LeavesAlone(s, actions[..|actions| - 1], r);
    }
  }

  /** A form that names no advisor writes back the one it read, whatever happened in between: it leaves the
      customer alone exactly when the advisor is the same again as when the form was opened. */
  lemma FormKeepsIff(s: State, between: seq<Action>, r: nat)
    requires At(s, r, Arrived) && s.requests[r].kind == Edit(0) && s.requests[r].customer in s.inCharge
    requires Leaves(between, r)
    ensures var c := s.requests[r].customer;
            var before := Run(Step(s, Read(r)), between);
            var after := Step(before, Write(r, true));
            InCharge(after, c) == InCharge(s, c)
            && (InCharge(after, c) == InCharge(before, c) <==> InCharge(before, c) == InCharge(s, c))
  {
    LeavesAlone(Step(s, Read(r)), between, r);
  }

  /** One more action of a schedule that has led to a known state. */
  lemma Then(start: State, actions: seq<Action>, s: State, a: Action) returns (longer: seq<Action>, s': State)
    requires Run(start, actions) == s
    ensures s' == Step(s, a) && Run(start, longer) == s'
  {
    longer, s' := actions + [a], Step(s, a);
    assert longer[..|actions|] == actions;
  }

  /** On a customer nobody is in charge of, a send that is not disturbed claims it. */
  lemma ThenClaims(start: State, actions: seq<Action>, s: State, r: nat, advisor: nat, c: nat)
    returns (longer: seq<Action>, s': State)
    requires Run(start, actions) == s && advisor != 0 && r !in s.requests && c in s.inCharge && s.inCharge[c] == 0
    ensures Run(start, longer) == s'
    ensures s' == State(s.inCharge[c := advisor], s.requests[r := Request(c, Send(advisor), Sending)])
  {
    longer, s' := Then(start, actions, s, Arrive(r, c, Send(advisor)));
    longer, s' := Then(start, longer, s', Read(r));
    longer, s' := Then(start, longer, s', Claim(r, true));
  }

  lemma FormOpened(start: State, c: nat) returns (actions: seq<Action>, s: State)
    requires c in start.inCharge && 0 !in start.requests
    ensures Run(start, actions) == s
    ensures s == State(start.inCharge, start.requests[0 := Request(c, Edit(0), Loaded(start.inCharge[c]))])
  {
    actions, s := [], start;
    actions, s := Then(start, actions, s, Arrive(0, c, Edit(0)));
    actions, s := Then(start, actions, s, Read(0));
  }

  lemma FormSaved(start: State, actions: seq<Action>, s: State, c: nat, seen: nat) returns (longer: seq<Action>, s': State)
    requires Run(start, actions) == s && 0 in s.requests && s.requests[0] == Request(c, Edit(0), Loaded(seen)) && c in s.inCharge
    ensures Run(start, longer) == s'
    ensures s' == State(s.inCharge[c := seen], s.requests[0 := Request(c, Edit(0), Over)])
  {
    longer, s' := Then(start, actions, s, Write(0, true));
  }

  /** A schedule that takes a customer away from the advisor who has just claimed it: the form is opened on an
      unassigned customer (request 0), an advisor claims it and sends (1), the form is saved, and another
      advisor claims it and sends (2). */
  lemma StaleForm(start: State, c: nat) returns (actions: seq<Action>)
    requires start == Start(map[c := 0])
    ensures var s := Run(start, actions);
            && s.inCharge == map[c := 12]
            && At(s, 1, Sending) && s.requests[1] == Request(c, Send(11), Sending)
            && At(s, 2, Sending) && s.requests[2] == Request(c, Send(12), Sending)
  {
    var s;
    actions, s := FormOpened(start, c);
    actions, s := ThenClaims(start, actions, s, 1, 11, c);
    actions, s := FormSaved(start, actions, s, c, 0);
    actions, s := ThenClaims(start, actions, s, 2, 12, c);
  }

  // ---------- what the other writers do ----------

  /** A form that names an advisor puts that one in charge, and one that names nobody the one it read; a detected
      lead puts its choice in charge of a customer it read unassigned, and leaves any other alone. */
  lemma WritesMean(s: State, between: seq<Action>, r: nat)
    requires At(s, r, Arrived) && !s.requests[r].kind.Send? && s.requests[r].customer in s.inCharge
    requires Leaves(between, r)
    ensures var c, read := s.requests[r].customer, s.inCharge[s.requests[r].customer];
            var before := Run(Step(s, Read(r)), between);
            var after := Step(before, Write(r, true));
            InCharge(after, c) ==
              match s.requests[r].kind
              case Edit(to) => if to != 0 then to else read
              case Lead(best) => if read == 0 then best else InCharge(before, c)
              case Send(_) => 0
  {
    LeavesAlone(Step(s, Read(r)), between, r);
  }

  /** On its own an advisor's send goes through to a customer of its own or of nobody's, whom it claims, and is
      turned away from anybody else's. */
  lemma SendAlone(s: State, r: nat, advisor: nat, c: nat)
    requires r !in s.requests && advisor != 0 && c in s.inCharge
    ensures var end := Step(Step(Step(s, Arrive(r, c, Send(advisor))), Read(r)), Claim(r, true));
            if s.inCharge[c] == 0 || s.inCharge[c] == advisor
            then At(end, r, Sending) && end.inCharge == s.inCharge[c := advisor]
            else At(end, r, Over) && end.inCharge == s.inCharge
  {
    assert s.inCharge[c] == advisor ==> s.inCharge[c := advisor] == s.inCharge;
  }
}
