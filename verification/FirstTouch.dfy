/**
 Which acquisition code a customer came by. Each request is a sequence of separate statements on shared
 rows; schedules interleave any number of them, and any statement may fail in the database without effect.
 */
module FirstTouch {
  import opened Common
  import opened Text
  import opened AcquisitionPolicy

  datatype CodeRow = CodeRow(tenant: nat, active: bool, channel: string)

  datatype Customer = Customer(tenant: nat, code: string, source: string)

  datatype Stage =
    | Arrived
    | Resolved(read: Option<CodeRow>) // the code row as it was read
    | Updating(row: CodeRow)          // decided to apply
    | Done(reason: Reason)

  /** `code` is the text normalised, which is the first thing the handler does. */
  datatype Request = Request(tenant: nat, customer: nat, raw: string, code: string, stage: Stage)

  datatype State = State(codes: map<string, CodeRow>, customers: map<nat, Customer>, requests: map<nat, Request>)

  const START := State(map[], map[], map[])

  datatype Action =
    | CreateCode(code: string, row: CodeRow)
    | SetCodeStatus(code: string, active: bool)
    | CreateCustomer(id: nat, tenant: nat, source: string)
    | Arrive(req: nat, tenant: nat, customer: nat, raw: string)
    | Resolve(req: nat, ok: bool)
    | Decide(req: nat, ok: bool)
    | Update(req: nat, ok: bool)

  function Put(s: State, r: nat, q: Request, stage: Stage): State {
    s.(requests := s.requests[r := q.(stage := stage)])
  }

  predicate AlreadySet(s: State, q: Request) {
    q.customer > 0 && q.customer in s.customers && Trim(s.customers[q.customer].code) != ""
  }

  /** UPDATE customers SET acquisition_code, source WHERE id AND tenant_id AND acquisition_code = '' */
  predicate UpdateHits(s: State, q: Request) {
    q.customer in s.customers && s.customers[q.customer].tenant == q.tenant && s.customers[q.customer].code == ""
  }

  function Step(s: State, a: Action): State {
    match a
    case CreateCode(code, row) =>
      if code in s.codes || !WellFormedCode(code) then s else s.(codes := s.codes[code := row])
    case SetCodeStatus(code, active) =>
      if code !in s.codes then s else s.(codes := s.codes[code := s.codes[code].(active := active)])
    case CreateCustomer(id, tenant, source) =>
      if id in s.customers then s else s.(customers := s.customers[id := Customer(tenant, "", source)])
    case Arrive(r, tenant, customer, raw) =>
      if r in s.requests then s else s.(requests := s.requests[r := Request(tenant, customer, raw, NormalizeCode(raw), Arrived)])
    case Resolve(r, ok) => if r in s.requests && s.requests[r].stage.Arrived? then ResolveStep(s, r, s.requests[r], ok) else s
    case Decide(r, ok) => if r in s.requests && s.requests[r].stage.Resolved? then DecideStep(s, r, s.requests[r], ok && AlreadySet(s, s.requests[r])) else s
    case Update(r, ok) => if r in s.requests && s.requests[r].stage.Updating? then UpdateStep(s, r, s.requests[r], ok) else s
  }

  /** Malformed input is turned away before any query. */
  function ResolveStep(s: State, r: nat, q: Request, ok: bool): State {
    if q.code == "" then Put(s, r, q, Done(DecideApply(q.raw, false, false, 0, q.tenant, false)))
    else if !ok then Put(s, r, q, Done(StorageError))
    else Put(s, r, q, Resolved(if q.code in s.codes then Some(s.codes[q.code]) else None))
  }

  /** The decision, taken on the snapshot of the code row and of the customer's column; a failed read of the
      column looks like an empty one. */
  function DecideStep(s: State, r: nat, q: Request, already: bool): State
    requires q.stage.Resolved?
  {
    match q.stage.read
    case None => Put(s, r, q, Done(DecideApply(q.raw, false, false, 0, q.tenant, false)))
    case Some(row) =>
      var reason := DecideApply(q.raw, true, row.active, row.tenant, q.tenant, already);
      Put(s, r, q, if reason == Applied then Updating(row) else Done(reason))
  }

  function UpdateStep(s: State, r: nat, q: Request, ok: bool): State
    requires q.stage.Updating?
  {
    if !ok then Put(s, r, q, Done(StorageError))
    else if !UpdateHits(s, q) then Put(s, r, q, Done(AlreadyAttributed))
    else
      var customer := s.customers[q.customer].(code := q.code, source := q.stage.row.channel);
      Put(s.(customers := s.customers[q.customer := customer]), r, q, Done(Applied))
  }

  function Run(s: State, actions: seq<Action>): State
    decreases |actions|
  {
    if actions == [] then s else Run(Step(s, actions[0]), actions[1..])
  }

  predicate WonBy(s: State, r: nat, customer: nat) {
    r in s.requests && s.requests[r].customer == customer && s.requests[r].stage == Done(Applied)
  }

  /** A customer has a code exactly when one request reports Applied for it; that request brought the
      code, and the code belongs to the customer's own tenant. */
  ghost predicate CustomerOk(s: State, c: nat)
    requires c in s.customers
  {
    var code := s.customers[c].code;
    && (code != "" ==> code in s.codes && s.codes[code].tenant == s.customers[c].tenant != 0)
    && (code != "" <==> exists r :: WonBy(s, r, c))
    && (forall r :: WonBy(s, r, c) ==> s.requests[r].code == code)
    && (forall r, t :: WonBy(s, r, c) && WonBy(s, t, c) ==> r == t)
  }

  /** A snapshot of a code row stays right about the tenant, which never changes. */
  ghost predicate SnapshotOk(s: State, q: Request) {
    match q.stage
    case Resolved(Some(row)) => q.code != "" && q.code in s.codes && s.codes[q.code].tenant == row.tenant
    case Updating(row) => q.code != "" && q.code in s.codes && s.codes[q.code].tenant == row.tenant == q.tenant != 0
    case Done(reason) => reason == Applied ==> q.customer in s.customers
    case _ => true
  }

  ghost predicate Inv(s: State) {
    && (forall c :: c in s.customers ==> CustomerOk(s, c))
    && (forall r :: r in s.requests ==> SnapshotOk(s, s.requests[r]))
  }

  /** Request r goes from `q` to `q'`; if it reports Applied it has just filled the customer's empty code. */
  ghost predicate Move(s: State, s': State, r: nat, q: Request, q': Request) {
    && s' == State(s.codes, s'.customers, s.requests[r := q'])
    && q' == q.(stage := q'.stage) && q.stage != Done(Applied) && SnapshotOk(s', q')
    && if q'.stage == Done(Applied)
       then q.stage.Updating? && UpdateHits(s, q) && s'.customers ==
              s.customers[q.customer := s.customers[q.customer].(code := q.code, source := q.stage.row.channel)]
       else s'.customers == s.customers
  }

  lemma HandleMoves(s: State, a: Action)
    requires Handled(a) && a.req in s.requests && SnapshotOk(s, s.requests[a.req])
    ensures Step(s, a) == s || Move(s, Step(s, a), a.req, s.requests[a.req], Step(s, a).requests[a.req])
  {
    match a
    case Resolve(r, ok) => if s.requests[r].stage.Arrived? { ResolveMoves(s, r, s.requests[r], ok); }
    case Decide(r, ok) => if s.requests[r].stage.Resolved? { DecideMoves(s, r, s.requests[r], ok && AlreadySet(s, s.requests[r])); }
    case Update(r, ok) => if s.requests[r].stage.Updating? { UpdateMoves(s, r, s.requests[r], ok); }
  }

  lemma ResolveMoves(s: State, r: nat, q: Request, ok: bool)
    requires q.stage.Arrived?
    ensures Move(s, ResolveStep(s, r, q, ok), r, q, ResolveStep(s, r, q, ok).requests[r])
  {
  }

  lemma DecideMoves(s: State, r: nat, q: Request, already: bool)
    requires q.stage.Resolved? && SnapshotOk(s, q)
    ensures Move(s, DecideStep(s, r, q, already), r, q, DecideStep(s, r, q, already).requests[r])
  {
  }

  lemma UpdateMoves(s: State, r: nat, q: Request, ok: bool)
    requires q.stage.Updating? && SnapshotOk(s, q)
    ensures Move(s, UpdateStep(s, r, q, ok), r, q, UpdateStep(s, r, q, ok).requests[r])
  {
  }

  /** The requests that report Applied for a customer after a move. */
  lemma MoveWins(s: State, s': State, r: nat, q: Request, q': Request, c: nat)
    requires Move(s, s', r, q, q') && r in s.requests && s.requests[r] == q
    ensures forall t :: WonBy(s', t, c) <==> (WonBy(s, t, c) || (t == r && q'.stage == Done(Applied) && c == q.customer))
    ensures forall t :: WonBy(s, t, c) ==> t in s'.requests && s'.requests[t] == s.requests[t]
  {
  }

  lemma CustomerStays(s: State, s': State, c: nat)
    requires c in s.customers && CustomerOk(s, c) && c in s'.customers && s'.customers[c] == s.customers[c]
    requires s'.codes == s.codes && forall t :: WonBy(s', t, c) <==> WonBy(s, t, c)
    requires forall t :: WonBy(s, t, c) ==> t in s'.requests && s'.requests[t] == s.requests[t]
    ensures CustomerOk(s', c)
  {
  }

  lemma CustomerFilled(s: State, s': State, r: nat, c: nat, code: string)
    requires c in s.customers && CustomerOk(s, c) && s.customers[c].code == "" && s'.codes == s.codes
    requires c in s'.customers && s'.customers[c].code == code != ""
    requires code in s.codes && s.codes[code].tenant == s'.customers[c].tenant != 0
    requires WonBy(s', r, c) && s'.requests[r].code == code
    requires forall t :: WonBy(s', t, c) ==> t == r || WonBy(s, t, c)
    ensures CustomerOk(s', c)
  {
  }

  lemma MoveCustomer(s: State, s': State, r: nat, q: Request, q': Request, c: nat)
    requires Move(s, s', r, q, q') && r in s.requests && s.requests[r] == q && SnapshotOk(s, q)
    requires c in s.customers && CustomerOk(s, c)
    ensures CustomerOk(s', c)
  {
    MoveWins(s, s', r, q, q', c);
    if q'.stage == Done(Applied) && c == q.customer {
      CustomerFilled(s, s', r, c, q.code);
    } else {
      CustomerStays(s, s', c);
    }
  }

  lemma MoveKeeps(s: State, s': State, r: nat, q: Request, q': Request)
    requires Move(s, s', r, q, q') && r in s.requests && s.requests[r] == q && Inv(s)
    ensures Inv(s')
  {
    forall c | c in s'.customers ensures CustomerOk(s', c) {
      MoveCustomer(s, s', r, q, q', c);
    }
    forall t | t in s'.requests ensures SnapshotOk(s', s'.requests[t]) {
      assert t != r ==> SnapshotOk(s, s.requests[t]);
    }
  }

  /** Code rows may be added and switched on or off; no customer or request changes with them. */
  lemma CodesKeep(s: State, s': State)
    requires Inv(s) && s' == s.(codes := s'.codes)
    requires forall code :: code in s.codes ==> code in s'.codes && s'.codes[code].tenant == s.codes[code].tenant
    ensures Inv(s')
  {
    forall c | c in s'.customers ensures CustomerOk(s', c) {
      assert CustomerOk(s, c);
      assert forall t :: WonBy(s', t, c) <==> WonBy(s, t, c);
    }
    forall t | t in s'.requests ensures SnapshotOk(s', s'.requests[t]) {
      assert SnapshotOk(s, s.requests[t]);
    }
  }

  lemma CustomerKeeps(s: State, id: nat, tenant: nat, source: string)
    requires Inv(s) && id !in s.customers
    ensures Inv(Step(s, CreateCustomer(id, tenant, source)))
  {
    var s' := Step(s, CreateCustomer(id, tenant, source));
    assert forall t, c :: WonBy(s', t, c) <==> WonBy(s, t, c);
    forall t ensures !WonBy(s, t, id) {
      assert t in s.requests ==> SnapshotOk(s, s.requests[t]);
    }
    forall c | c in s'.customers ensures CustomerOk(s', c) {
      assert c != id ==> CustomerOk(s, c);
    }
    forall t | t in s'.requests ensures SnapshotOk(s', s'.requests[t]) {
      assert SnapshotOk(s, s.requests[t]);
    }
  }

  lemma ArriveKeeps(s: State, r: nat, tenant: nat, customer: nat, raw: string)
    requires Inv(s) && r !in s.requests
    ensures Inv(Step(s, Arrive(r, tenant, customer, raw)))
  {
    var s' := Step(s, Arrive(r, tenant, customer, raw));
    assert forall t, c :: WonBy(s', t, c) <==> WonBy(s, t, c);
    forall c | c in s'.customers ensures CustomerOk(s', c) {
      assert CustomerOk(s, c);
    }
    forall t | t in s'.requests ensures SnapshotOk(s', s'.requests[t]) {
      assert t != r ==> SnapshotOk(s, s.requests[t]);
    }
  }

  lemma StepKeeps(s: State, a: Action)
    requires Inv(s)
    ensures Inv(Step(s, a))
  {
    match a
    case CreateCode(code, row) => CodesKeep(s, Step(s, a));
    case SetCodeStatus(code, active) => CodesKeep(s, Step(s, a));
    case CreateCustomer(id, tenant, source) =>
      if id !in s.customers { CustomerKeeps(s, id, tenant, source); }
    case Arrive(r, tenant, customer, raw) =>
      if r !in s.requests { ArriveKeeps(s, r, tenant, customer, raw); }
    case _ =>
      if a.req in s.requests {
        HandleMoves(s, a);
        if Step(s, a) != s { MoveKeeps(s, Step(s, a), a.req, s.requests[a.req], Step(s, a).requests[a.req]); }
      }
  }

  /** A code, once given, is never replaced, and an empty one is only filled by the step that reports it. */
  lemma StepSticky(s: State, a: Action, c: nat)
    requires c in s.customers
    ensures var s' := Step(s, a);
            c in s'.customers && s'.customers[c].tenant == s.customers[c].tenant
            && (s.customers[c].code != "" ==> s'.customers[c] == s.customers[c])
  {
  }

  lemma {:induction false} RunKeeps(s: State, actions: seq<Action>)
    requires Inv(s)
    ensures Inv(Run(s, actions))
    ensures forall c :: c in s.customers && s.customers[c].code != "" ==>
      c in Run(s, actions).customers && Run(s, actions).customers[c] == s.customers[c]
    decreases |actions|
  {
    if actions != [] {
      StepKeeps(s, actions[0]);
      forall c | c in s.customers && s.customers[c].code != ""
        ensures c in Step(s, actions[0]).customers && Step(s, actions[0]).customers[c] == s.customers[c]
      {
        StepSticky(s, actions[0], c);
      }
      RunKeeps(Step(s, actions[0]), actions[1..]);
    }
  }

  ghost predicate CodesNormal(s: State) {
    forall r :: r in s.requests ==> s.requests[r].code == NormalizeCode(s.requests[r].raw)
  }

  lemma {:induction false} RunNormal(s: State, actions: seq<Action>)
    requires Inv(s) && CodesNormal(s)
    ensures CodesNormal(Run(s, actions))
    decreases |actions|
  {
    if actions != [] {
      StepKeeps(s, actions[0]);
      StepNormal(s, actions[0], Step(s, actions[0]));
      RunNormal(Step(s, actions[0]), actions[1..]);
    }
  }

  predicate Handled(a: Action) {
    a.Resolve? || a.Decide? || a.Update?
  }

  lemma StepNormal(s: State, a: Action, s': State)
    requires Inv(s) && CodesNormal(s) && s' == Step(s, a)
    ensures CodesNormal(s')
  {
    if !Handled(a) {
      OtherNormal(s, a);
    } else if a.req in s.requests {
      HandleMoves(s, a);
      if s' != s {
        MoveNormal(s, s', a.req, s.requests[a.req], s'.requests[a.req]);
      }
    }
  }

  lemma OtherNormal(s: State, a: Action)
    requires CodesNormal(s) && !Handled(a)
    ensures CodesNormal(Step(s, a))
  {
  }

  lemma MoveNormal(s: State, s': State, r: nat, q: Request, q': Request)
    requires Move(s, s', r, q, q') && r in s.requests && s.requests[r] == q && CodesNormal(s)
    ensures CodesNormal(s')
  {
  }

  /** Over every schedule: a customer's code is set exactly when exactly one request reported Applied for
      it, is that request's text normalised and of the customer's tenant, and from then on never changes. */
  lemma FirstTouchWins(past: seq<Action>, future: seq<Action>, c: nat)
    requires c in Run(START, past).customers
    ensures CustomerOk(Run(START, past), c)
    ensures var s := Run(START, past);
            forall r :: WonBy(s, r, c) ==> s.customers[c].code == NormalizeCode(s.requests[r].raw)
    ensures var s, s' := Run(START, past), Run(Run(START, past), future);
            s.customers[c].code != "" ==> c in s'.customers && s'.customers[c] == s.customers[c]
  {
    RunKeeps(START, past);
    RunKeeps(Run(START, past), future);
    RunNormal(START, past);
  }

  // ---------- an undisturbed request ----------

  /** A request on its own, every statement succeeding; the steps that do not apply do nothing. */
  function Alone(s: State, r: nat, tenant: nat, customer: nat, raw: string): State {
    Step(Step(Step(Step(s, Arrive(r, tenant, customer, raw)), Resolve(r, true)), Decide(r, true)), Update(r, true))
  }

  /** The code exists, is active, and belongs to the tenant of the request, whose customer has none yet. */
  predicate Attributable(s: State, tenant: nat, customer: nat, code: string) {
    && code != "" && code in s.codes && s.codes[code].active && s.codes[code].tenant == tenant != 0
    && customer in s.customers && s.customers[customer].tenant == tenant && s.customers[customer].code == ""
  }

  /** On its own such a request is applied, and the customer gets the code with its channel as the source. */
  lemma AloneIsApplied(s: State, r: nat, tenant: nat, customer: nat, raw: string)
    requires r !in s.requests && Attributable(s, tenant, customer, NormalizeCode(raw))
    ensures var code, end := NormalizeCode(raw), Alone(s, r, tenant, customer, raw);
            && WonBy(end, r, customer) && end.codes == s.codes
            && end.customers == s.customers[customer := Customer(tenant, code, s.codes[code].channel)]
  {
    var code := NormalizeCode(raw);
    var arrived := Step(s, Arrive(r, tenant, customer, raw));
    var resolved := Step(arrived, Resolve(r, true));
    AloneResolves(arrived, r, s.codes[code]);
    assert Trim("") == "";
    Approved(raw, s.codes[code], tenant);
    DecidesOnSnapshot(resolved, r);
    ApprovedGoesOn(resolved, r, resolved.requests[r], s.codes[code]);
    AloneUpdates(Put(resolved, r, resolved.requests[r], Updating(s.codes[code])), r, s.codes[code]);
  }

  lemma AloneResolves(s: State, r: nat, row: CodeRow)
    requires r in s.requests && s.requests[r].stage == Arrived
    requires var code := s.requests[r].code; code != "" && code in s.codes && s.codes[code] == row
    ensures Step(s, Resolve(r, true)) == Put(s, r, s.requests[r], Resolved(Some(row)))
  {
  }

  lemma Approved(raw: string, row: CodeRow, tenant: nat)
    requires NormalizeCode(raw) != "" && row.active && row.tenant == tenant != 0
    ensures DecideApply(raw, true, row.active, row.tenant, tenant, false) == Applied
  {
  }

  lemma DecidesOnSnapshot(s: State, r: nat)
    requires r in s.requests && s.requests[r].stage.Resolved?
    ensures Step(s, Decide(r, true)) == DecideStep(s, r, s.requests[r], AlreadySet(s, s.requests[r]))
  {
  }

  lemma ApprovedGoesOn(s: State, r: nat, q: Request, row: CodeRow)
    requires q.stage == Resolved(Some(row))
    requires DecideApply(q.raw, true, row.active, row.tenant, q.tenant, false) == Applied
    ensures DecideStep(s, r, q, false) == Put(s, r, q, Updating(row))
  {
  }

  lemma AloneUpdates(s: State, r: nat, row: CodeRow)
    requires r in s.requests && s.requests[r].stage == Updating(row)
    requires var q := s.requests[r];
             q.customer in s.customers && s.customers[q.customer].tenant == q.tenant && s.customers[q.customer].code == ""
    ensures var q, end := s.requests[r], Step(s, Update(r, true));
            && end.requests == s.requests[r := q.(stage := Done(Applied))] && end.codes == s.codes
            && end.customers == s.customers[q.customer := Customer(q.tenant, q.code, row.channel)]
  {
  }
}
