/**
 The free package a tenant may take once: each request is a transaction of separate statements, any of
 which may fail and roll it back, and schedules interleave any number of them.
 */
module FreePackage {

  /** The unique index on reward claims: one free package for one tenant. */
  datatype Key = Key(tenant: nat, package: nat)

  datatype Stage = Arrived | Inserted | Granted | Committed | Conflict | RolledBack

  datatype Request = Request(key: Key, stage: Stage)

  /** Committed claim rows and grants, and the transactions holding an uncommitted claim row, by key. */
  datatype State = State(claims: set<Key>, grants: multiset<Key>, open: map<Key, nat>, requests: map<nat, Request>)

  const START := State({}, multiset{}, map[], map[])

  datatype Action =
    | Arrive(req: nat, key: Key)
    | Insert(req: nat, ok: bool)
    | Grant(req: nat, ok: bool)
    | Commit(req: nat, ok: bool)

  function Put(s: State, r: nat, key: Key, stage: Stage): State {
    s.(requests := s.requests[r := Request(key, stage)])
  }

  function RollBack(s: State, r: nat, key: Key): State {
    Put(s.(open := s.open - {key}), r, key, RolledBack)
  }

  /** The statements of the transaction. An insert waits, doing nothing, while another transaction holds
      the key; a conflict ends the transaction without a grant; claim row and grant commit together. */
  function Step(s: State, a: Action): State {
    match a
    case Arrive(r, key) => if r in s.requests then s else Put(s, r, key, Arrived)
    case _ =>
      if a.req !in s.requests then s
      else
        var r, key := a.req, s.requests[a.req].key;
        match (a, s.requests[r].stage)
        case (Insert(_, ok), Arrived) =>
          if !ok then Put(s, r, key, RolledBack)
          else if key in s.open then s
          else if key in s.claims then Put(s, r, key, Conflict)
          else Put(s.(open := s.open[key := r]), r, key, Inserted)
        case (Grant(_, ok), Inserted) => if ok then Put(s, r, key, Granted) else RollBack(s, r, key)
        case (Commit(_, ok), Granted) =>
          if ok then Put(State(s.claims + {key}, s.grants + multiset{key}, s.open - {key}, s.requests), r, key, Committed)
          else RollBack(s, r, key)
        case _ => s
  }

  function Run(s: State, actions: seq<Action>): State
    decreases |actions|
  {
    if actions == [] then s else Run(Step(s, actions[0]), actions[1..])
  }

  predicate Has(s: State, r: nat, key: Key, stage: Stage) {
    r in s.requests && s.requests[r] == Request(key, stage)
  }

  predicate Holds(s: State, r: nat, key: Key) {
    Has(s, r, key, Inserted) || Has(s, r, key, Granted)
  }

  /** One grant for the claim row, made by the one request that committed; and while a transaction holds
      the key there is no claim row yet. */
  ghost predicate KeyOk(s: State, key: Key) {
    && s.grants[key] == (if key in s.claims then 1 else 0)
    && (key in s.open ==> key !in s.claims)
    && (forall r :: Holds(s, r, key) <==> key in s.open && s.open[key] == r)
    && (key in s.claims <==> exists r :: Has(s, r, key, Committed))
    && (forall r, t :: Has(s, r, key, Committed) && Has(s, t, key, Committed) ==> r == t)
  }

  ghost predicate Inv(s: State) {
    forall key :: KeyOk(s, key)
  }

  /** Request r leaves the key's transaction unopened, opens it, or closes it with or without a commit. */
  ghost predicate Move(s: State, s': State, r: nat, key: Key, before: Stage, after: Stage) {
    && s'.requests == s.requests[r := Request(key, after)] && before != Committed
    && if after == Committed
       then before == Granted && s'.claims == s.claims + {key} && s'.grants == s.grants + multiset{key} && s'.open == s.open - {key}
       else
         && s'.claims == s.claims && s'.grants == s.grants
         && if after == Inserted then !before.Granted? && key !in s.open && key !in s.claims && s'.open == s.open[key := r]
            else if before == Inserted && after == Granted then s'.open == s.open
            else after != Granted && s'.open == if before.Inserted? || before.Granted? then s.open - {key} else s.open
  }

  lemma StepMoves(s: State, a: Action)
    ensures var s' := Step(s, a);
            s' == s || (a.req in s'.requests && (a.req in s.requests ==> s'.requests[a.req].key == s.requests[a.req].key)
              && Move(s, s', a.req, s'.requests[a.req].key, if a.req in s.requests then s.requests[a.req].stage else Arrived,
                      s'.requests[a.req].stage))
  {
  }

  lemma MoveKeeps(s: State, s': State, r: nat, mine: Key, before: Stage, after: Stage, key: Key)
    requires Move(s, s', r, mine, before, after) && KeyOk(s, key)
    requires if r in s.requests then s.requests[r] == Request(mine, before) else before == Arrived
    ensures KeyOk(s', key)
  {
    assert forall t, stage :: t != r || key != mine ==> (Has(s', t, key, stage) <==> t != r && Has(s, t, key, stage));
    assert Has(s', r, mine, after);
    forall t ensures Holds(s', t, key) <==> key in s'.open && s'.open[key] == t {
      assert Holds(s, t, key) <==> key in s.open && s.open[key] == t;
      assert Holds(s, r, key) <==> key in s.open && s.open[key] == r;
    }
    assert forall t :: Has(s', t, key, Committed) <==> Has(s, t, key, Committed) || (t == r && key == mine && after == Committed);
  }

  lemma StepKeeps(s: State, a: Action)
    requires Inv(s)
    ensures Inv(Step(s, a))
  {
    var s' := Step(s, a);
    StepMoves(s, a);
    if s' != s {
      var q := s'.requests[a.req];
      forall key ensures KeyOk(s', key) {
        MoveKeeps(s, s', a.req, q.key, if a.req in s.requests then s.requests[a.req].stage else Arrived, q.stage, key);
      }
    }
  }

  lemma {:induction false} RunKeeps(s: State, actions: seq<Action>)
    requires Inv(s)
    ensures Inv(Run(s, actions))
    decreases |actions|
  {
    if actions != [] {
      StepKeeps(s, actions[0]);
      RunKeeps(Step(s, actions[0]), actions[1..]);
    }
  }

  /** Over every schedule a tenant has as many committed grants of a free package as claim rows, one if
      some request reported success and none otherwise, and never two requests report it. */
  lemma GrantedOnce(actions: seq<Action>, key: Key)
    ensures var s := Run(START, actions);
            && s.grants[key] == (if key in s.claims then 1 else 0)
            && (key in s.claims <==> exists r :: Has(s, r, key, Committed))
            && (forall r, t :: Has(s, r, key, Committed) && Has(s, t, key, Committed) ==> r == t)
  {
    assert forall k :: KeyOk(START, k);
    RunKeeps(START, actions);
    assert KeyOk(Run(START, actions), key);
  }

  // ---------- an undisturbed request ----------

  /** A request on its own, every statement succeeding; the steps that do not apply do nothing. */
  function Alone(s: State, r: nat, key: Key): State {
    Step(Step(Step(Step(s, Arrive(r, key)), Insert(r, true)), Grant(r, true)), Commit(r, true))
  }

  /** On its own a request for a package that has not been claimed is granted it, and one for a package that has
      been claimed is turned away and changes nothing. */
  lemma AloneMeans(s: State, r: nat, key: Key)
    requires r !in s.requests && key !in s.open
    ensures var end := Alone(s, r, key);
            && end.open == s.open
            && if key in s.claims
               then Has(end, r, key, Conflict) && end.claims == s.claims && end.grants == s.grants
               else Has(end, r, key, Committed) && end.claims == s.claims + {key} && end.grants == s.grants + multiset{key}
  {
    var arrived := Step(s, Arrive(r, key));
    assert arrived.requests[r] == Request(key, Arrived);
    var inserted := Step(arrived, Insert(r, true));
    if key !in s.claims {
      assert inserted == State(s.claims, s.grants, s.open[key := r], s.requests[r := Request(key, Inserted)]);
      var granted := Step(inserted, Grant(r, true));
      assert granted == State(s.claims, s.grants, s.open[key := r], s.requests[r := Request(key, Granted)]);
      assert s.open[key := r] - {key} == s.open;
    }
  }

  /** A grant that fails takes the claim row with it: the package can be had by the next request. */
  lemma FailedGrantLeavesNothing(s: State, r: nat, key: Key)
    requires r !in s.requests && key !in s.open && key !in s.claims
    ensures var end := Step(Step(Step(s, Arrive(r, key)), Insert(r, true)), Grant(r, false));
            end.open == s.open && end.claims == s.claims && end.grants == s.grants && Has(end, r, key, RolledBack)
  {
    var arrived := Step(s, Arrive(r, key));
    assert arrived.requests[r] == Request(key, Arrived);
    assert s.open[key := r] - {key} == s.open;
  }
}
