/**
 `VerifyResetCode` as a protocol: any number of requests, each a sequence of separate reads and
 conditional UPDATEs on the shared `password_resets` rows, interleaved in any order. Every statement
 may also fail in the database, in which case it has no effect.
 */
module ResetCode {
  import opened Common

  const MAX_ATTEMPTS: nat := 5

  datatype Row = Row(codeHash: string, expires: int, used: bool, attempts: nat)

  datatype Outcome = Rejected | TooMany | AlreadyUsed | ServerError | Reset

  /** Where a request stands in the handler. */
  datatype Stage =
    | Arrived                // before the row is looked up
    | Found(rec: nat)        // before the attempt is counted
    | OverLimit(rec: nat)    // counting touched no row: about to void the code
    | Counted(rec: nat)      // at the hash comparison
    | Matched(rec: nat)      // about to claim the row
    | Claimed(rec: nat)      // about to write the new password
    | Done(outcome: Outcome)

  /** A request; `counted` and `won` remember the row whose attempt and whose claim it got. */
  datatype Request = Request(code: string, stage: Stage, counted: Option<nat>, won: Option<nat>)

  /** `resets` counts the password updates (the user's token version). */
  datatype State = State(clock: int, rows: map<nat, Row>, requests: map<nat, Request>, resets: nat)

  datatype Action =
    | Wait(time: nat)
    | Issue(rec: nat, codeHash: string, ttl: nat)
    | Arrive(req: nat, code: string)
    | Lookup(req: nat, ok: bool)
    | Count(req: nat, ok: bool)
    | Void(req: nat, ok: bool)
    | Compare(req: nat)
    | Claim(req: nat, ok: bool)
    | Finish(req: nat, ok: bool)

  const START := State(0, map[], map[], 0)

  function Put(s: State, r: nat, q: Request): State {
    s.(requests := s.requests[r := q])
  }

  predicate Live(row: Row, now: int) {
    !row.used && row.expires > now
  }

  /** ORDER BY id DESC LIMIT 1 among the unused, unexpired rows. */
  ghost function Latest(rows: map<nat, Row>, now: int): (rec: Option<nat>)
    ensures rec.None? <==> forall k :: k in rows ==> !Live(rows[k], now)
    ensures rec.Some? ==> rec.value in rows && Live(rows[rec.value], now)
                          && forall k :: k in rows && Live(rows[k], now) ==> k <= rec.value
  {
    var live := set k | k in rows && Live(rows[k], now);
    assert forall k :: k in rows && Live(rows[k], now) ==> k in live;
    LatestOf(live)
  }

  ghost function LatestOf(ids: set<nat>): (rec: Option<nat>)
    ensures rec.None? <==> ids == {}
    ensures rec.Some? ==> rec.value in ids && forall k :: k in ids ==> k <= rec.value
  {
    if ids == {} then None
    else
      var k :| k in ids;
      assert forall j :: j in ids ==> j == k || j in ids - {k};
      match LatestOf(ids - {k})
      case None => Some(k)
      case Some(m) => Some(Max(k, m))
  }

  function CountStep(s: State, r: nat, q: Request, rec: nat): State
    requires rec in s.rows
  {
    var row := s.rows[rec];
    if !row.used && row.attempts < MAX_ATTEMPTS
    then Put(s.(rows := s.rows[rec := row.(attempts := row.attempts + 1)]), r, q.(stage := Counted(rec), counted := Some(rec)))
    else Put(s, r, q.(stage := OverLimit(rec)))
  }

  function ClaimStep(s: State, r: nat, q: Request, rec: nat): State
    requires rec in s.rows
  {
    var row := s.rows[rec];
    if !row.used
    then Put(s.(rows := s.rows[rec := row.(used := true)]), r, q.(stage := Claimed(rec), won := Some(rec)))
    else Put(s, r, q.(stage := Done(AlreadyUsed)))
  }

  /** One atomic step; an action that does not fit the state does nothing. */
  ghost function Step(hash: string -> string, s: State, a: Action): State {
    match a
    case Wait(time) => s.(clock := s.clock + time)
    case Issue(rec, codeHash, ttl) =>
      if rec in s.rows then s else s.(rows := s.rows[rec := Row(codeHash, s.clock + ttl, false, 0)])
    case Arrive(r, code) =>
      if r in s.requests then s else Put(s, r, Request(code, Arrived, None, None))
    case _ =>
      if a.req !in s.requests then s else Handle(hash, s, a, s.requests[a.req])
  }

  ghost function Handle(hash: string -> string, s: State, a: Action, q: Request): State
    requires !a.Wait? && !a.Issue? && !a.Arrive?
  {
    match (a, q.stage)
    case (Lookup(r, ok), Arrived) =>
      var rec := Latest(s.rows, s.clock);
      Put(s, r, q.(stage := if ok && rec.Some? then Found(rec.value) else Done(Rejected)))
    case (Count(r, ok), Found(rec)) =>
      if ok && rec in s.rows then CountStep(s, r, q, rec) else Put(s, r, q.(stage := Done(ServerError)))
    case (Void(r, ok), OverLimit(rec)) =>
      var rows := if ok && rec in s.rows then s.rows[rec := s.rows[rec].(used := true)] else s.rows;
      Put(s.(rows := rows), r, q.(stage := Done(TooMany)))
    case (Compare(r), Counted(rec)) =>
      Put(s, r, q.(stage := if rec in s.rows && s.rows[rec].codeHash == hash(q.code) then Matched(rec) else Done(Rejected)))
    case (Claim(r, ok), Matched(rec)) =>
      if ok && rec in s.rows then ClaimStep(s, r, q, rec) else Put(s, r, q.(stage := Done(AlreadyUsed)))
    case (Finish(r, ok), Claimed(rec)) =>
      if ok then Put(s.(resets := s.resets + 1), r, q.(stage := Done(Reset))) else Put(s, r, q.(stage := Done(ServerError)))
    case _ => s
  }

  ghost function Run(hash: string -> string, s: State, actions: seq<Action>): State
    decreases |actions|
  {
    if actions == [] then s else Run(hash, Step(hash, s, actions[0]), actions[1..])
  }

  // ---------- the invariant ----------

  /** The requests whose attempt was counted on a row: those that got to the hash comparison. */
  function Reached(s: State, rec: nat): set<nat> {
    set r | r in s.requests && s.requests[r].counted == Some(rec)
  }

  function Succeeded(s: State): set<nat> {
    set r | r in s.requests && s.requests[r].stage == Done(Reset)
  }

  ghost predicate RequestOk(hash: string -> string, rows: map<nat, Row>, q: Request) {
    && (q.counted.Some? ==> q.counted.value in rows)
    && (q.won.Some? ==> q.won == q.counted && rows[q.won.value].used && rows[q.won.value].codeHash == hash(q.code))
    && match q.stage
       case Arrived => q.counted.None?
       case Found(rec) => q.counted.None? && rec in rows
       case OverLimit(rec) => q.counted.None? && rec in rows
       case Counted(rec) => q.counted == Some(rec) && q.won.None?
       case Matched(rec) => q.counted == Some(rec) && q.won.None? && rows[rec].codeHash == hash(q.code)
       case Claimed(rec) => q.won == Some(rec)
       case Done(outcome) => outcome == Reset ==> q.won.Some?
  }

  /** The counter of every row is the number of requests it was counted for, never above the limit. */
  ghost predicate CountersOk(s: State) {
    forall rec :: rec in s.rows ==> s.rows[rec].attempts <= MAX_ATTEMPTS && s.rows[rec].attempts == |Reached(s, rec)|
  }

  ghost predicate RequestsOk(hash: string -> string, s: State) {
    forall r :: r in s.requests ==> RequestOk(hash, s.rows, s.requests[r])
  }

  ghost predicate OneWinner(s: State) {
    forall r, t :: r in s.requests && t in s.requests && s.requests[r].won.Some? && s.requests[r].won == s.requests[t].won
      ==> r == t
  }

  ghost predicate Inv(hash: string -> string, s: State) {
    CountersOk(s) && RequestsOk(hash, s) && OneWinner(s) && s.resets == |Succeeded(s)|
  }

  /** A row only moves forward: the hash and the expiry stay, `used` stays true, `attempts` never falls. */
  predicate RowForward(before: Row, after: Row) {
    && after.codeHash == before.codeHash && after.expires == before.expires
    && (before.used ==> after.used) && before.attempts <= after.attempts
  }

  ghost predicate Forward(before: map<nat, Row>, after: map<nat, Row>) {
    forall rec :: rec in before ==> rec in after && RowForward(before[rec], after[rec])
  }

  lemma StepForward(hash: string -> string, s: State, a: Action)
    ensures Forward(s.rows, Step(hash, s, a).rows)
  {
  }

  lemma ForwardKeeps(hash: string -> string, before: map<nat, Row>, after: map<nat, Row>, q: Request)
    requires Forward(before, after) && RequestOk(hash, before, q)
    ensures RequestOk(hash, after, q)
  {
  }

  predicate OneMore(before: Row, after: Row, counted: bool) {
    if counted then before.attempts < MAX_ATTEMPTS && after.attempts == before.attempts + 1
    else after.attempts == before.attempts
  }

  /** Request r goes from `q` to `q'`: at most one row is counted or claimed for it, and a claim needs an unused row. */
  ghost predicate Move(hash: string -> string, s: State, s': State, r: nat, q: Request, q': Request) {
    && s'.requests == s.requests[r := q'] && s'.rows.Keys == s.rows.Keys
    && Forward(s.rows, s'.rows) && RequestOk(hash, s'.rows, q')
    && (q.counted.Some? ==> q'.counted == q.counted)
    && (forall rec :: rec in s.rows ==> OneMore(s.rows[rec], s'.rows[rec], q.counted.None? && q'.counted == Some(rec)))
    && (q'.won.Some? && q'.won != q.won ==> q'.won.value in s.rows && !s.rows[q'.won.value].used)
    && q.stage != Done(Reset)
    && s'.resets == s.resets + if q'.stage == Done(Reset) then 1 else 0
  }

  lemma MoveCounts(hash: string -> string, s: State, s': State, r: nat, q: Request, q': Request, rec: nat)
    requires Move(hash, s, s', r, q, q') && CountersOk(s) && rec in s.rows
    requires if r in s.requests then q == s.requests[r] else q.counted.None?
    ensures s'.rows[rec].attempts <= MAX_ATTEMPTS && s'.rows[rec].attempts == |Reached(s', rec)|
  {
    if q'.counted == Some(rec) {
      assert Reached(s', rec) == Reached(s, rec) + {r};
    } else {
      assert Reached(s', rec) == Reached(s, rec);
    }
  }

  lemma PutSucceeds(s: State, s': State, r: nat, q': Request)
    requires s'.requests == s.requests[r := q']
    requires r in s.requests ==> s.requests[r].stage != Done(Reset)
    ensures |Succeeded(s')| == |Succeeded(s)| + if q'.stage == Done(Reset) then 1 else 0
  {
    assert Succeeded(s') == if q'.stage == Done(Reset) then Succeeded(s) + {r} else Succeeded(s);
  }

  lemma MoveKeeps(hash: string -> string, s: State, s': State, r: nat, q: Request, q': Request)
    requires Move(hash, s, s', r, q, q') && Inv(hash, s)
    requires if r in s.requests then q == s.requests[r] else q.counted.None? && q'.won.None?
    ensures Inv(hash, s')
  {
    forall rec | rec in s'.rows ensures s'.rows[rec].attempts <= MAX_ATTEMPTS && s'.rows[rec].attempts == |Reached(s', rec)| {
      MoveCounts(hash, s, s', r, q, q', rec);
    }
    PutSucceeds(s, s', r, q');
    forall t | t in s'.requests ensures RequestOk(hash, s'.rows, s'.requests[t]) {
      if t != r { ForwardKeeps(hash, s.rows, s'.rows, s.requests[t]); }
    }
    forall t, u | t in s'.requests && u in s'.requests && s'.requests[t].won.Some? && s'.requests[t].won == s'.requests[u].won
      ensures t == u
    {
      assert t != r ==> RequestOk(hash, s.rows, s.requests[t]);
      assert u != r ==> RequestOk(hash, s.rows, s.requests[u]);
    }
  }

  lemma HandleMoves(hash: string -> string, s: State, a: Action)
    requires !a.Wait? && !a.Issue? && !a.Arrive? && a.req in s.requests
    requires RequestOk(hash, s.rows, s.requests[a.req])
    ensures var q := s.requests[a.req];
            var s' := Handle(hash, s, a, q);
            s' == s || (a.req in s'.requests && Move(hash, s, s', a.req, q, s'.requests[a.req]))
  {
  }

  lemma IssueKeeps(hash: string -> string, s: State, s': State, rec: nat, row: Row)
    requires Inv(hash, s) && rec !in s.rows && row.attempts == 0
    requires s' == s.(rows := s.rows[rec := row])
    ensures Inv(hash, s')
  {
    assert forall k :: Reached(s', k) == Reached(s, k);
    assert Succeeded(s') == Succeeded(s);
    forall r | r in s.requests ensures RequestOk(hash, s'.rows, s.requests[r]) && s.requests[r].counted != Some(rec) {
      ForwardKeeps(hash, s.rows, s'.rows, s.requests[r]);
    }
    assert Reached(s, rec) == {};
  }

  lemma WaitKeeps(hash: string -> string, s: State, s': State)
    requires Inv(hash, s) && s' == s.(clock := s'.clock)
    ensures Inv(hash, s')
  {
    assert forall rec :: Reached(s', rec) == Reached(s, rec);
    assert Succeeded(s') == Succeeded(s);
  }

  lemma StepKeeps(hash: string -> string, s: State, a: Action)
    requires Inv(hash, s)
    ensures Inv(hash, Step(hash, s, a))
  {
    var s' := Step(hash, s, a);
    match a
    case Wait(time) => WaitKeeps(hash, s, s');
    case Issue(rec, codeHash, ttl) =>
      if rec !in s.rows { IssueKeeps(hash, s, s', rec, s'.rows[rec]); }
    case Arrive(r, code) =>
      if r !in s.requests {
        var q := Request(code, Arrived, None, None);
        MoveKeeps(hash, s, s', r, q, q);
      }
    case _ =>
      if a.req in s.requests {
        HandleMoves(hash, s, a);
        if s' != s { MoveKeeps(hash, s, s', a.req, s.requests[a.req], s'.requests[a.req]); }
      }
  }

  lemma {:induction false} RunKeeps(hash: string -> string, s: State, actions: seq<Action>)
    requires Inv(hash, s)
    ensures Inv(hash, Run(hash, s, actions)) && Forward(s.rows, Run(hash, s, actions).rows)
    decreases |actions|
  {
    if actions != [] {
      StepKeeps(hash, s, actions[0]);
      StepForward(hash, s, actions[0]);
      RunKeeps(hash, Step(hash, s, actions[0]), actions[1..]);
    }
  }

  // ---------- what holds over every schedule ----------

  lemma StartsWell(hash: string -> string, s: State)
    requires s == START
    ensures Inv(hash, s)
  {
    assert Succeeded(s) == {};
  }

  /** What a row and the requests say about each other. */
  ghost predicate SingleUse(hash: string -> string, s: State, rec: nat)
    requires rec in s.rows
  {
    && s.rows[rec].attempts == |Reached(s, rec)| <= 5
    && (forall r :: r in s.requests && s.requests[r].won == Some(rec) ==>
          r in Reached(s, rec) && s.rows[rec].used && s.rows[rec].codeHash == hash(s.requests[r].code))
    && (forall r, t :: r in s.requests && t in s.requests && s.requests[r].won == s.requests[t].won == Some(rec) ==> r == t)
  }

  /** Under every interleaving: a code takes at most five attempts, one for each request that got as far
      as comparing hashes; at most one request claims it, and that request holds a matching code; and
      every password update belongs to a request with its own claim. */
  lemma CodeIsSingleUse(hash: string -> string, actions: seq<Action>)
    ensures var s := Run(hash, START, actions);
            && (forall rec :: rec in s.rows ==> SingleUse(hash, s, rec))
            && s.resets == |Succeeded(s)|
            && (forall r :: r in Succeeded(s) ==> s.requests[r].won.Some? && s.requests[r].won.value in s.rows)
  {
    var start := START;
    StartsWell(hash, start);
    RunKeeps(hash, start, actions);
    var s := Run(hash, start, actions);
    forall r | r in s.requests ensures RequestOk(hash, s.rows, s.requests[r]) {
    }
  }

  /** No request that had not claimed the row before has claimed it after. */
  ghost predicate NoNewClaim(s: State, s': State, rec: nat) {
    forall r :: r in s'.requests && s'.requests[r].won == Some(rec) ==> r in s.requests && s.requests[r].won == Some(rec)
  }

  /** Once used a code stays used: whatever follows a reachable state, nobody claims it again. */
  lemma UsedIsForever(hash: string -> string, past: seq<Action>, future: seq<Action>, rec: nat)
    requires rec in Run(hash, START, past).rows && Run(hash, START, past).rows[rec].used
    ensures var s := Run(hash, START, past);
            var s' := Run(hash, s, future);
            rec in s'.rows && s'.rows[rec].used && NoNewClaim(s, s', rec)
  {
    var start := START;
    StartsWell(hash, start);
    RunKeeps(hash, start, past);
    UsedStays(hash, Run(hash, start, past), future, rec);
  }

  lemma UsedStep(hash: string -> string, s: State, a: Action, rec: nat)
    requires Inv(hash, s) && rec in s.rows && s.rows[rec].used
    ensures NoNewClaim(s, Step(hash, s, a), rec)
  {
    if !a.Wait? && !a.Issue? && !a.Arrive? && a.req in s.requests {
      HandleMoves(hash, s, a);
    }
  }

  lemma {:induction false} UsedStays(hash: string -> string, s: State, future: seq<Action>, rec: nat)
    requires Inv(hash, s) && rec in s.rows && s.rows[rec].used
    ensures var s' := Run(hash, s, future);
            rec in s'.rows && s'.rows[rec].used && NoNewClaim(s, s', rec)
    decreases |future|
  {
    if future != [] {
      StepKeeps(hash, s, future[0]);
      StepForward(hash, s, future[0]);
      UsedStep(hash, s, future[0], rec);
      UsedStays(hash, Step(hash, s, future[0]), future[1..], rec);
    }
  }

  // ---------- a claimed code was the latest live one when it was looked up ----------

  /** The request has got hold of the row. */
  predicate Holds(q: Request, rec: nat) {
    || q.counted == Some(rec) || q.won == Some(rec)
    || q.stage in {Found(rec), OverLimit(rec), Counted(rec), Matched(rec), Claimed(rec)}
  }

  predicate Unexpired(s: State, rec: nat) {
    rec in s.rows && !s.rows[rec].used && s.rows[rec].expires > s.clock
  }

  /** The request looks the row up: it is unused, it expires later, and no newer one is like that. */
  ghost predicate LooksUp(s: State, a: Action, r: nat, rec: nat) {
    && a == Lookup(r, true) && r in s.requests && s.requests[r].stage == Arrived
    && Unexpired(s, rec) && forall other: nat :: Unexpired(s, other) ==> other <= rec
  }

  ghost predicate LookedUp(hash: string -> string, actions: seq<Action>, r: nat, rec: nat) {
    exists k :: 0 <= k < |actions| && LooksUp(Run(hash, START, actions[..k]), actions[k], r, rec)
  }

  lemma {:induction false} RunThen(hash: string -> string, s: State, actions: seq<Action>, a: Action)
    ensures Run(hash, s, actions + [a]) == Step(hash, Run(hash, s, actions), a)
    decreases |actions|
  {
    if actions == [] {
      assert [a][1..] == [] && actions + [a] == [a];
      var rest := [a][1..];
      assert Run(hash, Step(hash, s, a), rest) == Step(hash, s, a);
    } else {
      assert (actions + [a])[1..] == actions[1..] + [a];
      RunThen(hash, Step(hash, s, actions[0]), actions[1..], a);
    }
  }

  lemma HoldsStep(hash: string -> string, s: State, a: Action, r: nat, rec: nat)
    requires r in Step(hash, s, a).requests && Holds(Step(hash, s, a).requests[r], rec)
    ensures (r in s.requests && Holds(s.requests[r], rec)) || LooksUp(s, a, r, rec)
  {
    if !a.Wait? && !a.Issue? && !a.Arrive? && a.req in s.requests {
      HandleHolds(hash, s, a, s.requests[a.req], r, rec);
    }
  }

  lemma HandleHolds(hash: string -> string, s: State, a: Action, q: Request, r: nat, rec: nat)
    requires !a.Wait? && !a.Issue? && !a.Arrive? && a.req in s.requests && s.requests[a.req] == q
    requires r in Handle(hash, s, a, q).requests && Holds(Handle(hash, s, a, q).requests[r], rec)
    ensures (r in s.requests && Holds(s.requests[r], rec)) || LooksUp(s, a, r, rec)
  {
    if a.Lookup? && q.stage.Arrived? && a.req == r && !Holds(q, rec) {
      assert forall other :: Unexpired(s, other) ==> Live(s.rows[other], s.clock);
    }
  }

  lemma {:induction false} HoldersLookedUp(hash: string -> string, actions: seq<Action>, r: nat, rec: nat)
    requires r in Run(hash, START, actions).requests && Holds(Run(hash, START, actions).requests[r], rec)
    ensures LookedUp(hash, actions, r, rec)
    decreases |actions|
  {
    if actions != [] {
      var init, a := actions[..|actions| - 1], actions[|actions| - 1];
      assert actions == init + [a];
      RunThen(hash, START, init, a);
      HoldsStep(hash, Run(hash, START, init), a, r, rec);
      if LooksUp(Run(hash, START, init), a, r, rec) {
        assert LooksUp(Run(hash, START, actions[..|init|]), actions[|init|], r, rec);
      } else {
        HoldersLookedUp(hash, init, r, rec);
        var k :| 0 <= k < |init| && LooksUp(Run(hash, START, init[..k]), init[k], r, rec);
        assert init[..k] == actions[..k];
      }
    }
  }

  /** Under every interleaving: whoever claims a code has looked it up when it was unused and had not expired, and
      when no newer code was like that. */
  lemma ClaimedWasLive(hash: string -> string, actions: seq<Action>, r: nat, rec: nat)
    requires r in Run(hash, START, actions).requests && Run(hash, START, actions).requests[r].won == Some(rec)
    ensures exists k :: 0 <= k < |actions| && LooksUp(Run(hash, START, actions[..k]), actions[k], r, rec)
  {
    HoldersLookedUp(hash, actions, r, rec);
  }

  predicate Expired(s: State, rec: nat) {
    rec in s.rows && s.clock >= s.rows[rec].expires
  }

  lemma ExpiryStays(hash: string -> string, s: State, a: Action, rec: nat)
    requires Expired(s, rec)
    ensures Expired(Step(hash, s, a), rec)
  {
    StepForward(hash, s, a);
    ClockForward(hash, s, a);
  }

  lemma ClockForward(hash: string -> string, s: State, a: Action)
    ensures Step(hash, s, a).clock >= s.clock
  {
  }

  /** A request that comes once the code has expired never claims it, whatever follows. */
  lemma {:induction false} ExpiredIsNeverClaimed(hash: string -> string, s: State, future: seq<Action>, r: nat, rec: nat)
    requires Expired(s, rec) && (r in s.requests ==> !Holds(s.requests[r], rec))
    ensures var s' := Run(hash, s, future); r in s'.requests ==> s'.requests[r].won != Some(rec)
    decreases |future|
  {
    if future != [] {
      var next := Step(hash, s, future[0]);
      ExpiryStays(hash, s, future[0], rec);
      if r in next.requests && Holds(next.requests[r], rec) {
        HoldsStep(hash, s, future[0], r, rec);
      }
      ExpiredIsNeverClaimed(hash, next, future[1..], r, rec);
    }
  }

  /** A new code expires when its time is up, has no attempt on it, and leaves the others alone. */
  lemma IssueMeans(hash: string -> string, s: State, rec: nat, codeHash: string, ttl: nat)
    requires rec !in s.rows
    ensures var end := Step(hash, s, Issue(rec, codeHash, ttl));
            end.rows == s.rows[rec := Row(codeHash, s.clock + ttl, false, 0)] && end.requests == s.requests
    ensures ttl > 0 <==> Unexpired(Step(hash, s, Issue(rec, codeHash, ttl)), rec)
  {
  }

  // ---------- an undisturbed request ----------

  /** A request on its own, every statement succeeding; the steps that do not apply do nothing. */
  ghost function Alone(hash: string -> string, s: State, r: nat, code: string): State {
    Claiming(hash, Counting(hash, Step(hash, Step(hash, s, Arrive(r, code)), Lookup(r, true)), r), r)
  }

  ghost function Counting(hash: string -> string, s: State, r: nat): State {
    Step(hash, Step(hash, s, Count(r, true)), Void(r, true))
  }

  ghost function Claiming(hash: string -> string, s: State, r: nat): State {
    Step(hash, Step(hash, Step(hash, s, Compare(r)), Claim(r, true)), Finish(r, true))
  }

  lemma AloneFinds(hash: string -> string, s: State, r: nat, code: string, rec: nat)
    requires r !in s.requests && Unexpired(s, rec) && forall other: nat :: Unexpired(s, other) ==> other <= rec
    ensures Step(hash, Step(hash, s, Arrive(r, code)), Lookup(r, true)) == Put(s, r, Request(code, Found(rec), None, None))
  {
    assert Live(s.rows[rec], s.clock);
    assert forall k :: k in s.rows && Live(s.rows[k], s.clock) ==> Unexpired(s, k);
    assert Latest(s.rows, s.clock) == Some(rec);
    var arrived := Step(hash, s, Arrive(r, code));
    assert arrived.requests[r] == Request(code, Arrived, None, None);
    assert arrived.requests[r := Request(code, Found(rec), None, None)] == s.requests[r := Request(code, Found(rec), None, None)];
  }

  lemma AloneCounts(hash: string -> string, s: State, r: nat, q: Request, rec: nat)
    requires r in s.requests && s.requests[r] == q && q.stage == Found(rec) && Unexpired(s, rec)
    ensures var row, counted := s.rows[rec], Counting(hash, s, r);
            && r in counted.requests && counted.resets == s.resets
            && if row.attempts >= 5
               then counted.requests[r] == q.(stage := Done(TooMany)) && counted.rows == s.rows[rec := row.(used := true)]
               else counted.requests[r] == q.(stage := Counted(rec), counted := Some(rec))
                    && counted.rows == s.rows[rec := row.(attempts := row.attempts + 1)]
  {
  }

  lemma AloneClaims(hash: string -> string, s: State, r: nat, q: Request, rec: nat)
    requires r in s.requests && s.requests[r] == q && q.stage == Counted(rec) && rec in s.rows && !s.rows[rec].used
    ensures var end := Claiming(hash, s, r);
            && r in end.requests
            && if hash(q.code) == s.rows[rec].codeHash
               then end.requests[r].stage == Done(Reset) && end.resets == s.resets + 1
                    && end.rows == s.rows[rec := s.rows[rec].(used := true)]
               else end.requests[r].stage == Done(Rejected) && end.resets == s.resets && end.rows == s.rows
  {
  }

  /** A request that is done takes no more steps. */
  lemma DoneStays(hash: string -> string, s: State, r: nat)
    requires r in s.requests && s.requests[r].stage.Done?
    ensures Claiming(hash, s, r) == s
  {
  }

  lemma FoundMeans(hash: string -> string, s: State, r: nat, rec: nat)
    requires r in s.requests && s.requests[r].stage == Found(rec) && Unexpired(s, rec)
    ensures var row, end := s.rows[rec], Claiming(hash, Counting(hash, s, r), r);
            && r in end.requests
            && if row.attempts >= 5
               then end.requests[r].stage == Done(TooMany) && end.resets == s.resets
                    && end.rows == s.rows[rec := row.(used := true)]
               else if hash(s.requests[r].code) == row.codeHash
               then end.requests[r].stage == Done(Reset) && end.resets == s.resets + 1
                    && end.rows == s.rows[rec := row.(attempts := row.attempts + 1, used := true)]
               else end.requests[r].stage == Done(Rejected) && end.resets == s.resets
                    && end.rows == s.rows[rec := row.(attempts := row.attempts + 1)]
  {
    AloneCounts(hash, s, r, s.requests[r], rec);
    var counted := Counting(hash, s, r);
    if s.rows[rec].attempts >= 5 {
      DoneStays(hash, counted, r);
    } else {
      AloneClaims(hash, counted, r, counted.requests[r], rec);
    }
  }

  /** On its own a request resets the password exactly with the code of the latest live row, while it has an
      attempt left; a wrong code costs an attempt; and without an attempt left the code is voided. */
  lemma AloneMeans(hash: string -> string, s: State, r: nat, code: string, rec: nat)
    requires r !in s.requests && Unexpired(s, rec) && forall other: nat :: Unexpired(s, other) ==> other <= rec
    ensures var row, end := s.rows[rec], Alone(hash, s, r, code);
            && r in end.requests
            && if row.attempts >= 5
               then end.requests[r].stage == Done(TooMany) && end.resets == s.resets
                    && end.rows == s.rows[rec := row.(used := true)]
               else if hash(code) == row.codeHash
               then end.requests[r].stage == Done(Reset) && end.resets == s.resets + 1
                    && end.rows == s.rows[rec := row.(attempts := row.attempts + 1, used := true)]
               else end.requests[r].stage == Done(Rejected) && end.resets == s.resets
                    && end.rows == s.rows[rec := row.(attempts := row.attempts + 1)]
  {
    AloneFinds(hash, s, r, code, rec);
    FoundMeans(hash, Put(s, r, Request(code, Found(rec), None, None)), r, rec);
  }

  /** Without a live code a request is turned away and changes nothing. */
  lemma AloneWithoutCode(hash: string -> string, s: State, r: nat, code: string)
    requires r !in s.requests && forall rec :: !Unexpired(s, rec)
    ensures var end := Alone(hash, s, r, code);
            && r in end.requests && end.requests[r].stage == Done(Rejected)
            && end.rows == s.rows && end.resets == s.resets
  {
    assert forall k :: k in s.rows && Live(s.rows[k], s.clock) ==> Unexpired(s, k);
    assert Latest(s.rows, s.clock) == None;
  }
}
