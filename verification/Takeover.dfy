/**
 Who answers a conversation. Handlers read the conversation row, decide on their own copy of it, and later
 UPDATE some of its columns without a condition: each read, decision and UPDATE is a separate step, in any
 interleaving. Some handlers write what follows from a row that may have changed in between.
 */
module Takeover {
  import opened Common

  datatype Mode = AI | Human | Fish

  /** The columns that decide who answers, and those the timeouts look at. */
  datatype Row = Row(mode: Mode, locked: bool, aiEnabled: bool, pending: bool, lastHuman: Option<int>, lastMessage: Option<int>)

  datatype Kind =
    | Toggle(enabled: Option<bool>)  // ToggleAiReply: None flips the switch it read
    | TakeOver                       // AdvisorTakeover
    | HumanReply                     // the staff's reply endpoint
    | Send                           // AdvisorSendMessage
    | SafetyTakeOver                 // the safety gate in AdvisorTriggerAIReply; routing to a human
    | RequestHuman                   // GuestRequestHuman, and the staff's transfer to a human
    | HandBack                       // TransferToAI; the flow engine's AI node
    | SilenceTimeout                 // CheckHumanTimeout: an unlocked conversation left alone too long
    | ReopenTimeout(anyMode: bool)   // reopenConversationAI; with `anyMode`, its copy in the web chain

  datatype Stage = Arrived | Loaded(seen: Row) | Ready(seen: Row) | Done

  datatype Request = Request(kind: Kind, stage: Stage)

  datatype State = State(clock: int, row: Row, requests: map<nat, Request>)

  datatype Action =
    | Wait(time: nat)
    | Elsewhere(pending: bool, lastHuman: Option<int>, lastMessage: Option<int>)  // writers of other columns
    | Arrive(req: nat, kind: Kind)
    | Read(req: nat)
    | Decide(req: nat, timeout: int)
    | Write(req: nat, ok: bool)

  // ---------- the handlers ----------

  /** Whether a handler goes on to write, judged on its own copy of the row. */
  predicate Goes(kind: Kind, seen: Row, now: int, timeout: int) {
    match kind
    case SilenceTimeout =>
      var since := if seen.lastHuman.Some? then seen.lastHuman else seen.lastMessage;
      seen.mode == Human && !seen.locked && since.Some? && now - since.value > timeout
    case ReopenTimeout(anyMode) =>
      && (anyMode || (seen.mode == Human && seen.locked))
      && !seen.aiEnabled && seen.pending && seen.lastHuman.Some? && now - seen.lastHuman.value >= timeout
    case _ => true
  }

  /** The columns an UPDATE sets, applied to the row as it is at that moment. */
  function Written(kind: Kind, seen: Row, row: Row, now: int): Row {
    match kind
    case Toggle(enabled) =>
      var on := if enabled.Some? then enabled.value else !seen.aiEnabled;
      row.(mode := if on then AI else Human, locked := !on, aiEnabled := on)
    case TakeOver => row.(mode := Human, locked := true, pending := false)
    case HumanReply =>
      row.(mode := Human, locked := true, pending := false, lastHuman := Some(now), lastMessage := Some(now))
    case Send =>
      var sent := row.(aiEnabled := false, lastHuman := Some(now), lastMessage := Some(now));
      if seen.mode != Human then sent.(mode := Human, locked := true) else sent
    case SafetyTakeOver => row.(mode := Human, locked := true, aiEnabled := false)
    case RequestHuman => row.(mode := Human, locked := true)
    case HandBack => row.(mode := AI, locked := false, aiEnabled := true)
    case SilenceTimeout => row.(mode := AI, locked := false, pending := false)
    case ReopenTimeout(_) => row.(mode := AI, locked := false, aiEnabled := true, pending := false)
  }

  function Move(s: State, r: nat, stage: Stage): State
    requires r in s.requests
  {
    s.(requests := s.requests[r := s.requests[r].(stage := stage)])
  }

  function Step(s: State, a: Action): State {
    match a
    case Wait(time) => s.(clock := s.clock + time)
    case Elsewhere(pending, lastHuman, lastMessage) =>
      s.(row := s.row.(pending := pending, lastHuman := lastHuman, lastMessage := lastMessage))
    case Arrive(r, kind) => if r in s.requests then s else s.(requests := s.requests[r := Request(kind, Arrived)])
    case Read(r) =>
      if r in s.requests && s.requests[r].stage.Arrived? then Move(s, r, Loaded(s.row)) else s
    case Decide(r, timeout) =>
      if r in s.requests && s.requests[r].stage.Loaded? then
        var seen := s.requests[r].stage.seen;
        Move(s, r, if Goes(s.requests[r].kind, seen, s.clock, timeout) then Ready(seen) else Done)
      else s
    case Write(r, ok) =>
      if r in s.requests && s.requests[r].stage.Ready? then
        var row := Written(s.requests[r].kind, s.requests[r].stage.seen, s.row, s.clock);
        Move(if ok then s.(row := row) else s, r, Done)
      else s
  }

  function Run(s: State, actions: seq<Action>): State {
    if actions == [] then s else Step(Run(s, actions[..|actions| - 1]), actions[|actions| - 1])
  }

  /** The state before the k-th action of a schedule. */
  function Before(s: State, actions: seq<Action>, k: nat): State
    requires k <= |actions|
  {
    Run(s, actions[..k])
  }

  lemma Next(s: State, actions: seq<Action>, k: nat)
    requires k < |actions|
    ensures Before(s, actions, k + 1) == Step(Before(s, actions, k), actions[k])
  {
    assert actions[..k + 1][..k] == actions[..k];
  }

  // ---------- what every schedule keeps ----------

  predicate Consistent(row: Row) {
    row.locked ==> row.mode == Human
  }

  lemma StepConsistent(s: State, a: Action)
    requires Consistent(s.row)
    ensures Consistent(Step(s, a).row)
  {
  }

  /** Over every interleaving a locked conversation is in human mode. */
  lemma {:induction false} LockedMeansHuman(s: State, actions: seq<Action>)
    requires Consistent(s.row)
    ensures Consistent(Run(s, actions).row)
  {
    if actions != [] {
      LockedMeansHuman(s, actions[..|actions| - 1]);
      StepConsistent(Run(s, actions[..|actions| - 1]), actions[|actions| - 1]);
    }
  }

  /** A message that comes in over a channel is not answered by the AI. */
  predicate Silenced(row: Row) {
    row.locked || !row.aiEnabled
  }

  // ---------- a write against a takeover ----------

  /** None of the actions is a step of the request. */
  predicate Leaves(actions: seq<Action>, r: nat) {
    forall k :: 0 <= k < |actions| ==> !IsOf(actions[k], r)
  }

  predicate IsOf(a: Action, r: nat) {
    match a
    case Wait(_) => false
    case Elsewhere(_, _, _) => false
    case Arrive(req, _) => req == r
    case Read(req) => req == r
    case Decide(req, _) => req == r
    case Write(req, _) => req == r
  }

  lemma {:induction false} LeavesAlone(s: State, actions: seq<Action>, r: nat)
    requires r in s.requests && Leaves(actions, r)
    ensures r in Run(s, actions).requests && Run(s, actions).requests[r] == s.requests[r]
  {
    if actions != [] {
      var n := |actions| - 1;
      assert !IsOf(actions[n], r);
      LeavesAlone(s, actions[..n], r);
    }
  }

  /** A whole request among others: it reads, others act, it decides, others act, and it writes. */
  datatype Course = Course(read: State, decided: State, written: State, after: State)

  function CourseOf(s: State, r: nat, upToDecision: seq<Action>, timeout: int, upToWrite: seq<Action>): Course {
    var decided := Run(Step(s, Read(r)), upToDecision);
    var written := Run(Step(decided, Decide(r, timeout)), upToWrite);
    Course(s, decided, written, Step(written, Write(r, true)))
  }

  /** Whatever happens in between, a request writes what follows from the row it read. */
  lemma WritesWhatItRead(s: State, r: nat, upToDecision: seq<Action>, timeout: int, upToWrite: seq<Action>)
    requires r in s.requests && s.requests[r].stage.Arrived? && Leaves(upToDecision, r) && Leaves(upToWrite, r)
    ensures var c := CourseOf(s, r, upToDecision, timeout, upToWrite);
            var kind := s.requests[r].kind;
            c.after.row == if Goes(kind, s.row, c.decided.clock, timeout)
                           then Written(kind, s.row, c.written.row, c.written.clock) else c.written.row
  {
    LeavesAlone(Step(s, Read(r)), upToDecision, r);
    var decided := Run(Step(s, Read(r)), upToDecision);
    LeavesAlone(Step(decided, Decide(r, timeout)), upToWrite, r);
  }

  /** The row a request read, its kind, and the time of its decision tell whether it hands the conversation
      back to the AI: it was asked to, it flips a switch it saw off, or it saw an advisor gone silent. */
  predicate HandsBack(kind: Kind, read: Row, decidedAt: int, timeout: int) {
    match kind
    case Toggle(enabled) => if enabled.Some? then enabled.value else !read.aiEnabled
    case HandBack => true
    case SilenceTimeout => Goes(kind, read, decidedAt, timeout)
    case ReopenTimeout(_) => Goes(kind, read, decidedAt, timeout)
    case _ => false
  }

  /** A conversation is locked when a request writes, whoever locked it since the request read: the write undoes
      the takeover exactly when the request hands back by the row it read, before the takeover or not. */
  lemma UndoesTakeoverIff(s: State, r: nat, upToDecision: seq<Action>, timeout: int, upToWrite: seq<Action>)
    requires r in s.requests && s.requests[r].stage.Arrived? && Leaves(upToDecision, r) && Leaves(upToWrite, r)
    requires var locked := CourseOf(s, r, upToDecision, timeout, upToWrite).written.row;
             Consistent(locked) && locked.locked
    ensures var c := CourseOf(s, r, upToDecision, timeout, upToWrite);
            var kind := s.requests[r].kind;
            var undoes := HandsBack(kind, s.row, c.decided.clock, timeout);
            && (!c.after.row.locked <==> undoes)
            && (c.after.row.mode == AI <==> undoes)
  {
    WritesWhatItRead(s, r, upToDecision, timeout, upToWrite);
  }

  /** The AI is silenced when a request writes: the write lets it answer again exactly when the request hands
      back by the row it read, unless a silence timeout leaves the switch as somebody has put it. */
  lemma SilenceEndsIff(s: State, r: nat, upToDecision: seq<Action>, timeout: int, upToWrite: seq<Action>)
    requires r in s.requests && s.requests[r].stage.Arrived? && Leaves(upToDecision, r) && Leaves(upToWrite, r)
    requires Silenced(CourseOf(s, r, upToDecision, timeout, upToWrite).written.row)
    ensures var c := CourseOf(s, r, upToDecision, timeout, upToWrite);
            var kind := s.requests[r].kind;
            !Silenced(c.after.row) <==>
              HandsBack(kind, s.row, c.decided.clock, timeout) && (kind == SilenceTimeout ==> c.written.row.aiEnabled)
  {
    WritesWhatItRead(s, r, upToDecision, timeout, upToWrite);
  }

  /** A takeover, a human reply, a send, a safety takeover and a customer's request silence the AI, whatever they
      read and whatever has happened since. */
  lemma WritesSilence(s: State, r: nat, upToDecision: seq<Action>, timeout: int, upToWrite: seq<Action>)
    requires r in s.requests && s.requests[r].stage.Arrived? && Leaves(upToDecision, r) && Leaves(upToWrite, r)
    requires s.requests[r].kind in {TakeOver, HumanReply, Send, SafetyTakeOver, RequestHuman}
    ensures Silenced(CourseOf(s, r, upToDecision, timeout, upToWrite).after.row)
  {
    WritesWhatItRead(s, r, upToDecision, timeout, upToWrite);
  }

  /** A write undoes a takeover although the same request, reading the row it is about to overwrite, would not:
      a silence timeout always, a flip when somebody has switched the AI on since, and a reopening timeout when
      the row has stopped saying that an advisor has been silent for too long. */
  lemma UndoesOnStaleReadIff(s: State, r: nat, upToDecision: seq<Action>, timeout: int, upToWrite: seq<Action>)
    requires r in s.requests && s.requests[r].stage.Arrived? && Leaves(upToDecision, r) && Leaves(upToWrite, r)
    requires var locked := CourseOf(s, r, upToDecision, timeout, upToWrite).written.row;
             Consistent(locked) && locked.locked
    ensures var c := CourseOf(s, r, upToDecision, timeout, upToWrite);
            var kind := s.requests[r].kind;
            (!c.after.row.locked && !HandsBack(kind, c.written.row, c.decided.clock, timeout)) <==>
            match kind
            case SilenceTimeout => Goes(kind, s.row, c.decided.clock, timeout)
            case Toggle(None) => !s.row.aiEnabled && c.written.row.aiEnabled
            case ReopenTimeout(_) =>
              Goes(kind, s.row, c.decided.clock, timeout) && !Goes(kind, c.written.row, c.decided.clock, timeout)
            case _ => false
  {
    UndoesTakeoverIff(s, r, upToDecision, timeout, upToWrite);
  }

  // ---------- how a takeover is lost, over whole schedules ----------

  /** The request has read the row and keeps this copy of it. */
  predicate Keeps(s: State, r: nat, seen: Row) {
    r in s.requests && (s.requests[r].stage == Loaded(seen) || s.requests[r].stage == Ready(seen))
  }

  /** A request that is going to write has seen what its kind asks for. */
  ghost predicate ReadySound(s: State) {
    forall r, seen :: r in s.requests && s.requests[r].stage == Ready(seen) ==> Warranted(s.requests[r].kind, seen)
  }

  predicate Warranted(kind: Kind, seen: Row) {
    match kind
    case SilenceTimeout => seen.mode == Human && !seen.locked
    case ReopenTimeout(anyMode) => !seen.aiEnabled && seen.pending && (anyMode || seen.locked)
    case _ => true
  }

  lemma {:induction false} RunReadySound(s: State, actions: seq<Action>)
    requires ReadySound(s)
    ensures ReadySound(Run(s, actions))
  {
    if actions != [] { RunReadySound(s, actions[..|actions| - 1]); }
  }

  /** Every copy taken since `s`, in which the conversation was locked throughout, shows it locked. */
  ghost predicate CopiesLocked(s: State, now: State) {
    forall r, seen :: Keeps(now, r, seen) ==> seen.locked || Keeps(s, r, seen)
  }

  ghost predicate LockedUpTo(s: State, actions: seq<Action>, n: nat)
    requires n <= |actions|
  {
    forall k :: 0 <= k <= n ==> Before(s, actions, k).row.locked
  }

  lemma {:induction false} CopiesStayLocked(s: State, actions: seq<Action>, n: nat)
    requires n <= |actions| && LockedUpTo(s, actions, n)
    ensures CopiesLocked(s, Before(s, actions, n))
    decreases n
  {
    if n > 0 {
      CopiesStayLocked(s, actions, n - 1);
      Next(s, actions, n - 1);
      CopyStep(s, Before(s, actions, n - 1), actions[n - 1]);
    }
  }

  lemma CopyStep(s: State, now: State, a: Action)
    requires CopiesLocked(s, now) && now.row.locked
    ensures CopiesLocked(s, Step(now, a))
  {
    forall r, seen | Keeps(Step(now, a), r, seen) ensures seen.locked || Keeps(s, r, seen) {
      assert Keeps(now, r, seen) || seen == now.row;
    }
  }

  /** With this action a locked conversation goes back to the AI: somebody asked for it, somebody flips a switch
      seen off, or a timeout saw a silent advisor; a silence timeout only by a copy older than `s`. */
  predicate Loses(s: State, now: State, a: Action) {
    && a.Write? && a.ok && now.row.locked && a.req in now.requests && now.requests[a.req].stage.Ready?
    && var seen := now.requests[a.req].stage.seen;
       match now.requests[a.req].kind
       case Toggle(enabled) => if enabled.Some? then enabled.value else !seen.aiEnabled
       case HandBack => true
       case SilenceTimeout => Keeps(s, a.req, seen) && seen.mode == Human && !seen.locked
       case ReopenTimeout(anyMode) => !seen.aiEnabled && seen.pending && (anyMode || seen.locked)
       case _ => false
  }

  lemma LossStep(s: State, now: State, a: Action)
    requires now.row.locked && CopiesLocked(s, now) && ReadySound(now)
    ensures !Step(now, a).row.locked <==> Loses(s, now, a)
  {
    if a.Write? && a.req in now.requests && now.requests[a.req].stage.Ready? {
      var seen := now.requests[a.req].stage.seen;
      assert Keeps(now, a.req, seen);
      assert Warranted(now.requests[a.req].kind, seen);
    }
  }

  /** The first action after which the conversation is not locked any more. */
  lemma {:induction false} FirstUnlocked(s: State, actions: seq<Action>, n: nat) returns (k: nat)
    requires n <= |actions| && s.row.locked && !Before(s, actions, n).row.locked
    ensures k < n && LockedUpTo(s, actions, k) && !Before(s, actions, k + 1).row.locked
    decreases n
  {
    if j :| 0 <= j < n && !Before(s, actions, j).row.locked {
      k := FirstUnlocked(s, actions, j);
    } else {
      k := n - 1;
    }
  }

  function Start(clock: int, row: Row): State {
    State(clock, row, map[])
  }

  /** Over every schedule: from a moment when a conversation is locked, it is handed back to the AI if and only
      if some request is asked to, flips a switch it saw off, or acts on a silent advisor it saw; and a silence
      timeout takes part only by a copy of the row from before that moment. */
  lemma TakeoverLostIff(clock: int, row: Row, past: seq<Action>, future: seq<Action>)
    requires Run(Start(clock, row), past).row.locked
    ensures var s := Run(Start(clock, row), past);
            (exists n :: 0 <= n <= |future| && !Before(s, future, n).row.locked) <==>
            (exists k :: 0 <= k < |future| && LockedUpTo(s, future, k) && Loses(s, Before(s, future, k), future[k]))
  {
    var start := Start(clock, row);
    var s := Run(start, past);
    RunReadySound(start, past);
    if n :| 0 <= n <= |future| && !Before(s, future, n).row.locked {
      var k := FirstUnlocked(s, future, n);
      LossAt(s, future, k);
    }
    if k :| 0 <= k < |future| && LockedUpTo(s, future, k) && Loses(s, Before(s, future, k), future[k]) {
      LossAt(s, future, k);
    }
  }

  lemma LossAt(s: State, future: seq<Action>, k: nat)
    requires k < |future| && LockedUpTo(s, future, k) && ReadySound(s)
    ensures !Before(s, future, k + 1).row.locked <==> Loses(s, Before(s, future, k), future[k])
  {
    CopiesStayLocked(s, future, k);
    RunReadySound(s, future[..k]);
    Next(s, future, k);
    LossStep(s, Before(s, future, k), future[k]);
  }

  // ---------- an advisor's send ----------

  /** With this action a conversation leaves human mode. */
  predicate LeavesHuman(s: State, a: Action) {
    && a.Write? && a.ok && a.req in s.requests && s.requests[a.req].stage.Ready? && s.row.mode == Human
    && match s.requests[a.req].kind
       case Toggle(enabled) => if enabled.Some? then enabled.value else !s.requests[a.req].stage.seen.aiEnabled
       case HandBack => true
       case SilenceTimeout => true
       case ReopenTimeout(_) => true
       case _ => false
  }

  ghost predicate HandedBackDuring(s: State, actions: seq<Action>) {
    exists k :: 0 <= k < |actions| && LeavesHuman(Before(s, actions, k), actions[k])
  }

  lemma {:induction false} LeftHuman(s: State, actions: seq<Action>)
    requires s.row.mode == Human && Run(s, actions).row.mode != Human
    ensures HandedBackDuring(s, actions)
  {
    var n := |actions| - 1;
    assert actions[..n + 1] == actions;
    if Run(s, actions[..n]).row.mode == Human {
      assert LeavesHuman(Before(s, actions, n), actions[n]);
    } else {
      LeftHuman(s, actions[..n]);
      var k :| 0 <= k < n && LeavesHuman(Before(s, actions[..n], k), actions[..n][k]);
      assert actions[..n][..k] == actions[..k];
      assert LeavesHuman(Before(s, actions, k), actions[k]);
    }
  }

  /** An advisor's send is meant to leave the conversation in human mode. It ends outside human mode exactly when
      the advisor read a human conversation and it is not in human mode any more when the send writes; and then
      some request has handed it back between the send's read and its write. */
  lemma SendEndsOutsideHumanIff(s: State, r: nat, upToDecision: seq<Action>, timeout: int, upToWrite: seq<Action>)
    requires r in s.requests && s.requests[r] == Request(Send, Arrived) && Leaves(upToDecision, r) && Leaves(upToWrite, r)
    ensures var c := CourseOf(s, r, upToDecision, timeout, upToWrite);
            && (c.after.row.mode != Human <==> s.row.mode == Human && c.written.row.mode != Human)
            && !c.after.row.aiEnabled
            && (c.after.row.mode != Human ==> (
                  || HandedBackDuring(Step(s, Read(r)), upToDecision)
                  || HandedBackDuring(Step(c.decided, Decide(r, timeout)), upToWrite)))
  {
    WritesWhatItRead(s, r, upToDecision, timeout, upToWrite);
    var c := CourseOf(s, r, upToDecision, timeout, upToWrite);
    if s.row.mode == Human && c.written.row.mode != Human {
      if c.decided.row.mode != Human {
        LeftHuman(Step(s, Read(r)), upToDecision);
      } else {
        LeftHuman(Step(c.decided, Decide(r, timeout)), upToWrite);
      }
    }
  }

  // ---------- schedules that undo a takeover ----------

  /** One more action of a schedule that has led to a known state. */
  lemma Then(start: State, actions: seq<Action>, s: State, a: Action) returns (longer: seq<Action>, s': State)
    requires Run(start, actions) == s
    ensures s' == Step(s, a) && Run(start, longer) == s'
  {
    longer, s' := actions + [a], Step(s, a);
    assert longer[..|actions|] == actions;
  }

  /** A request arrives and reads. */
  lemma ThenReads(start: State, actions: seq<Action>, s: State, r: nat, kind: Kind) returns (longer: seq<Action>, s': State)
    requires Run(start, actions) == s && r !in s.requests
    ensures Run(start, longer) == s' && s' == s.(requests := s.requests[r := Request(kind, Loaded(s.row))])
  {
    longer, s' := Then(start, actions, s, Arrive(r, kind));
    longer, s' := Then(start, longer, s', Read(r));
  }

  /** A request that has read decides to go on, and writes. */
  lemma ThenWrites(start: State, actions: seq<Action>, s: State, r: nat, kind: Kind, seen: Row)
    returns (longer: seq<Action>, s': State)
    requires Run(start, actions) == s && r in s.requests && s.requests[r] == Request(kind, Loaded(seen))
    requires Goes(kind, seen, s.clock, 0)
    ensures Run(start, longer) == s'
    ensures s' == State(s.clock, Written(kind, seen, s.row, s.clock), s.requests[r := Request(kind, Done)])
  {
    longer, s' := Then(start, actions, s, Decide(r, 0));
    longer, s' := Then(start, longer, s', Write(r, true));
  }

  /** Two advisors flip the switch they both see off; between their writes a third takes the conversation over;
      and the second flip hands it back to the AI. */
  lemma StaleFlip(start: State) returns (actions: seq<Action>, more: seq<Action>)
    requires start == Start(0, Row(Human, true, false, false, None, None))
    ensures Run(start, actions).row == Row(Human, true, true, false, None, None)
    ensures Run(start, more).row == Row(AI, false, true, false, None, None)
  {
    var s;
    actions, s := ThenReads(start, [], start, 0, Toggle(None));
    actions, s := ThenReads(start, actions, s, 1, Toggle(None));
    actions, s := ThenWrites(start, actions, s, 0, Toggle(None), start.row);
    var taken := s.row;
    actions, s := ThenReads(start, actions, s, 2, TakeOver);
    actions, s := ThenWrites(start, actions, s, 2, TakeOver, taken);
    more, s := ThenWrites(start, actions, s, 1, Toggle(None), start.row);
  }

  /** A customer's message finds an unlocked conversation whose advisor has been silent for too long; an advisor
      takes it over; and the timeout hands it back to the AI. */
  lemma StaleTimeout(start: State) returns (actions: seq<Action>, more: seq<Action>)
    requires start == Start(9, Row(Human, false, true, false, Some(0), None))
    ensures Run(start, actions).row == Row(Human, true, true, false, Some(0), None)
    ensures Run(start, more).row == Row(AI, false, true, false, Some(0), None)
  {
    var s;
    actions, s := ThenReads(start, [], start, 0, SilenceTimeout);
    actions, s := ThenReads(start, actions, s, 1, TakeOver);
    actions, s := ThenWrites(start, actions, s, 1, TakeOver, start.row);
    more, s := ThenWrites(start, actions, s, 0, SilenceTimeout, start.row);
  }

  /** An advisor reads a human conversation, another switches the AI on, and the first one's send leaves AI mode,
      though with the AI switched off. */
  lemma SendAfterStaleRead(start: State) returns (actions: seq<Action>)
    requires start == Start(0, Row(Human, true, false, false, None, None))
    ensures Run(start, actions).row == Row(AI, false, false, false, Some(0), Some(0))
  {
    var s;
    actions, s := ThenReads(start, [], start, 0, Send);
    actions, s := ThenReads(start, actions, s, 1, Toggle(Some(true)));
    actions, s := ThenWrites(start, actions, s, 1, Toggle(Some(true)), start.row);
    actions, s := ThenWrites(start, actions, s, 0, Send, start.row);
  }

  // ---------- what a write leaves, and what timeouts see of it ----------

  /** Whatever happens in between: who answers after a request that goes on to write, and which of the other
      columns it sets. */
  lemma WritesLeave(s: State, r: nat, upToDecision: seq<Action>, timeout: int, upToWrite: seq<Action>)
    requires r in s.requests && s.requests[r].stage.Arrived? && Leaves(upToDecision, r) && Leaves(upToWrite, r)
    requires Goes(s.requests[r].kind, s.row, CourseOf(s, r, upToDecision, timeout, upToWrite).decided.clock, timeout)
    ensures var c := CourseOf(s, r, upToDecision, timeout, upToWrite);
            var before, after, kind := c.written.row, c.after.row, s.requests[r].kind;
            && (kind == TakeOver || kind == HumanReply || kind == RequestHuman ==>
                  after.mode == Human && after.locked && after.aiEnabled == before.aiEnabled)
            && (kind == SafetyTakeOver || kind == Toggle(Some(false)) ==>
                  after.mode == Human && after.locked && !after.aiEnabled)
            && (kind == Toggle(Some(true)) || kind == HandBack || kind.ReopenTimeout? ==>
                  after.mode == AI && !after.locked && after.aiEnabled)
            && (kind == Toggle(None) ==>
                  after.aiEnabled == !s.row.aiEnabled && after.locked == s.row.aiEnabled
                  && after.mode == if s.row.aiEnabled then Human else AI)
            && (kind == SilenceTimeout ==> after.mode == AI && !after.locked && after.aiEnabled == before.aiEnabled)
            && (kind == Send ==> !after.aiEnabled)
            && (kind == Send && s.row.mode != Human ==> after.mode == Human && after.locked)
            && (kind == Send && s.row.mode == Human ==> after.mode == before.mode && after.locked == before.locked)
            && after.pending == (before.pending && kind != TakeOver && kind != HumanReply && kind != SilenceTimeout
                                 && !kind.ReopenTimeout?)
            && after.lastHuman == (if kind == Send || kind == HumanReply then Some(c.written.clock) else before.lastHuman)
            && after.lastMessage == (if kind == Send || kind == HumanReply then Some(c.written.clock) else before.lastMessage)
  {
    WritesWhatItRead(s, r, upToDecision, timeout, upToWrite);
  }

  /** The instant since which the advisor counts as silent. */
  function SilentSince(row: Row): Option<int> {
    if row.lastHuman.Some? then row.lastHuman else row.lastMessage
  }

  /** No timeout goes by a row that shows an advisor's reply or message more recent than the timeout; and a
      reopening one never by a row of a conversation that was taken over without a new handover since. */
  lemma TimeoutsWait(row: Row, now: int, timeout: int, anyMode: bool)
    ensures Goes(SilenceTimeout, row, now, timeout) <==>
              row.mode == Human && !row.locked && SilentSince(row).Some? && SilentSince(row).value < now - timeout
    ensures Goes(ReopenTimeout(anyMode), row, now, timeout) ==>
              row.pending && !row.aiEnabled && row.lastHuman.Some? && row.lastHuman.value <= now - timeout
    ensures row.mode == Human && row.locked ==>
      (Goes(ReopenTimeout(anyMode), row, now, timeout) <==>
        row.pending && !row.aiEnabled && row.lastHuman.Some? && row.lastHuman.value <= now - timeout)
    ensures !(row.mode == Human && row.locked) ==> !Goes(ReopenTimeout(false), row, now, timeout)
  {
  }
}
