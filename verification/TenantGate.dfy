/** The tenant gate on channel callbacks: a cached verdict on a tenant row, kept for thirty seconds. */
module TenantGate {
  import opened Common

  const TTL: int := 30 * SECOND

  datatype Tenant = Tenant(status: string, cancelAt: Option<int>)

  const BLOCKED_STATUSES := {"suspended", "cancelled", "expired", "review"}

  /** The verdict on a row at an instant; a missing row or a failed query lets the message pass. */
  predicate Usable(row: Option<Tenant>, now: int) {
    match row
    case None => true
    case Some(t) => t.status !in BLOCKED_STATUSES && !(t.cancelAt.Some? && now > t.cancelAt.value)
  }

  /** What a query for a tenant returns, at every instant. */
  type World = (nat, int) -> Option<Tenant>

  datatype Entry = Entry(ok: bool, at: int)

  /** One call: when it looks into the cache, and how long the query and the rest of the call take. */
  datatype Call = Call(tenant: nat, at: int, toQuery: nat, toStore: nat) {
    /** The instant of the row that a fresh verdict is about. */
    function ReadAt(): int {
      at + toQuery
    }

    function StoredAt(): int {
      at + toQuery + toStore
    }
  }

  predicate Hit(cache: map<nat, Entry>, call: Call) {
    call.tenant in cache && call.at - cache[call.tenant].at < TTL
  }

  predicate Answer(w: World, cache: map<nat, Entry>, call: Call) {
    if Hit(cache, call) then cache[call.tenant].ok else Usable(w(call.tenant, call.ReadAt()), call.ReadAt())
  }

  function CacheAfter(w: World, cache: map<nat, Entry>, call: Call): map<nat, Entry> {
    if Hit(cache, call) then cache
    else cache[call.tenant := Entry(Answer(w, cache, call), call.StoredAt())]
  }

  class ChannelTenantGate {
    var cache: map<nat, Entry>

    constructor ()
      ensures cache == map[]
    {
      cache := map[];
    }

    /** `channelTenantUsable`, under the gate's mutex. */
    method ChannelTenantUsable(w: World, call: Call) returns (ok: bool)
      modifies this
      ensures ok == Answer(w, old(cache), call)
      ensures cache == CacheAfter(w, old(cache), call)
    {
      if call.tenant in cache && call.at - cache[call.tenant].at < TTL {
        return cache[call.tenant].ok;
      }
      ok := true;
      var row := w(call.tenant, call.at + call.toQuery);
      if row.Some? {
        var t := row.value;
        if t.status == "suspended" || t.status == "cancelled" || t.status == "expired" || t.status == "review" {
          ok := false;
        }
        if t.cancelAt.Some? && call.at + call.toQuery > t.cancelAt.value {
          ok := false;
        }
      }
      cache := cache[call.tenant := Entry(ok, call.at + call.toQuery + call.toStore)];
    }
  }

  // ---------- whole runs ----------

  /** The mutex lets one call in at a time: each begins when the one before is over. */
  predicate InTurn(calls: seq<Call>) {
    forall i, j :: 0 <= i < j < |calls| ==> calls[i].StoredAt() <= calls[j].at
  }

  predicate AtMost(calls: seq<Call>, latency: nat) {
    forall i :: 0 <= i < |calls| ==> calls[i].toStore <= latency
  }

  function CacheRun(w: World, calls: seq<Call>): map<nat, Entry> {
    if calls == [] then map[] else CacheAfter(w, CacheRun(w, calls[..|calls| - 1]), calls[|calls| - 1])
  }

  /** The answer to the last of a run of calls. */
  predicate LastAnswer(w: World, calls: seq<Call>)
    requires calls != []
  {
    Answer(w, CacheRun(w, calls[..|calls| - 1]), calls[|calls| - 1])
  }

  /** `ok` is the verdict on the tenant's row at some instant after `from` and not after `to`. */
  ghost predicate VerdictBetween(w: World, tenant: nat, ok: bool, from: int, to: int) {
    exists q: int :: from < q <= to && ok == Usable(w(tenant, q), q)
  }

  /** Every entry was the verdict at an instant at most `latency` before its time stamp, and was stored
      before `now`. */
  ghost predicate CacheOk(w: World, cache: map<nat, Entry>, latency: nat, now: int) {
    forall t :: t in cache ==>
      (cache[t].at <= now && VerdictBetween(w, t, cache[t].ok, cache[t].at - latency - 1, cache[t].at))
  }

  lemma AnswerFits(w: World, cache: map<nat, Entry>, call: Call, latency: nat)
    requires CacheOk(w, cache, latency, call.at) && call.toStore <= latency
    ensures VerdictBetween(w, call.tenant, Answer(w, cache, call), call.at - TTL - latency, call.StoredAt())
    ensures CacheOk(w, CacheAfter(w, cache, call), latency, call.StoredAt())
  {
    var t := call.tenant;
    if Hit(cache, call) {
      var q :| cache[t].at - latency - 1 < q <= cache[t].at && cache[t].ok == Usable(w(t, q), q);
      assert call.at - TTL - latency < q <= call.StoredAt();
    } else {
      var q := call.ReadAt();
      assert call.StoredAt() - latency - 1 < q <= call.StoredAt() && call.at - TTL - latency < q;
      assert Answer(w, cache, call) == Usable(w(t, q), q);
    }
  }

  lemma {:induction false} CacheRunOk(w: World, calls: seq<Call>, latency: nat, now: int)
    requires InTurn(calls) && AtMost(calls, latency)
    requires forall i :: 0 <= i < |calls| ==> calls[i].StoredAt() <= now
    ensures CacheOk(w, CacheRun(w, calls), latency, now)
  {
    if calls != [] {
      var init, last := calls[..|calls| - 1], calls[|calls| - 1];
      CacheRunOk(w, init, latency, last.at);
      AnswerFits(w, CacheRun(w, init), last, latency);
    }
  }

  /** Every answer is the verdict on the tenant's row at some instant less than thirty seconds, plus the
      longest time from reading a row to stamping its entry, before the call. */
  lemma NeverStale(w: World, calls: seq<Call>, latency: nat)
    requires calls != [] && InTurn(calls) && AtMost(calls, latency)
    ensures var last := calls[|calls| - 1];
            VerdictBetween(w, last.tenant, LastAnswer(w, calls), last.at - 30 * SECOND - latency, last.StoredAt())
  {
    var init, last := calls[..|calls| - 1], calls[|calls| - 1];
    CacheRunOk(w, init, latency, last.at);
    AnswerFits(w, CacheRun(w, init), last, latency);
  }

  /** The tenant is blocked at every instant from after `from` up to `to`. */
  ghost predicate BlockedBetween(w: World, tenant: nat, from: int, to: int) {
    forall q: int :: from < q <= to ==> !Usable(w(tenant, q), q)
  }

  /** The promise: a tenant blocked for the last thirty seconds is refused. */
  ghost predicate RefusedAfterThirtySeconds(w: World, calls: seq<Call>)
    requires calls != []
  {
    var last := calls[|calls| - 1];
    BlockedBetween(w, last.tenant, last.at - 30 * SECOND, last.StoredAt()) ==> !LastAnswer(w, calls)
  }

  /** The promise holds over all runs exactly when an entry is stamped at the instant its row was read:
      the stamp is taken after the query, so the time the query takes is added to the thirty seconds. */
  lemma PromiseIff(latency: nat)
    ensures latency == 0 <==>
      forall w: World, calls: seq<Call> :: calls != [] && InTurn(calls) && AtMost(calls, latency) ==> RefusedAfterThirtySeconds(w, calls)
  {
    if latency == 0 {
      forall w: World, calls: seq<Call> | calls != [] && InTurn(calls) && AtMost(calls, latency)
        ensures RefusedAfterThirtySeconds(w, calls)
      {
        NeverStale(w, calls, latency);
      }
    } else {
      LateStamp(latency);
    }
  }

  /** A tenant read just before it is blocked, by a query that takes a while. */
  lemma LateStamp(latency: nat)
    requires latency > 0
    ensures exists w: World, calls: seq<Call> ::
      calls != [] && InTurn(calls) && AtMost(calls, latency) && !RefusedAfterThirtySeconds(w, calls)
  {
    var w: World := (t, q) => Some(Tenant(if q < 1 then "active" else "suspended", None));
    var first, last := Call(7, 0, 0, latency), Call(7, latency + TTL - 1, 0, 0);
    var calls := [first, last];
    assert calls[..1] == [first] && [first][..0] == [];
    assert CacheRun(w, [first]) == map[7 := Entry(true, latency)];
    assert LastAnswer(w, calls);
    assert BlockedBetween(w, 7, last.at - TTL, last.StoredAt());
    assert !RefusedAfterThirtySeconds(w, calls);
  }

  /** A tenant is refused exactly while its status is one of these four, or once its cancellation has taken effect;
      a tenant that cannot be found is not. */
  lemma RefusedIff(row: Option<Tenant>, now: int)
    ensures !Usable(row, now) <==>
      row.Some? && (row.value.status == "suspended" || row.value.status == "cancelled" || row.value.status == "expired"
                    || row.value.status == "review" || (row.value.cancelAt.Some? && row.value.cancelAt.value < now))
  {
  }

  /** For thirty seconds after it was stamped a verdict stands, whatever happens to the row. */
  lemma VerdictStands(w: World, calls: seq<Call>, again: Call)
    requires calls != [] && again.tenant == calls[|calls| - 1].tenant
    requires !Hit(CacheRun(w, calls[..|calls| - 1]), calls[|calls| - 1])
    ensures calls[|calls| - 1].StoredAt() <= again.at < calls[|calls| - 1].StoredAt() + 30 * SECOND
      ==> LastAnswer(w, calls + [again]) == LastAnswer(w, calls)
    ensures again.at >= calls[|calls| - 1].StoredAt() + 30 * SECOND
      ==> LastAnswer(w, calls + [again]) == Usable(w(again.tenant, again.ReadAt()), again.ReadAt())
  {
    var all := calls + [again];
    assert all[..|all| - 1] == calls && all[|all| - 1] == again;
  }
}
