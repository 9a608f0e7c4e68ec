// The store object whose methods are the transactions, and one worker's delivery loop over it.
module OutboxStore {
  import opened Common
  import opened Outbox
  import opened OutboxProtocol

  const SUCCESS_CLAIMS_PER_PASS: nat := 8

  /** What the world contributes to one delivery attempt: a token, clocks, the signer's and the receiver's answers. */
  datatype Trip = Trip(token: Uuid, claimed: Clock, signs: bool, renewed: int, status: Option<nat>, jitter: nat, settled: Clock)

  predicate ValidTrip(trip: Trip) {
    trip.jitter < 15000
  }

  /** One delivery attempt by a worker that is alone. */
  function Attempt(db: Db, c: ClientId, trip: Trip): (Db, bool)
    requires ValidTrip(trip)
  {
    var (claimed, taken) := TryClaim(db, c, trip.token, trip.claimed);
    if taken.None? then (claimed, false) else
    var claim := taken.value;
    var ids := BatchIds(claim.events, Min(Portion(claim), |claim.events|));
    if Unsendable(claim) then (TrySettle(claimed, claim, ids, Kill, trip.settled).0, false)
    else if !trip.signs then (TrySettle(claimed, claim, ids, OutcomeOf(claim, None, trip.jitter), trip.settled).0, false)
    else
      var (renewed, ok) := TryRenew(claimed, claim, trip.renewed);
      if !ok then (renewed, false) else
      var outcome := OutcomeOf(claim, trip.status, trip.jitter);
      var (after, settled) := TrySettle(renewed, claim, ids, outcome, trip.settled);
      (after, settled && outcome.Deliver?)
  }

  /** Attempts follow one another only while they deliver. */
  function Drained(db: Db, c: ClientId, trips: seq<Trip>): Db
    requires forall t :: t in trips ==> ValidTrip(t)
    decreases |trips|
  {
    if trips == [] then db else
    var (after, more) := Attempt(db, c, trips[0]);
    if more then Drained(after, c, trips[1..]) else after
  }

  lemma RestOfDrain(db: Db, c: ClientId, trips: seq<Trip>, i: nat)
    requires i < |trips| && forall t :: t in trips ==> ValidTrip(t)
    ensures var (after, more) := Attempt(db, c, trips[i]);
            Drained(db, c, trips[i..]) == if more then Drained(after, c, trips[i + 1..]) else after
  {
    assert trips[i..][1..] == trips[i + 1..];
  }

  /** One attempt is a run of the protocol, so every theorem about runs covers it. */
  lemma AttemptIsRun(s: System, w: nat, c: ClientId, trip: Trip) returns (steps: seq<Step>)
    requires ValidTrip(trip) && PhaseOf(s, w).Idle? && trip.token !in s.issued
    requires s.wall <= trip.claimed.wall <= trip.renewed <= trip.settled.wall
    requires trip.claimed.start <= trip.claimed.wall && trip.settled.start <= trip.settled.wall
    ensures ValidRun(s, steps) && Run(s, steps).db == Attempt(s.db, c, trip).0 && PhaseOf(Run(s, steps), w).Idle?
  {
    var take := Take(w, c, trip.token, trip.claimed);
    var t := Next(s, take);
    var taken := TryClaim(s.db, c, trip.token, trip.claimed).1;
    if taken.None? {
      steps := [take];
      assert Run(t, []) == t;
    } else if Unsendable(taken.value) {
      steps := [take, Discard(w, trip.settled)];
      LastStep(t, steps[1]);
    } else if !trip.signs {
      steps := [take, SigningFails(w, trip.jitter, trip.settled)];
      LastStep(t, steps[1]);
    } else {
      var renew := Renew(w, Clock(trip.renewed, trip.renewed));
      var u := Next(t, renew);
      if TryRenew(t.db, taken.value, trip.renewed).1 {
        var answer, finish := Answer(w, trip.status, trip.jitter), Finish(w, trip.settled);
        var x := Next(u, answer);
        LastStep(x, finish);
        assert [answer, finish][1..] == [finish];
        assert ValidRun(u, [answer, finish]) && Run(u, [answer, finish]) == Next(x, finish);
        assert [renew, answer, finish][1..] == [answer, finish];
        assert ValidRun(t, [renew, answer, finish]) && Run(t, [renew, answer, finish]) == Next(x, finish);
        steps := [take, renew, answer, finish];
        assert steps[1..] == [renew, answer, finish];
      } else {
        steps := [take, renew];
        LastStep(t, renew);
      }
    }
  }

  lemma LastStep(s: System, step: Step)
    requires Enabled(s, step)
    ensures ValidRun(s, [step]) && Run(s, [step]) == Next(s, step)
  {
    assert Run(Next(s, step), [step][1..]) == Next(s, step);
  }

  /** The oldest rows that are due and fit together; a row that failed before travels alone. */
  method BoundedBatch(rows: seq<PendingRow>) returns (batch: seq<PendingRow>)
    ensures batch == rows[..BatchSize(rows)]
  {
    batch := [];
    var limit := if rows != [] && rows[0].row.attempts > 0 then 1 else BATCH_MAX;
    for i := 0 to Min(|rows|, limit)
      invariant i <= BatchLimit(rows)
      invariant batch == rows[..i]
      invariant forall k :: 0 <= k < i ==> Extends(rows, k)
      invariant BatchFrom(rows, i) == BatchSize(rows)
    {
      if !rows[i].due {
        break;
      }
      assert Wires(batch + [rows[i]]) == Wires(rows[..i + 1]);
      if ArrayBytes(Wires(batch + [rows[i]])) > EVENT_BYTES_MAX {
        break;
      }
      batch := batch + [rows[i]];
    }
  }

  class PostgresOutboxStore {
    var rows: seq<Row>
    var dests: map<ClientId, Destination>
    var clients: map<ClientId, Endpoint>

    constructor (clients: map<ClientId, Endpoint>)
      ensures State() == Db([], map[], clients)
    {
      this.rows, this.dests, this.clients := [], map[], clients;
    }

    function State(): Db
      reads this
    {
      Db(rows, dests, clients)
    }

    /** All events become pending rows in one transaction, or nothing changes. */
    method InsertEvents(c: ClientId, events: seq<Outbound>, start: int) returns (r: Result<seq<Uuid>, OutboxError>)
      modifies this
      ensures match Insert(old(State()), c, events, start)
              case Success(db) => State() == db && r.Success? && |r.value| == |events| &&
                                  forall i :: 0 <= i < |events| ==> events[i].Event? && r.value[i] == events[i].id
              case Failure(e) => State() == old(State()) && r == Failure(e)
    {
      for i := 0 to |events|
        invariant NormalizeAll(events) == NormalizeAll(events[i..])
        invariant forall k :: 0 <= k < i ==> events[k].Event?
      {
        var problem := Normalize(events[i]);
        if problem.Some? {
          return Failure(problem.value);
        }
      }
      NormalizedEvents(events);
      var ids := seq(|events|, i requires 0 <= i < |events| => events[i].id);
      if events == [] {
        return Success(ids);
      }
      var table := rows;
      for i := 0 to |events|
        invariant rows == old(rows) && dests == old(dests) && clients == old(clients)
        invariant InsertRows(rows, c, events, start) == InsertRows(table, c, events[i..], start)
      {
        if events[i].id !in Ids(table) {
          table := table + [FreshRow(c, events[i], start)];
        } else if !exists r :: r in table && SameEvent(r, c, events[i]) {
          return Failure(EventIdConflict);
        }
        assert events[i..][1..] == events[i + 1..];
      }
      rows, dests := table, LockDestination(dests, c, start);
      r := Success(ids);
    }

    method Claim(c: ClientId, token: Uuid, clock: Clock) returns (claim: Option<Claim>)
      modifies this
      ensures (State(), claim) == TryClaim(old(State()), c, token, clock)
    {
      if c !in dests || dests[c].due > clock.start || !Expired(dests[c], clock.wall) {
        return None;
      }
      var failures := dests[c].failures;
      dests := dests[c := dests[c].(lease := Some(Lease(token, clock.wall + LEASE_MS)))];
      var pending := Select(rows, c, Live);
      if pending == [] || pending[0].due > clock.start {
        ReleaseLease(c, token, failures, clock.start);
        return None;
      }
      var uri := if c in clients then clients[c].uri else None;
      var disabled := c !in clients || clients[c].disabled;
      claim := Some(Outbox.Claim(c, token, uri, disabled, failures, Snapshot(pending, clock.start)));
    }

    method Renew(claim: Claim, wall: int) returns (ok: bool)
      modifies this
      ensures (State(), ok) == TryRenew(old(State()), claim, wall)
    {
      ok := CanRenew(State(), claim, wall);
      if ok {
        dests := dests[claim.client := dests[claim.client].(lease := Some(Lease(claim.token, wall + LEASE_MS)))];
      }
    }

    method Settle(claim: Claim, ids: set<Uuid>, o: Settlement, clock: Clock) returns (ok: bool)
      modifies this
      ensures (State(), ok) == TrySettle(old(State()), claim, ids, o, clock)
    {
      if !LiveLease(State(), claim.client, claim.token, clock.wall) {
        return false;
      }
      rows := SettleRows(rows, claim.client, ids, o, clock.start);
      ReleaseLease(claim.client, claim.token, if o.Retry? then Min(claim.failures + 1, MAX_ATTEMPTS) else 0, clock.start);
      ok := true;
    }

    method ReleaseLease(c: ClientId, token: Uuid, failures: nat, start: int)
      modifies this
      ensures State() == Release(old(State()), c, token, failures, start)
    {
      if HoldsLease(State(), c, token) {
        var pending := Select(rows, c, Live);
        dests := dests[c := Destination(None, if pending == [] then start else pending[0].due, failures)];
      }
    }

    /** One delivery attempt; true when a batch was acknowledged and recorded. */
    method DeliverDestination(c: ClientId, trip: Trip) returns (more: bool)
      requires ValidTrip(trip)
      modifies this
      ensures (State(), more) == Attempt(old(State()), c, trip)
    {
      var taken := Claim(c, trip.token, trip.claimed);
      if taken.None? {
        return false;
      }
      var claim := taken.value;
      var batch := BoundedBatch(claim.events);
      if batch == [] {
        if claim.events != [] && claim.events[0].due {
          assert BatchIds(claim.events, 1) == {claim.events[0].row.id};
          var _ := Settle(claim, {claim.events[0].row.id}, Kill, trip.settled);
        }
        return false;
      }
      var ids := BatchIds(claim.events, |batch|);
      if claim.uri.None? || claim.disabled {
        var _ := Settle(claim, ids, Kill, trip.settled);
        return false;
      }
      if !trip.signs {
        var _ := Settle(claim, ids, Retry(BackoffMs(claim.failures + 1, trip.jitter)), trip.settled);
        return false;
      }
      var renewed := Renew(claim, trip.renewed);
      if !renewed {
        return false;
      }
      var outcome := if trip.status == Some(204) then Deliver else Retry(BackoffMs(claim.failures + 1, trip.jitter));
      var settled := Settle(claim, ids, outcome, trip.settled);
      more := settled && outcome.Deliver?;
    }

    /** At most eight attempts, stopping at the first that does not deliver; the pump stops when `trips` ends. */
    method DrainDestination(c: ClientId, trips: seq<Trip>)
      requires forall t :: t in trips ==> ValidTrip(t)
      modifies this
      ensures State() == Drained(old(State()), c, if |trips| > 8 then trips[..8] else trips)
    {
      ghost var pass := if |trips| > 8 then trips[..8] else trips;
      ghost var end := Drained(old(State()), c, pass);
      assert pass[0..] == pass;
      for i := 0 to SUCCESS_CLAIMS_PER_PASS
        invariant i <= |pass| && Drained(State(), c, pass[i..]) == end
      {
        if i == |trips| {
          return;
        }
        RestOfDrain(State(), c, pass, i);
        var more := DeliverDestination(c, trips[i]);
        if !more {
          return;
        }
      }
    }
  }
}
