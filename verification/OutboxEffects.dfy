// What each outbox transaction does, field by field, and when a failed delivery
// may be tried again.
module OutboxEffects {
  import opened Common
  import opened Outbox
  import opened OutboxRows
  import opened OutboxProtocol
  import opened OutboxStore

  // ---------------------------------------------------------------- enqueueing

  predicate Storable(e: Outbound) {
    e.Event? && 0 < |e.wire.kind| <= 200 && e.version <= 9223372036854775807 && 2 + e.wire.bytes <= 65536
  }

  lemma OneEventBytes(w: Wire)
    ensures ArrayBytes([w]) == 2 + w.bytes
  {
    assert [w][..0] == [];
    assert SumBytes([w]) == SumBytes([]) + w.bytes;
  }

  /** Exactly the lists of storable events pass validation. */
  lemma {:induction false} ValidationIsExact(events: seq<Outbound>)
    ensures NormalizeAll(events).None? <==> forall e :: e in events ==> Storable(e)
    ensures NormalizeAll(events).Some? ==> NormalizeAll(events).value != EventIdConflict
  {
    if events != [] {
      ValidationIsExact(events[1..]);
      if events[0].Event? {
        OneEventBytes(events[0].wire);
      }
      assert Normalize(events[0]).None? <==> Storable(events[0]);
      assert events[0] in events;
      assert forall e :: e in events <==> e == events[0] || e in events[1..];
    }
  }

  /** A new row: pending, never tried, due at once. */
  predicate IsNewRow(r: Row, c: ClientId, events: seq<Outbound>, start: int) {
    && r.client == c && r.status == Pending && r.attempts == 0 && r.due == start
    && exists e :: e in events && e.Event? && e.id == r.id && e.wire == r.wire && e.version == r.version
  }

  predicate StoredAs(rows: seq<Row>, c: ClientId, e: Outbound) {
    e.Event? && exists r :: r in rows && r.id == e.id && r.client == c && r.wire == e.wire && r.version == e.version
  }

  /** Only new rows are appended, each once, in the order of the events, and every event is stored afterwards. */
  lemma {:induction false} RowsAreInserted(rows: seq<Row>, c: ClientId, events: seq<Outbound>, start: int)
    requires forall e :: e in events ==> e.Event?
    ensures InsertRows(rows, c, events, start).Some? ==>
              var after := InsertRows(rows, c, events, start).value;
              && rows <= after
              && (forall i :: |rows| <= i < |after| ==> IsNewRow(after[i], c, events, start) && after[i].id !in Ids(rows))
              && (forall e :: e in events ==> StoredAs(after, c, e))
    decreases |events|
  {
    if events != [] {
      var e, rest := events[0], events[1..];
      assert forall x :: x in events <==> x == e || x in rest;
      var grown := if e.id !in Ids(rows) then rows + [FreshRow(c, e, start)] else rows;
      RowsAreInserted(grown, c, rest, start);
      if InsertRows(rows, c, events, start).Some? {
        var after := InsertRows(rows, c, events, start).value;
        assert InsertRows(grown, c, rest, start) == Some(after);
        assert StoredAs(grown, c, e) by {
          if e.id !in Ids(rows) {
            assert grown[|rows|] in grown;
          }
        }
        assert forall r :: r in grown ==> r in after;
        assert StoredAs(after, c, e);
        forall i | |rows| <= i < |after| ensures IsNewRow(after[i], c, events, start) && after[i].id !in Ids(rows) {
          if i < |grown| {
            assert after[i] == grown[i] == FreshRow(c, e, start);
          } else {
            assert IsNewRow(after[i], c, rest, start) && after[i].id !in Ids(grown);
            assert forall k :: 0 <= k < |rows| ==> grown[k] == rows[k];
          }
        }
      }
    }
  }

  ghost predicate AllNew(rows: seq<Row>, events: seq<Outbound>) {
    && (forall e :: e in events ==> e.Event? && e.id !in Ids(rows))
    && (forall i, j :: 0 <= i < j < |events| ==> events[i].id != events[j].id)
  }

  lemma RestIsNew(rows: seq<Row>, c: ClientId, events: seq<Outbound>, start: int)
    requires events != [] && AllNew(rows, events)
    ensures AllNew(rows + [FreshRow(c, events[0], start)], events[1..])
  {
    var row := FreshRow(c, events[0], start);
    GrownIds(rows, row);
    forall e | e in events[1..] ensures e.Event? && e.id !in Ids(rows + [row]) {
      var k :| 0 <= k < |events[1..]| && events[1..][k] == e;
      assert events[k + 1] == e && e in events;
    }
  }

  /** One row for each event: pending, never tried, due at once. */
  function NewRows(c: ClientId, events: seq<Outbound>, start: int): seq<Row>
    requires forall e :: e in events ==> e.Event?
    decreases |events|
  {
    if events == [] then [] else
    var e := events[0];
    assert e in events;
    [Row(e.id, c, e.wire, e.version, Pending, 0, start)] + NewRows(c, events[1..], start)
  }

  /** Distinct new events are appended as one new row each, in their order. */
  lemma {:induction false} NewEventsKeepTheirOrder(rows: seq<Row>, c: ClientId, events: seq<Outbound>, start: int)
    requires AllNew(rows, events)
    ensures InsertRows(rows, c, events, start) == Some(rows + NewRows(c, events, start))
    decreases |events|
  {
    if events != [] {
      RestIsNew(rows, c, events, start);
      assert events[0] in events;
      var row := FreshRow(c, events[0], start);
      NewEventsKeepTheirOrder(rows + [row], c, events[1..], start);
      assert (rows + [row]) + NewRows(c, events[1..], start) == rows + ([row] + NewRows(c, events[1..], start));
    } else {
      assert rows + [] == rows;
    }
  }

  /** Two meanings of one id. */
  predicate Conflict(rows: seq<Row>, c: ClientId, events: seq<Outbound>, e: Outbound) {
    && e in events && e.Event?
    && ((e.id in Ids(rows) && !StoredAs(rows, c, e)) || exists f :: f in events && f.Event? && f.id == e.id && f != e)
  }

  lemma GrownIds(rows: seq<Row>, row: Row)
    ensures forall id :: id in Ids(rows + [row]) <==> id in Ids(rows) || id == row.id
  {
    var grown := rows + [row];
    assert grown[|rows|] == row;
    forall id | id in Ids(rows) ensures id in Ids(grown) {
      var k :| 0 <= k < |rows| && rows[k].id == id;
      assert grown[k].id == id;
    }
  }

  /** An insert is refused only if some id stands for two different things. */
  lemma {:induction false} RefusedOnlyForAConflict(rows: seq<Row>, c: ClientId, events: seq<Outbound>, start: int)
    requires forall e :: e in events ==> e.Event?
    requires InsertRows(rows, c, events, start).None?
    ensures exists e :: Conflict(rows, c, events, e)
    decreases |events|
  {
    var e, rest := events[0], events[1..];
    assert forall x :: x in events <==> x == e || x in rest;
    if e.id !in Ids(rows) {
      var row := FreshRow(c, e, start);
      var grown := rows + [row];
      GrownIds(rows, row);
      RefusedOnlyForAConflict(grown, c, rest, start);
      var x :| Conflict(grown, c, rest, x);
      assert grown[|rows|] == row && row in grown && forall r :: r in rows ==> r in grown;
      assert Conflict(rows, c, events, x);
    } else if StoredAs(rows, c, e) {
      RefusedOnlyForAConflict(rows, c, rest, start);
      var x :| Conflict(rows, c, rest, x);
      assert Conflict(rows, c, events, x);
    } else {
      assert Conflict(rows, c, events, e);
    }
  }

  /** Which error an event has, and that a list has that of its first bad event. */
  lemma {:induction false} ErrorsAreNamed(events: seq<Outbound>, k: nat)
    requires k < |events| && !Storable(events[k]) && forall i :: 0 <= i < k ==> Storable(events[i])
    ensures NormalizeAll(events) ==
              Some(if events[k].Event? && 0 < |events[k].wire.kind| <= 200 && events[k].version <= 9223372036854775807 then EventTooLarge else InvalidEvent)
  {
    if events[0].Event? {
      OneEventBytes(events[0].wire);
    }
    if k > 0 {
      ErrorsAreNamed(events[1..], k - 1);
    }
  }

  /** An enqueueing is refused for a bad event or a conflict; otherwise it stores the events and makes sure of their destination, due at once if it is new. */
  lemma EnqueueIsExact(db: Db, c: ClientId, events: seq<Outbound>, start: int)
    ensures var r := Insert(db, c, events, start);
            && (r == Failure(EventIdConflict) ==> (forall e :: e in events ==> Storable(e)) && exists e :: Conflict(db.rows, c, events, e))
            && (r.Failure? && r.error != EventIdConflict ==> NormalizeAll(events) == Some(r.error) && !(forall e :: e in events ==> Storable(e)))
            && (r.Success? && events == [] ==> r.value == db)
            && (r.Success? && events != [] ==>
                  && (forall e :: e in events ==> Storable(e)) && InsertRows(db.rows, c, events, start) == Some(r.value.rows)
                  && r.value.clients == db.clients
                  && r.value.dests == if c in db.dests then db.dests else db.dests[c := Destination(None, start, 0)])
  {
    ValidationIsExact(events);
    if NormalizeAll(events).None? && InsertRows(db.rows, c, events, start).None? {
      RefusedOnlyForAConflict(db.rows, c, events, start);
    }
  }

  // ---------------------------------------------------------------- claiming and renewing

  /** A destination is claimed exactly when it is due, nobody holds a live lease of it, and its oldest pending row is due. */
  lemma ClaimIsExact(db: Db, c: ClientId, token: Uuid, clock: Clock)
    ensures var q := Queue(db, c);
            TryClaim(db, c, token, clock).1.Some? <==>
              && c in db.dests && db.dests[c].due <= clock.start
              && (db.dests[c].lease.Some? ==> db.dests[c].lease.value.until <= clock.wall)
              && q != [] && q[0].due <= clock.start
  {
  }

  /** What a claim hands out: a lease of 30 s, and the oldest hundred pending rows with the endpoint as it stands. */
  lemma ClaimHandsOut(db: Db, c: ClientId, token: Uuid, clock: Clock)
    requires TryClaim(db, c, token, clock).1.Some?
    ensures var (after, taken) := TryClaim(db, c, token, clock);
            var claim, q := taken.value, Queue(db, c);
            && after == db.(dests := db.dests[c := Destination(Some(Lease(token, clock.wall + 30000)), db.dests[c].due, db.dests[c].failures)])
            && claim.client == c && claim.token == token && claim.failures == db.dests[c].failures
            && |claim.events| == (if |q| < 100 then |q| else 100)
            && (forall i :: 0 <= i < |claim.events| ==> claim.events[i].row == q[i] && (claim.events[i].due <==> q[i].due <= clock.start))
            && claim.uri == (if c in db.clients then db.clients[c].uri else None)
            && (claim.disabled <==> c !in db.clients || db.clients[c].disabled)
  {
  }

  /** A claim that finds nothing to do gives its lease back and sleeps until the head of the queue is due. */
  lemma FruitlessClaimSleeps(db: Db, c: ClientId, token: Uuid, clock: Clock)
    requires TryClaim(db, c, token, clock).1.None?
    ensures var after := TryClaim(db, c, token, clock).0;
            && after.rows == db.rows && after.clients == db.clients && after.dests.Keys == db.dests.Keys
            && (forall d :: d in db.dests && d != c ==> after.dests[d] == db.dests[d])
            && (after.dests != db.dests ==>
                  after.dests[c] == Destination(None, if Queue(db, c) == [] then clock.start else Queue(db, c)[0].due, db.dests[c].failures))
  {
  }

  /** A lease is renewed for 30 s exactly while it lives, its client is enabled and its endpoint is the one claimed. */
  lemma RenewalIsExact(db: Db, claim: Claim, wall: int)
    ensures var (after, ok) := TryRenew(db, claim, wall);
            && (ok <==>
                  && claim.client in db.dests && db.dests[claim.client].lease.Some?
                  && db.dests[claim.client].lease.value.token == claim.token && db.dests[claim.client].lease.value.until > wall
                  && claim.client in db.clients && !db.clients[claim.client].disabled
                  && claim.uri.Some? && db.clients[claim.client].uri == claim.uri)
            && (!ok ==> after == db)
            && (ok ==> after == db.(dests := db.dests[claim.client :=
                         db.dests[claim.client].(lease := Some(Lease(claim.token, wall + 30000)))]))
  {
  }

  // ---------------------------------------------------------------- batches and delays

  /** Bytes of the array of the first `n` events: brackets, events, commas. */
  function Bytes(rows: seq<PendingRow>, n: nat): nat
    requires n <= |rows|
  {
    if n == 0 then 2 else Bytes(rows, n - 1) + rows[n - 1].row.wire.bytes + (if n == 1 then 0 else 1)
  }

  lemma {:induction false} BytesOfPrefix(rows: seq<PendingRow>, n: nat)
    requires n <= |rows|
    ensures ArrayBytes(Wires(rows[..n])) == Bytes(rows, n)
  {
    if n > 0 {
      BytesOfPrefix(rows, n - 1);
      var wires := Wires(rows[..n]);
      assert wires[..n - 1] == Wires(rows[..n - 1]);
      assert wires[n - 1] == rows[n - 1].row.wire;
    }
  }

  /** A batch takes every due row from the front that fits 64 KiB, a hundred at most, and a head that failed before alone. */
  lemma BatchIsLongest(rows: seq<PendingRow>)
    ensures var n := BatchSize(rows);
            && n <= |rows| && n <= 100
            && (forall i :: 0 <= i < n ==> rows[i].due && Bytes(rows, i + 1) <= 65536)
            && (rows != [] && rows[0].row.attempts > 0 ==> n <= 1)
            && (n == |rows| || n == 100 || (n == 1 && rows[0].row.attempts > 0) || !rows[n].due || Bytes(rows, n + 1) > 65536)
  {
    var n := BatchSize(rows);
    forall i | 0 <= i < |rows| ensures Extends(rows, i) <==> rows[i].due && Bytes(rows, i + 1) <= 65536 {
      BytesOfPrefix(rows, i + 1);
    }
    BatchBounds(rows, n);
  }

  lemma BatchBounds(rows: seq<PendingRow>, n: nat)
    requires IsBatch(rows, n)
    ensures n <= |rows| && n <= 100 && (rows != [] && rows[0].row.attempts > 0 ==> n <= 1)
    ensures forall i :: 0 <= i < n ==> Extends(rows, i)
    ensures n == |rows| || n == 100 || (n == 1 && rows[0].row.attempts > 0) || !Extends(rows, n)
  {
  }

  /** The delay is its exponential part, at most an hour, plus the jitter. */
  lemma JitterIsAdded(failures: nat, jitter: nat)
    requires jitter < 15000
    ensures BackoffMs(failures, jitter) == BackoffMs(failures, 0) + jitter && 60000 <= BackoffMs(failures, 0) <= 3600000
  {
    PowersOfTwo();
  }

  /** Only a 204 delivers; anything else is retried after the delay of one more failure. */
  lemma OutcomeIsExact(claim: Claim, status: Option<nat>, jitter: nat)
    requires jitter < 15000
    ensures OutcomeOf(claim, status, jitter).Deliver? <==> status == Some(204)
    ensures status != Some(204) ==> OutcomeOf(claim, status, jitter) == Retry(BackoffMs(claim.failures + 1, jitter))
  {
  }

  // ---------------------------------------------------------------- settling

  predicate Named(r: Row, c: ClientId, ids: set<Uuid>) {
    r.client == c && r.id in ids && r.status.Pending?
  }

  /** The fate of one row: only named pending rows change, and a retry postpones them by its delay and counts. */
  predicate Fate(r: Row, after: Row, c: ClientId, ids: set<Uuid>, o: Settlement, start: int) {
    && after.id == r.id && after.client == r.client && after.wire == r.wire && after.version == r.version
    && (!Named(r, c, ids) ==> after == r)
    && (Named(r, c, ids) && o.Deliver? ==> after.status == Delivered && after.attempts == r.attempts && after.due == r.due)
    && (Named(r, c, ids) && o.Kill? ==> after.status == Dead && after.attempts == r.attempts && after.due == r.due)
    && (Named(r, c, ids) && o.Retry? ==>
          && after.attempts == r.attempts + 1 && after.due == start + o.delay
          && after.status == (if r.attempts + 1 >= 50 then Dead else Pending))
  }

  /** The failures a destination remembers: one more after a retry, at most 50, none after anything else. */
  function Remembered(failures: nat, o: Settlement): nat {
    if !o.Retry? then 0 else if failures >= 50 then 50 else failures + 1
  }

  /** A settlement under the live lease: every row meets its fate, the lease is given back, and the destination sleeps until its new head is due. */
  lemma SettlementIsExact(db: Db, claim: Claim, ids: set<Uuid>, o: Settlement, clock: Clock)
    ensures var (after, ok) := TrySettle(db, claim, ids, o, clock);
            && (ok <==> && claim.client in db.dests && db.dests[claim.client].lease.Some?
                        && db.dests[claim.client].lease.value.token == claim.token && db.dests[claim.client].lease.value.until > clock.wall)
            && (!ok ==> after == db)
            && (ok ==>
                  && |after.rows| == |db.rows|
                  && (forall i :: 0 <= i < |db.rows| ==> Fate(db.rows[i], after.rows[i], claim.client, ids, o, clock.start))
                  && after.clients == db.clients && after.dests.Keys == db.dests.Keys
                  && (forall d :: d in db.dests && d != claim.client ==> after.dests[d] == db.dests[d])
                  && after.dests[claim.client] ==
                       Destination(None, if Queue(after, claim.client) == [] then clock.start else Queue(after, claim.client)[0].due,
                                   Remembered(claim.failures, o)))
  {
  }

  /** After a retry the head of the queue, if it survives, and so its destination, is due exactly after the delay. */
  lemma RetryPostponesTheDestination(db: Db, claim: Claim, ids: set<Uuid>, delay: int, clock: Clock)
    requires TrySettle(db, claim, ids, Retry(delay), clock).1
    requires Queue(db, claim.client) != [] && Queue(db, claim.client)[0].id in ids && Queue(db, claim.client)[0].attempts + 1 < 50
    ensures var after := TrySettle(db, claim, ids, Retry(delay), clock).0;
            && Queue(after, claim.client) != [] && Queue(after, claim.client)[0].id == Queue(db, claim.client)[0].id
            && Queue(after, claim.client)[0].due == clock.start + delay == after.dests[claim.client].due
            && after.dests[claim.client].lease.None?
  {
    var after := TrySettle(db, claim, ids, Retry(delay), clock).0;
    HeadSurvives(db.rows, claim.client, ids, delay, clock.start);
    assert after.rows == SettleRows(db.rows, claim.client, ids, Retry(delay), clock.start);
  }

  lemma {:induction false} HeadSurvives(rows: seq<Row>, c: ClientId, ids: set<Uuid>, delay: int, start: int)
    requires Select(rows, c, Live) != [] && Select(rows, c, Live)[0].id in ids && Select(rows, c, Live)[0].attempts + 1 < 50
    ensures var q, after := Select(rows, c, Live), Select(SettleRows(rows, c, ids, Retry(delay), start), c, Live);
            after != [] && after[0].id == q[0].id && after[0].due == start + delay
  {
    var settled := SettleRows(rows, c, ids, Retry(delay), start);
    assert settled[1..] == SettleRows(rows[1..], c, ids, Retry(delay), start);
    if !InView(rows[0], c, Live) {
      HeadSurvives(rows[1..], c, ids, delay, start);
    }
  }

  // ---------------------------------------------------------------- no delivery before its time

  /** Nobody holds the destination and it sleeps until `due`. */
  predicate Asleep(db: Db, c: ClientId, due: int) {
    c in db.dests && db.dests[c].lease.None? && db.dests[c].due >= due
  }

  /** A step that does not try the destination at or after `due`. */
  predicate Before(step: Step, c: ClientId, due: int) {
    step.Take? && step.c == c ==> step.clock.start < due
  }

  lemma SleepLasts(s: System, step: Step, c: ClientId, due: int)
    requires Enabled(s, step) && Asleep(s.db, c, due) && Before(step, c, due)
    ensures Asleep(Next(s, step).db, c, due)
    ensures step.Take? && step.c == c ==> TryClaim(s.db, c, step.token, step.clock) == (s.db, None)
  {
    match step
    case Enqueue(d, events, clock) =>
      var r := Insert(s.db, d, events, clock.start);
      assert r.Success? ==> r.value.dests == s.db.dests || r.value.dests == LockDestination(s.db.dests, d, clock.start);
    case _ =>
  }

  /** Whatever producers and workers do, no claim of a sleeping destination succeeds before its time. */
  lemma {:induction false} NothingIsTriedEarly(s: System, steps: seq<Step>, c: ClientId, due: int)
    requires ValidRun(s, steps) && Asleep(s.db, c, due) && forall step :: step in steps ==> Before(step, c, due)
    ensures Asleep(Run(s, steps).db, c, due)
    decreases |steps|
  {
    if steps != [] {
      assert steps[0] in steps && forall x :: x in steps[1..] ==> x in steps;
      SleepLasts(s, steps[0], c, due);
      NothingIsTriedEarly(Next(s, steps[0]), steps[1..], c, due);
    }
  }

  /** A retry is never sent again before its delay is over: until then every attempt to take the destination fails. */
  lemma RetriesWait(db: Db, claim: Claim, ids: set<Uuid>, delay: int, clock: Clock, s: System, steps: seq<Step>, token: Uuid, late: Clock)
    requires TrySettle(db, claim, ids, Retry(delay), clock).1 && s.db == TrySettle(db, claim, ids, Retry(delay), clock).0
    requires Queue(db, claim.client) != [] && Queue(db, claim.client)[0].id in ids && Queue(db, claim.client)[0].attempts + 1 < 50
    requires ValidRun(s, steps) && forall step :: step in steps ==> Before(step, claim.client, clock.start + delay)
    requires late.start < clock.start + delay
    ensures TryClaim(Run(s, steps).db, claim.client, token, late).1.None?
  {
    RetryPostponesTheDestination(db, claim, ids, delay, clock);
    NothingIsTriedEarly(s, steps, claim.client, clock.start + delay);
  }

  // ---------------------------------------------------------------- what the history records

  predicate Sent(claim: Claim, id: Uuid) {
    exists k :: 0 <= k < BatchSize(claim.events) && claim.events[k].row.id == id
  }

  /** An effective retry of a batch that is this one event. */
  predicate RetriedAlone(s: System, step: Step, id: Uuid) {
    && (step.SigningFails? || (step.Finish? && PhaseOf(s, step.w).Answered? && PhaseOf(s, step.w).outcome.Retry?))
    && !PhaseOf(s, step.w).Idle?
    && var claim := PhaseOf(s, step.w).claim;
       && claim.events != [] && BatchSize(claim.events) <= 1 && claim.events[0].row.id == id
       && claim.client in s.db.dests && s.db.dests[claim.client].lease.Some?
       && s.db.dests[claim.client].lease.value.token == claim.token && s.db.dests[claim.client].lease.value.until > step.clock.wall
  }

  /** An acknowledgement is recorded exactly for the events that a 204 answered, a lone retry exactly for the event retried alone. */
  lemma HistoryIsExact(s: System, step: Step, id: Uuid)
    requires Enabled(s, step) && (step.Answer? ==> BatchSize(PhaseOf(s, step.w).claim.events) >= 1)
    ensures id in Next(s, step).acked <==>
              id in s.acked || (step.Answer? && step.status == Some(204) && Sent(PhaseOf(s, step.w).claim, id))
    ensures Count(Next(s, step).solo, id) == Count(s.solo, id) + (if RetriedAlone(s, step, id) then 1 else 0)
    ensures Count(map[], id) == 0
  {
  }

  /** A worker may crash and an endpoint may change at any time; neither touches the queues. */
  lemma SurroundingsAreExact(s: System, w: nat, c: ClientId, endpoint: Endpoint)
    ensures Enabled(s, Crash(w)) && Enabled(s, Configure(c, endpoint))
    ensures Next(s, Crash(w)).db == s.db && PhaseOf(Next(s, Crash(w)), w) == Idle
    ensures forall v: nat :: v != w ==> PhaseOf(Next(s, Crash(w)), v) == PhaseOf(s, v)
    ensures Next(s, Configure(c, endpoint)) == s.(db := s.db.(clients := s.db.clients[c := endpoint]))
  {
  }

  /** What else may happen next: whatever the worker's place in its loop allows, at any later time. */
  lemma StepsArePossible(s: System, w: nat, c: ClientId, events: seq<Outbound>, token: Uuid, status: Option<nat>, jitter: nat, clock: Clock)
    requires clock.start <= clock.wall && s.wall <= clock.wall && jitter < 15000
    ensures Enabled(s, Enqueue(c, events, clock))
    ensures PhaseOf(s, w).Idle? && token !in s.issued ==> Enabled(s, Take(w, c, token, clock))
    ensures PhaseOf(s, w).Sending? ==> Enabled(s, Answer(w, status, jitter))
    ensures PhaseOf(s, w).Answered? ==> Enabled(s, Finish(w, clock))
    ensures PhaseOf(s, w).Claimed? ==>
              var claim := PhaseOf(s, w).claim;
              if BatchSize(claim.events) == 0 || claim.uri.None? || claim.disabled then Enabled(s, Discard(w, clock))
              else Enabled(s, Renew(w, clock)) && Enabled(s, SigningFails(w, jitter, clock))
  {
  }

  /** Where a worker goes: a claim is sent only after its renewal, answered only after it is sent, and settled only after its answer. */
  lemma WorkersFollowTheLoop(s: System, step: Step, v: nat)
    requires Enabled(s, step)
    ensures var before, after := PhaseOf(s, v), PhaseOf(Next(s, step), v);
            && (before.Idle? && !after.Idle? ==> step.Take? && step.w == v && after.Claimed?)
            && (before.Claimed? ==> after == before || after.Idle? || (after == Sending(before.claim) && step.Renew? && TryRenew(s.db, before.claim, step.clock.wall).1))
            && (before.Sending? ==> after == before || after.Idle? || (after.Answered? && after.claim == before.claim))
            && (before.Answered? ==> after == before || after.Idle?)
  {
  }

  // ---------------------------------------------------------------- one attempt

  /** Without a claim, or with an endpoint but a signed batch whose lease cannot be renewed, nothing is settled. */
  lemma AttemptGivesUp(db: Db, c: ClientId, trip: Trip)
    requires ValidTrip(trip)
    requires var (claimed, taken) := TryClaim(db, c, trip.token, trip.claimed);
             taken.None? || (BatchSize(taken.value.events) >= 1 && taken.value.uri.Some? && !taken.value.disabled && trip.signs
                             && !CanRenew(claimed, taken.value, trip.renewed))
    ensures Attempt(db, c, trip) == (TryClaim(db, c, trip.token, trip.claimed).0, false)
  {
  }

  /** A batch with nowhere to go dies, an unsigned one is retried; neither is reported as a success. */
  lemma UnsentBatchIsSettled(db: Db, c: ClientId, trip: Trip)
    requires ValidTrip(trip) && TryClaim(db, c, trip.token, trip.claimed).1.Some? && trip.settled.wall < trip.claimed.wall + 30000
    requires BatchSize(TryClaim(db, c, trip.token, trip.claimed).1.value.events) >= 1
    requires c !in db.clients || db.clients[c].uri.None? || db.clients[c].disabled || !trip.signs
    ensures var claim := TryClaim(db, c, trip.token, trip.claimed).1.value;
            var ids := BatchIds(claim.events, BatchSize(claim.events));
            var (after, more) := Attempt(db, c, trip);
            && !more && |after.rows| == |db.rows|
            && forall i :: 0 <= i < |db.rows| ==>
                 Fate(db.rows[i], after.rows[i], c, ids,
                      if c !in db.clients || db.clients[c].uri.None? || db.clients[c].disabled then Kill
                      else Retry(BackoffMs(db.dests[c].failures + 1, trip.jitter)), trip.settled.start)
  {
    ClaimHandsOut(db, c, trip.token, trip.claimed);
  }

  /** Without delays in between, an answered attempt is recorded: a 204 reports success, anything else leaves the batch postponed. */
  lemma PromptAttemptSettles(db: Db, c: ClientId, trip: Trip)
    requires ValidTrip(trip) && TryClaim(db, c, trip.token, trip.claimed).1.Some?
    requires trip.claimed.wall <= trip.renewed < trip.claimed.wall + 30000 && trip.settled.wall < trip.claimed.wall + 30000
    requires c in db.clients && db.clients[c].uri.Some? && !db.clients[c].disabled && trip.signs
    requires BatchSize(TryClaim(db, c, trip.token, trip.claimed).1.value.events) >= 1
    ensures var claim := TryClaim(db, c, trip.token, trip.claimed).1.value;
            var ids := BatchIds(claim.events, BatchSize(claim.events));
            var (after, more) := Attempt(db, c, trip);
            && (more <==> trip.status == Some(204))
            && |after.rows| == |db.rows|
            && (forall i :: 0 <= i < |db.rows| ==>
                  Fate(db.rows[i], after.rows[i], c, ids,
                       if trip.status == Some(204) then Deliver else Retry(BackoffMs(db.dests[c].failures + 1, trip.jitter)), trip.settled.start))
            && after.dests[c].failures == (if trip.status == Some(204) then 0 else if db.dests[c].failures >= 50 then 50 else db.dests[c].failures + 1)
  {
    ClaimHandsOut(db, c, trip.token, trip.claimed);
    var claim := TryClaim(db, c, trip.token, trip.claimed).1.value;
    var claimed := TryClaim(db, c, trip.token, trip.claimed).0;
    RenewalIsExact(claimed, claim, trip.renewed);
  }

  /** The tables after the first `n` attempts, made one after another. */
  function AfterAttempts(db: Db, c: ClientId, trips: seq<Trip>, n: nat): Db
    requires n <= |trips| && forall t :: t in trips ==> ValidTrip(t)
  {
    if n == 0 then db else Attempt(AfterAttempts(db, c, trips, n - 1), c, trips[n - 1]).0
  }

  /** Whether the attempt with number `n` acknowledged and recorded a batch. */
  predicate Succeeds(db: Db, c: ClientId, trips: seq<Trip>, n: nat)
    requires n < |trips| && forall t :: t in trips ==> ValidTrip(t)
  {
    Attempt(AfterAttempts(db, c, trips, n), c, trips[n]).1
  }

  /** What the rest of a pass does. */
  function Remaining(db: Db, c: ClientId, trips: seq<Trip>, n: nat): Db
    requires n <= |trips| && forall t :: t in trips ==> ValidTrip(t)
  {
    Drained(AfterAttempts(db, c, trips, n), c, trips[n..])
  }

  lemma RestOfPass(db: Db, c: ClientId, trips: seq<Trip>, n: nat)
    requires n < |trips| && forall t :: t in trips ==> ValidTrip(t)
    ensures Remaining(db, c, trips, n) == if Succeeds(db, c, trips, n) then Remaining(db, c, trips, n + 1) else AfterAttempts(db, c, trips, n + 1)
  {
    assert trips[n..][0] == trips[n] && trips[n..][1..] == trips[n + 1..];
  }

  lemma {:induction false} SuccessesGoOn(db: Db, c: ClientId, trips: seq<Trip>, n: nat)
    requires n <= |trips| && (forall t :: t in trips ==> ValidTrip(t)) && forall k :: 0 <= k < n ==> Succeeds(db, c, trips, k)
    ensures Drained(db, c, trips) == Remaining(db, c, trips, n)
  {
    if n > 0 {
      SuccessesGoOn(db, c, trips, n - 1);
      RestOfPass(db, c, trips, n - 1);
    } else {
      assert trips[0..] == trips && AfterAttempts(db, c, trips, 0) == db;
    }
  }

  /** A pass ends with its first attempt that does not deliver, and only there. */
  lemma PassEndsWithFirstFailure(db: Db, c: ClientId, trips: seq<Trip>, n: nat)
    requires n <= |trips| && (forall t :: t in trips ==> ValidTrip(t)) && forall k :: 0 <= k < n ==> Succeeds(db, c, trips, k)
    ensures n == |trips| ==> Drained(db, c, trips) == AfterAttempts(db, c, trips, n)
    ensures n < |trips| && !Succeeds(db, c, trips, n) ==> Drained(db, c, trips) == AfterAttempts(db, c, trips, n + 1)
  {
    SuccessesGoOn(db, c, trips, n);
    if n < |trips| {
      RestOfPass(db, c, trips, n);
    }
  }
}
