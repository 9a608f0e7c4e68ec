// Racing delivery workers as a step relation: every interleaving of producers,
// claims, lease expiries, crashes and settlements is a run of `Step`s.
module OutboxProtocol {
  import opened Common
  import opened Outbox
  import opened OutboxRows

  /** Where a worker is between two transactions. A crash returns it to `Idle`. */
  datatype Phase = Idle | Claimed(claim: Claim) | Sending(claim: Claim) | Answered(claim: Claim, outcome: Settlement)

  /** `issued`, `acked` and `solo` record history: tokens drawn, events a receiver acknowledged, retries of a row alone in its batch. */
  datatype System = System(db: Db, workers: map<nat, Phase>, issued: set<Uuid>, acked: set<Uuid>, solo: map<Uuid, nat>, wall: int)

  datatype Step =
    | Enqueue(c: ClientId, events: seq<Outbound>, clock: Clock)
    | Configure(c: ClientId, endpoint: Endpoint)
    | Take(w: nat, c: ClientId, token: Uuid, clock: Clock)
    | Crash(w: nat)
    | Discard(w: nat, clock: Clock)
    | SigningFails(w: nat, jitter: nat, clock: Clock)
    | Renew(w: nat, clock: Clock)
    | Answer(w: nat, status: Option<nat>, jitter: nat)
    | Finish(w: nat, clock: Clock)

  function PhaseOf(s: System, w: nat): Phase {
    if w in s.workers then s.workers[w] else Idle
  }

  function Count(solo: map<Uuid, nat>, id: Uuid): nat {
    if id in solo then solo[id] else 0
  }

  predicate Ticks(s: System, clock: Clock) {
    clock.start <= clock.wall && s.wall <= clock.wall
  }

  // ---------------------------------------------------------------- a worker's decisions

  /** What a worker settles without sending: an oversized head, or a batch with nowhere to go. */
  predicate Unsendable(claim: Claim) {
    BatchSize(claim.events) == 0 || claim.uri.None? || claim.disabled
  }

  /** How many events the worker settles at once. */
  function Portion(claim: Claim): nat {
    Max(1, BatchSize(claim.events))
  }

  function OutcomeOf(claim: Claim, status: Option<nat>, jitter: nat): Settlement
    requires jitter < 15000
  {
    if status == Some(204) then Deliver else Retry(BackoffMs(claim.failures + 1, jitter))
  }

  predicate Enabled(s: System, step: Step) {
    match step
    case Enqueue(_, _, clock) => Ticks(s, clock)
    case Configure(_, _) => true
    case Take(w, _, token, clock) => PhaseOf(s, w).Idle? && token !in s.issued && Ticks(s, clock)
    case Crash(w) => true
    case Discard(w, clock) => PhaseOf(s, w).Claimed? && Unsendable(PhaseOf(s, w).claim) && Ticks(s, clock)
    case SigningFails(w, jitter, clock) =>
      PhaseOf(s, w).Claimed? && !Unsendable(PhaseOf(s, w).claim) && jitter < 15000 && Ticks(s, clock)
    case Renew(w, clock) => PhaseOf(s, w).Claimed? && !Unsendable(PhaseOf(s, w).claim) && Ticks(s, clock)
    case Answer(w, _, jitter) => PhaseOf(s, w).Sending? && jitter < 15000
    case Finish(w, clock) => PhaseOf(s, w).Answered? && Ticks(s, clock)
  }

  function Settled(s: System, w: nat, claim: Claim, o: Settlement, clock: Clock): System {
    var n := Min(Portion(claim), |claim.events|);
    var (db, ok) := TrySettle(s.db, claim, BatchIds(claim.events, n), o, clock);
    var solo := if ok && o.Retry? && n == 1 then s.solo[claim.events[0].row.id := Count(s.solo, claim.events[0].row.id) + 1] else s.solo;
    s.(db := db, workers := s.workers[w := Idle], solo := solo, wall := clock.wall)
  }

  function Next(s: System, step: Step): System
    requires Enabled(s, step)
  {
    match step
    case Enqueue(c, events, clock) =>
      var r := Insert(s.db, c, events, clock.start);
      s.(db := if r.Success? then r.value else s.db, wall := clock.wall)
    case Configure(c, endpoint) =>
      s.(db := s.db.(clients := s.db.clients[c := endpoint]))
    case Take(w, c, token, clock) =>
      var (db, claim) := TryClaim(s.db, c, token, clock);
      s.(db := db, issued := s.issued + {token}, wall := clock.wall,
         workers := if claim.Some? then s.workers[w := Claimed(claim.value)] else s.workers)
    case Crash(w) => s.(workers := s.workers[w := Idle])
    case Discard(w, clock) => Settled(s, w, PhaseOf(s, w).claim, Kill, clock)
    case SigningFails(w, jitter, clock) =>
      var claim := PhaseOf(s, w).claim;
      Settled(s, w, claim, OutcomeOf(claim, None, jitter), clock)
    case Renew(w, clock) =>
      var claim := PhaseOf(s, w).claim;
      var (db, ok) := TryRenew(s.db, claim, clock.wall);
      s.(db := db, workers := s.workers[w := if ok then Sending(claim) else Idle], wall := clock.wall)
    case Answer(w, status, jitter) =>
      var claim := PhaseOf(s, w).claim;
      s.(workers := s.workers[w := Answered(claim, OutcomeOf(claim, status, jitter))],
         acked := if status == Some(204) then s.acked + BatchIds(claim.events, Min(Portion(claim), |claim.events|)) else s.acked)
    case Finish(w, clock) => Settled(s, w, PhaseOf(s, w).claim, PhaseOf(s, w).outcome, clock)
  }

  predicate ValidRun(s: System, steps: seq<Step>)
    decreases |steps|
  {
    steps == [] || (Enabled(s, steps[0]) && ValidRun(Next(s, steps[0]), steps[1..]))
  }

  function Run(s: System, steps: seq<Step>): System
    requires ValidRun(s, steps)
    decreases |steps|
  {
    if steps == [] then s else Run(Next(s, steps[0]), steps[1..])
  }

  /** An empty outbox with no worker under way. */
  predicate Initial(s: System) {
    s.db.rows == [] && s.workers == map[] && s.issued == {} && s.acked == {} && s.solo == map[] &&
    s.db.dests == map[]
  }

  // ---------------------------------------------------------------- the invariant

  /** Attempts along a queue read k, 1, ..., 1, 0, ..., 0. */
  ghost predicate Shape(q: seq<Row>) {
    && (forall i :: 0 <= i < |q| ==> q[i].attempts < MAX_ATTEMPTS)
    && (forall i :: 0 < i < |q| ==> q[i].attempts <= 1)
    && (forall i, j :: 0 <= i < j < |q| ==> q[i].attempts >= q[j].attempts)
  }

  /** A claim still describes the front of the queue. */
  ghost predicate Matches(events: seq<PendingRow>, q: seq<Row>) {
    && 0 < |events| <= |q|
    && events[0].due
    && forall i :: 0 <= i < |events| ==> events[i].row == q[i]
  }

  ghost predicate ClaimOk(db: Db, issued: set<Uuid>, claim: Claim) {
    && claim.token in issued
    && claim.events != []
    && (HoldsLease(db, claim.client, claim.token) ==> Matches(claim.events, Queue(db, claim.client)))
  }

  ghost predicate PhaseOk(s: System, p: Phase) {
    && (!p.Idle? ==> ClaimOk(s.db, s.issued, p.claim))
    && (p.Sending? || p.Answered? ==> !Unsendable(p.claim))
    && (p.Answered? ==> !p.outcome.Kill? && (p.outcome.Deliver? ==> BatchIds(p.claim.events, BatchSize(p.claim.events)) <= s.acked))
  }

  ghost predicate TableOk(db: Db) {
    && UniqueIds(db.rows)
    && (forall c :: Ordered(db.rows, c))
    && (forall c :: Shape(Select(db.rows, c, Live)))
    && (forall r :: r in db.rows ==> r.client in db.dests && ArrayBytes([r.wire]) <= EVENT_BYTES_MAX)
  }

  ghost predicate HistoryOk(s: System) {
    forall r :: r in s.db.rows ==>
      && r.attempts <= MAX_ATTEMPTS
      && Count(s.solo, r.id) + 1 >= r.attempts
      && (r.status.Delivered? ==> r.id in s.acked)
  }

  ghost predicate Inv(s: System) {
    && TableOk(s.db)
    && HistoryOk(s)
    && (forall c :: c in s.db.dests && s.db.dests[c].lease.Some? ==> s.db.dests[c].lease.value.token in s.issued)
    && (forall w :: w in s.workers ==> PhaseOk(s, s.workers[w]))
    && (forall v, w :: v in s.workers && w in s.workers && v != w && !s.workers[v].Idle? && !s.workers[w].Idle? ==>
          s.workers[v].claim.token != s.workers[w].claim.token)
  }

  lemma InitialInv(s: System)
    requires Initial(s)
    ensures Inv(s)
  {
  }

  // ---------------------------------------------------------------- enqueueing keeps the table

  lemma AppendKeepsTable(db: Db, c: ClientId, r: Row)
    requires TableOk(db) && c in db.dests
    requires r.client == c && r.status.Pending? && r.attempts == 0 && r.id !in Ids(db.rows) && ArrayBytes([r.wire]) <= EVENT_BYTES_MAX
    ensures TableOk(db.(rows := db.rows + [r]))
    ensures forall d :: Select(db.rows, d, Live) <= Select(db.rows + [r], d, Live)
  {
    var rows := db.rows + [r];
    forall d ensures Ordered(rows, d) && Shape(Select(rows, d, Live)) && Select(db.rows, d, Live) <= Select(rows, d, Live) {
      assert Ordered(db.rows, d) && Shape(Select(db.rows, d, Live));
      forall v: View ensures Select(rows, d, v) == Select(db.rows, d, v) + Pick(r, d, v) {
        SelectAppend(db.rows, [r], d, v);
        assert Select([r], d, v) == Pick(r, d, v);
      }
      assert Select(rows, d, All) == Select(rows, d, Done) + Select(rows, d, Live);
    }
    forall i | 0 <= i < |db.rows| ensures db.rows[i].id != r.id {
      assert db.rows[i].id in Ids(db.rows);
    }
  }

  lemma {:induction false} InsertKeepsTable(db: Db, c: ClientId, events: seq<Outbound>, start: int)
    requires TableOk(db) && c in db.dests
    requires forall e :: e in events ==> e.Event? && ArrayBytes([e.wire]) <= EVENT_BYTES_MAX
    ensures InsertRows(db.rows, c, events, start).Some? ==>
              var rows := InsertRows(db.rows, c, events, start).value;
              && TableOk(db.(rows := rows))
              && db.rows <= rows
              && (forall i :: |db.rows| <= i < |rows| ==> rows[i].status.Pending? && rows[i].attempts == 0)
              && (forall d :: Select(db.rows, d, Live) <= Select(rows, d, Live))
    decreases |events|
  {
    if events != [] {
      var e := events[0];
      assert e in events && forall x :: x in events[1..] ==> x in events;
      if e.id !in Ids(db.rows) {
        var r := FreshRow(c, e, start);
        AppendKeepsTable(db, c, r);
        InsertKeepsTable(db.(rows := db.rows + [r]), c, events[1..], start);
      } else {
        InsertKeepsTable(db, c, events[1..], start);
      }
    }
  }

  lemma LockKeepsTable(db: Db, c: ClientId, start: int)
    requires TableOk(db)
    ensures TableOk(db.(dests := LockDestination(db.dests, c, start)))
  {
  }

  /** A claim outlives whatever only lengthens queues and leaves the leases alone. */
  lemma GrowthKeepsPhase(s: System, t: System, p: Phase)
    requires PhaseOk(s, p) && t.issued == s.issued && t.acked == s.acked
    requires forall d :: d in t.db.dests ==> (d in s.db.dests && t.db.dests[d] == s.db.dests[d]) || t.db.dests[d].lease.None?
    requires !p.Idle? ==> Queue(s.db, p.claim.client) <= Queue(t.db, p.claim.client)
    ensures PhaseOk(t, p)
  {
  }

  lemma GrowthKeepsHistory(s: System, t: System)
    requires HistoryOk(s) && t.solo == s.solo && t.acked == s.acked
    requires s.db.rows <= t.db.rows
    requires forall i :: |s.db.rows| <= i < |t.db.rows| ==> t.db.rows[i].status.Pending? && t.db.rows[i].attempts == 0
    ensures HistoryOk(t)
  {
    forall r | r in t.db.rows ensures r.attempts <= MAX_ATTEMPTS && Count(t.solo, r.id) + 1 >= r.attempts && (r.status.Delivered? ==> r.id in t.acked) {
      var i :| 0 <= i < |t.db.rows| && t.db.rows[i] == r;
      assert i < |s.db.rows| ==> r == s.db.rows[i] && r in s.db.rows;
    }
  }

  lemma InsertKeepsQueues(db: Db, c: ClientId, events: seq<Outbound>, start: int)
    requires TableOk(db)
    ensures var r := Insert(db, c, events, start);
            var after := if r.Success? then r.value else db;
            && TableOk(after) && after.clients == db.clients && db.rows <= after.rows
            && (forall i :: |db.rows| <= i < |after.rows| ==> after.rows[i].status.Pending? && after.rows[i].attempts == 0)
            && (forall d :: Queue(db, d) <= Queue(after, d))
            && (forall d :: d in after.dests ==> (d in db.dests && after.dests[d] == db.dests[d]) || after.dests[d].lease.None?)
  {
    var r := Insert(db, c, events, start);
    if r.Success? && events != [] {
      NormalizedEvents(events);
      LockKeepsTable(db, c, start);
      var locked := db.(dests := LockDestination(db.dests, c, start));
      InsertKeepsTable(locked, c, events, start);
      assert r.value == locked.(rows := r.value.rows);
    }
  }

  lemma EnqueueKeepsInv(s: System, step: Step)
    requires Inv(s) && step.Enqueue? && Enabled(s, step)
    ensures Inv(Next(s, step))
  {
    var t := Next(s, step);
    InsertKeepsQueues(s.db, step.c, step.events, step.clock.start);
    GrowthKeepsHistory(s, t);
    forall w | w in t.workers ensures PhaseOk(t, t.workers[w]) {
      assert PhaseOk(s, s.workers[w]);
      GrowthKeepsPhase(s, t, s.workers[w]);
    }
  }

  // ---------------------------------------------------------------- claiming keeps the invariant

  lemma ClaimDescribesQueue(db: Db, c: ClientId, token: Uuid, clock: Clock)
    ensures var (after, claim) := TryClaim(db, c, token, clock);
            && after.rows == db.rows
            && after.clients == db.clients
            && after.dests.Keys == db.dests.Keys
            && (forall d :: d in db.dests && d != c ==> after.dests[d] == db.dests[d])
            && (claim.Some? ==> claim.value.client == c && claim.value.token == token && Matches(claim.value.events, Queue(db, c))
                                && HoldsLease(after, c, token))
            && (claim.None? ==> after == db || (c in after.dests && after.dests[c].lease.None?))
  {
  }

  lemma TakeKeepsInv(s: System, step: Step)
    requires Inv(s) && step.Take? && Enabled(s, step)
    ensures Inv(Next(s, step))
  {
    var t := Next(s, step);
    ClaimDescribesQueue(s.db, step.c, step.token, step.clock);
    forall w | w in t.workers ensures PhaseOk(t, t.workers[w]) {
      assert w in s.workers ==> PhaseOk(s, s.workers[w]);
    }
  }

  lemma RenewKeepsInv(s: System, step: Step)
    requires Inv(s) && step.Renew? && Enabled(s, step)
    ensures Inv(Next(s, step))
  {
    var t := Next(s, step);
    forall w | w in t.workers ensures PhaseOk(t, t.workers[w]) {
      assert w in s.workers ==> PhaseOk(s, s.workers[w]);
    }
  }

  lemma LocalKeepsInv(s: System, step: Step)
    requires Inv(s) && (step.Configure? || step.Crash? || step.Answer?) && Enabled(s, step)
    ensures Inv(Next(s, step))
  {
    var t := Next(s, step);
    assert TableOk(t.db);
    forall w | w in t.workers ensures PhaseOk(t, t.workers[w]) {
      assert w in s.workers ==> PhaseOk(s, s.workers[w]);
    }
  }

  // ---------------------------------------------------------------- settling keeps the invariant

  /** The portion a live claim settles is a prefix of the queue with equal attempts; more than one row only if untried. */
  lemma PortionIsPrefix(q: seq<Row>, claim: Claim)
    requires Shape(q) && Matches(claim.events, q)
    ensures var n := Portion(claim);
            && 0 < n <= |claim.events|
            && BatchIds(claim.events, n) == Ids(q[..n])
            && (n > 1 ==> q[0].attempts == 0)
            && forall i :: 0 <= i < n ==> q[i].attempts == q[0].attempts
  {
    var n := Portion(claim);
    assert claim.events[..n] == seq(n, i requires 0 <= i < n => claim.events[i]);
    forall id ensures id in BatchIds(claim.events, n) <==> id in Ids(q[..n]) {
      if id in Ids(q[..n]) {
        var i :| 0 <= i < n && q[..n][i].id == id;
        assert claim.events[i].row.id == id;
      }
      if id in BatchIds(claim.events, n) {
        var i :| 0 <= i < n && claim.events[i].row.id == id;
        assert q[..n][i].id == id;
      }
    }
  }

  lemma BumpKeepsShape(q: seq<Row>, bumped: seq<Row>, m: nat)
    requires Shape(q) && 0 < m <= |q| == |bumped|
    requires m > 1 ==> q[0].attempts == 0
    requires q[0].attempts + 1 < MAX_ATTEMPTS
    requires forall i :: 0 <= i < |q| ==> bumped[i].attempts == q[i].attempts + (if i < m then 1 else 0)
    ensures Shape(bumped)
  {
  }

  lemma BumpedAttempts(q: seq<Row>, m: nat, c: ClientId, o: Settlement, start: int, i: nat)
    requires m <= |q| && o.Retry? && i < m
    requires InView(q[i], c, Live)
    ensures SettleRows(q[..m], c, Ids(q[..m]), o, start)[i].attempts == q[i].attempts + 1
  {
    assert q[..m][i].id in Ids(q[..m]);
  }

  lemma TailKeepsShape(q: seq<Row>, m: nat)
    requires Shape(q) && m <= |q|
    ensures Shape(q[m..])
  {
  }

  lemma RestAttempts(q: seq<Row>, m: nat, c: ClientId, o: Settlement, start: int, i: nat)
    requires 0 < m <= |q| && o.Retry? && Survives(o, q[0].attempts) && i < |q|
    requires InView(q[i], c, Live)
    ensures |Rest(q, m, c, o, start)| == |q|
    ensures Rest(q, m, c, o, start)[i].attempts == q[i].attempts + (if i < m then 1 else 0)
  {
    if i < m {
      BumpedAttempts(q, m, c, o, start, i);
    }
  }

  lemma RestKeepsShape(q: seq<Row>, m: nat, c: ClientId, o: Settlement, start: int)
    requires Shape(q) && 0 < m <= |q|
    requires forall i :: 0 <= i < |q| ==> InView(q[i], c, Live)
    requires m > 1 ==> q[0].attempts == 0
    ensures Shape(Rest(q, m, c, o, start))
  {
    if Survives(o, q[0].attempts) {
      var rest := Rest(q, m, c, o, start);
      forall i | 0 <= i < |q| ensures |rest| == |q| && rest[i].attempts == q[i].attempts + (if i < m then 1 else 0) {
        RestAttempts(q, m, c, o, start, i);
      }
      RestAttempts(q, m, c, o, start, 0);
      BumpKeepsShape(q, rest, m);
    } else {
      TailKeepsShape(q, m);
    }
  }

  lemma SettleKeepsQueues(db: Db, claim: Claim, o: Settlement, start: int, d: ClientId)
    requires TableOk(db) && Matches(claim.events, Queue(db, claim.client))
    ensures var rows := SettleRows(db.rows, claim.client, BatchIds(claim.events, Portion(claim)), o, start);
            Ordered(rows, d) && Shape(Select(rows, d, Live))
  {
    var c, q, n := claim.client, Queue(db, claim.client), Portion(claim);
    assert Ordered(db.rows, d) && Shape(Select(db.rows, d, Live)) && Ordered(db.rows, c) && Shape(q);
    PortionIsPrefix(q, claim);
    var ids := BatchIds(claim.events, n);
    if d == c {
      SettlePrefix(db.rows, c, n, o, start);
      SelectFrom(db.rows, c, Live);
      SelectUnique(db.rows, c, Live);
      RestKeepsShape(q, n, c, o, start);
    } else {
      SelectOther(db.rows, c, ids, o, start, d, All);
      SelectOther(db.rows, c, ids, o, start, d, Live);
      SelectOther(db.rows, c, ids, o, start, d, Done);
    }
  }

  lemma SettleKeepsTable(db: Db, claim: Claim, o: Settlement, start: int)
    requires TableOk(db) && Matches(claim.events, Queue(db, claim.client))
    ensures var rows := SettleRows(db.rows, claim.client, BatchIds(claim.events, Portion(claim)), o, start);
            TableOk(db.(rows := rows))
  {
    var rows := SettleRows(db.rows, claim.client, BatchIds(claim.events, Portion(claim)), o, start);
    forall d ensures Ordered(rows, d) && Shape(Select(rows, d, Live)) {
      SettleKeepsQueues(db, claim, o, start, d);
    }
    forall r | r in rows ensures r.client in db.dests && ArrayBytes([r.wire]) <= EVENT_BYTES_MAX {
      var i :| 0 <= i < |rows| && rows[i] == r;
      assert db.rows[i] in db.rows;
    }
  }

  /** A settled row that was pending in this destination is one of the portion's rows. */
  lemma SettledRowIsInPortion(rows: seq<Row>, c: ClientId, n: nat, before: Row) returns (k: nat)
    requires UniqueIds(rows) && n <= |Select(rows, c, Live)| && before in rows
    requires before.id in Ids(Select(rows, c, Live)[..n])
    ensures k < n && Select(rows, c, Live)[k] == before
  {
    var q := Select(rows, c, Live);
    k :| 0 <= k < n && q[..n][k].id == before.id;
    SelectFrom(rows, c, Live);
    assert q[k] in q;
    IdIdentifies(rows, before, q[k]);
  }

  /** A retried row was sent alone, unless this was its first attempt. */
  lemma SettleKeepsHistory(s: System, w: nat, claim: Claim, o: Settlement, clock: Clock)
    requires TableOk(s.db) && HistoryOk(s) && LiveLease(s.db, claim.client, claim.token, clock.wall)
    requires Matches(claim.events, Queue(s.db, claim.client))
    requires o.Deliver? ==> BatchIds(claim.events, Portion(claim)) <= s.acked
    ensures HistoryOk(Settled(s, w, claim, o, clock))
  {
    var c, q, n := claim.client, Queue(s.db, claim.client), Portion(claim);
    var ids := BatchIds(claim.events, n);
    var t := Settled(s, w, claim, o, clock);
    PortionIsPrefix(q, claim);
    assert t.db.rows == SettleRows(s.db.rows, c, ids, o, clock.start);
    forall r | r in t.db.rows ensures r.attempts <= MAX_ATTEMPTS && Count(t.solo, r.id) + 1 >= r.attempts && (r.status.Delivered? ==> r.id in t.acked) {
      var i :| 0 <= i < |t.db.rows| && t.db.rows[i] == r;
      var before := s.db.rows[i];
      assert before in s.db.rows && r == SettleRow(before, c, ids, o, clock.start);
      if before.client == c && before.status.Pending? && before.id in ids {
        var k := SettledRowIsInPortion(s.db.rows, c, n, before);
        assert q[k].attempts == q[0].attempts && claim.events[k].row == q[k];
        assert before.attempts < MAX_ATTEMPTS;
      }
    }
  }

  lemma SettledKeepsInv(s: System, w: nat, o: Settlement, clock: Clock)
    requires Inv(s) && w in s.workers && !s.workers[w].Idle?
    requires o.Deliver? ==> BatchIds(s.workers[w].claim.events, Min(Portion(s.workers[w].claim), |s.workers[w].claim.events|)) <= s.acked
    ensures Inv(Settled(s, w, s.workers[w].claim, o, clock))
  {
    var claim := s.workers[w].claim;
    var t := Settled(s, w, claim, o, clock);
    assert PhaseOk(s, s.workers[w]);
    if LiveLease(s.db, claim.client, claim.token, clock.wall) {
      PortionIsPrefix(Queue(s.db, claim.client), claim);
      SettleKeepsTable(s.db, claim, o, clock.start);
      SettleKeepsHistory(s, w, claim, o, clock);
      var rows := SettleRows(s.db.rows, claim.client, BatchIds(claim.events, Portion(claim)), o, clock.start);
      assert t.db.rows == rows && TableOk(s.db.(rows := rows));
      assert TableOk(t.db);
      assert !HoldsLease(t.db, claim.client, claim.token);
    }
    forall v | v in t.workers ensures PhaseOk(t, t.workers[v]) {
      if v != w {
        assert PhaseOk(s, s.workers[v]);
        OtherClaimsSurvive(s, w, s.workers[v], o, clock);
      }
    }
  }

  /** A settlement leaves every other worker's claim as true as it was. */
  lemma OtherClaimsSurvive(s: System, w: nat, p: Phase, o: Settlement, clock: Clock)
    requires w in s.workers && !s.workers[w].Idle? && PhaseOk(s, p)
    ensures PhaseOk(Settled(s, w, s.workers[w].claim, o, clock), p)
  {
    var claim := s.workers[w].claim;
    var t := Settled(s, w, claim, o, clock);
    if !p.Idle? && p.claim.client != claim.client {
      SelectOther(s.db.rows, claim.client, BatchIds(claim.events, Min(Portion(claim), |claim.events|)), o, clock.start, p.claim.client, Live);
    }
  }

  lemma NextKeepsInv(s: System, step: Step)
    requires Inv(s) && Enabled(s, step)
    ensures Inv(Next(s, step))
  {
    match step
    case Enqueue(_, _, _) => EnqueueKeepsInv(s, step);
    case Take(_, _, _, _) => TakeKeepsInv(s, step);
    case Renew(_, _) => RenewKeepsInv(s, step);
    case Discard(w, clock) => SettledKeepsInv(s, w, Kill, clock);
    case SigningFails(w, jitter, clock) => SettledKeepsInv(s, w, OutcomeOf(PhaseOf(s, w).claim, None, jitter), clock);
    case Finish(w, clock) =>
      assert PhaseOk(s, s.workers[w]);
      SettledKeepsInv(s, w, PhaseOf(s, w).outcome, clock);
    case Configure(_, _) => LocalKeepsInv(s, step);
    case Crash(_) => LocalKeepsInv(s, step);
    case Answer(_, _, _) => LocalKeepsInv(s, step);
  }

  lemma {:induction false} RunKeepsInv(s: System, steps: seq<Step>)
    requires Inv(s) && ValidRun(s, steps)
    ensures Inv(Run(s, steps))
    decreases |steps|
  {
    if steps != [] {
      NextKeepsInv(s, steps[0]);
      RunKeepsInv(Next(s, steps[0]), steps[1..]);
    }
  }
}
