// What the outbox promises over every run of racing workers.
module OutboxTheorems {
  import opened Common
  import opened Outbox
  import opened OutboxRows
  import opened OutboxProtocol

  // ---------------------------------------------------------------- order, finality, fencing

  /** No row is delivered, or given up, while an earlier row of its destination is still pending. */
  lemma InOrderDelivery(s: System, steps: seq<Step>, i: nat, j: nat)
    requires Initial(s) && ValidRun(s, steps)
    requires i < j < |Run(s, steps).db.rows|
    requires Run(s, steps).db.rows[i].client == Run(s, steps).db.rows[j].client
    requires !Run(s, steps).db.rows[j].status.Pending?
    ensures !Run(s, steps).db.rows[i].status.Pending?
  {
    InitialInv(s);
    RunKeepsInv(s, steps);
    var rows := Run(s, steps).db.rows;
    assert Ordered(rows, rows[i].client);
    NothingOvertakes(rows, rows[i].client, i, j);
  }

  /** A row is marked delivered only after its receiver acknowledged it. */
  lemma DeliveredWasAcknowledged(s: System, steps: seq<Step>)
    requires Initial(s) && ValidRun(s, steps)
    ensures forall r :: r in Run(s, steps).db.rows && r.status.Delivered? ==> r.id in Run(s, steps).acked
  {
    InitialInv(s);
    RunKeepsInv(s, steps);
  }

  /** How a row may change: never its identity, and not at all once it is delivered or dead. */
  ghost predicate Evolves(before: Row, after: Row) {
    && before.id == after.id && before.client == after.client && before.wire == after.wire && before.version == after.version
    && before.attempts <= after.attempts
    && (!before.status.Pending? ==> before == after)
  }

  /** Which change kills a row by exhausting its retries. */
  ghost predicate DiesOfRetries(before: Row, after: Row) {
    before.status.Pending? && after.status.Dead? && after.attempts > before.attempts
  }

  ghost predicate TableEvolves(before: seq<Row>, after: seq<Row>) {
    |before| <= |after| && forall i :: 0 <= i < |before| ==> Evolves(before[i], after[i])
  }

  lemma InsertEvolves(rows: seq<Row>, c: ClientId, events: seq<Outbound>, start: int)
    requires forall e :: e in events ==> e.Event?
    ensures InsertRows(rows, c, events, start).Some? ==> rows <= InsertRows(rows, c, events, start).value
    decreases |events|
  {
    if events != [] {
      InsertEvolves(rows, c, events[1..], start);
      if events[0].id !in Ids(rows) {
        InsertEvolves(rows + [FreshRow(c, events[0], start)], c, events[1..], start);
      }
    }
  }

  lemma NextEvolves(s: System, step: Step)
    requires Enabled(s, step)
    ensures TableEvolves(s.db.rows, Next(s, step).db.rows)
    ensures forall i :: 0 <= i < |s.db.rows| && DiesOfRetries(s.db.rows[i], Next(s, step).db.rows[i]) ==>
              Next(s, step).db.rows[i].attempts >= MAX_ATTEMPTS
  {
    if step.Enqueue? {
      EnqueueEvolves(s, step);
    } else if step.Discard? {
      SettledEvolves(s, step.w, PhaseOf(s, step.w).claim, Kill, step.clock);
    } else if step.SigningFails? {
      SettledEvolves(s, step.w, PhaseOf(s, step.w).claim, OutcomeOf(PhaseOf(s, step.w).claim, None, step.jitter), step.clock);
    } else if step.Finish? {
      SettledEvolves(s, step.w, PhaseOf(s, step.w).claim, PhaseOf(s, step.w).outcome, step.clock);
    } else {
      assert Next(s, step).db.rows == s.db.rows;
    }
  }

  lemma EnqueueEvolves(s: System, step: Step)
    requires Enabled(s, step) && step.Enqueue?
    ensures s.db.rows <= Next(s, step).db.rows
  {
    if Insert(s.db, step.c, step.events, step.clock.start).Success? {
      NormalizedEvents(step.events);
      InsertEvolves(s.db.rows, step.c, step.events, step.clock.start);
    }
  }

  lemma SettledEvolves(s: System, w: nat, claim: Claim, o: Settlement, clock: Clock)
    ensures TableEvolves(s.db.rows, Settled(s, w, claim, o, clock).db.rows)
    ensures forall i :: 0 <= i < |s.db.rows| && DiesOfRetries(s.db.rows[i], Settled(s, w, claim, o, clock).db.rows[i]) ==>
              Settled(s, w, claim, o, clock).db.rows[i].attempts >= MAX_ATTEMPTS
  {
  }

  /** Over any run rows are never lost or altered, and delivered and dead are final. */
  lemma {:induction false} SettledForever(s: System, steps: seq<Step>)
    requires ValidRun(s, steps)
    ensures TableEvolves(s.db.rows, Run(s, steps).db.rows)
    decreases |steps|
  {
    if steps != [] {
      var t := Next(s, steps[0]);
      NextEvolves(s, steps[0]);
      SettledForever(t, steps[1..]);
      var u := Run(s, steps);
      forall i | 0 <= i < |s.db.rows| ensures Evolves(s.db.rows[i], u.db.rows[i]) {
        assert Evolves(s.db.rows[i], t.db.rows[i]) && Evolves(t.db.rows[i], u.db.rows[i]);
      }
    }
  }

  /** At most one worker can settle a destination; every other worker's settlement or renewal changes nothing. */
  lemma OneOwner(s: System, steps: seq<Step>, v: nat, w: nat, o: Settlement, clock: Clock)
    requires Initial(s) && ValidRun(s, steps)
    requires v != w && !PhaseOf(Run(s, steps), v).Idle? && !PhaseOf(Run(s, steps), w).Idle?
    requires var t := Run(s, steps); LiveLease(t.db, PhaseOf(t, v).claim.client, PhaseOf(t, v).claim.token, clock.wall)
    requires var t := Run(s, steps); PhaseOf(t, v).claim.client == PhaseOf(t, w).claim.client
    ensures var t := Run(s, steps);
            var late := PhaseOf(t, w).claim;
            && TryRenew(t.db, late, clock.wall) == (t.db, false)
            && Settled(t, w, late, o, clock).db == t.db
  {
    InitialInv(s);
    RunKeepsInv(s, steps);
    var t := Run(s, steps);
    assert t.workers[v].claim.token != t.workers[w].claim.token;
  }

  // ---------------------------------------------------------------- poison isolation

  /** Along every queue the attempts read k, 1, ..., 1, 0, ..., 0. */
  lemma AttemptsShape(s: System, steps: seq<Step>, c: ClientId)
    requires Initial(s) && ValidRun(s, steps)
    ensures Shape(Queue(Run(s, steps).db, c))
  {
    InitialInv(s);
    RunKeepsInv(s, steps);
  }

  /** A row dies of its retries only after at least 49 attempts in which it was alone in its batch. */
  lemma PoisonIsolation(s: System, steps: seq<Step>, step: Step, i: nat)
    requires Initial(s) && ValidRun(s, steps) && Enabled(Run(s, steps), step)
    requires i < |Run(s, steps).db.rows| <= |Next(Run(s, steps), step).db.rows|
    requires DiesOfRetries(Run(s, steps).db.rows[i], Next(Run(s, steps), step).db.rows[i])
    ensures Count(Next(Run(s, steps), step).solo, Run(s, steps).db.rows[i].id) >= MAX_ATTEMPTS - 1
  {
    InitialInv(s);
    RunKeepsInv(s, steps);
    var t := Run(s, steps);
    NextKeepsInv(t, step);
    NextEvolves(t, step);
    assert Evolves(t.db.rows[i], Next(t, step).db.rows[i]) && Next(t, step).db.rows[i] in Next(t, step).db.rows;
  }

  // ---------------------------------------------------------------- termination

  /** The attempts that the pending rows have left. */
  function Budget(rows: seq<Row>): nat {
    if rows == [] then 0 else Cost(rows[0]) + Budget(rows[1..])
  }

  function Cost(r: Row): nat {
    if r.status.Pending? then Max(1, MAX_ATTEMPTS - r.attempts) else 0
  }

  lemma {:induction false} BudgetFalls(rows: seq<Row>, c: ClientId, ids: set<Uuid>, o: Settlement, start: int)
    ensures Budget(SettleRows(rows, c, ids, o, start)) <= Budget(rows)
    ensures (exists r :: r in rows && InView(r, c, Live) && r.id in ids) ==>
              Budget(SettleRows(rows, c, ids, o, start)) < Budget(rows)
  {
    if rows != [] {
      var after := SettleRows(rows, c, ids, o, start);
      assert after[1..] == SettleRows(rows[1..], c, ids, o, start);
      BudgetFalls(rows[1..], c, ids, o, start);
      assert forall r :: r in rows <==> r == rows[0] || r in rows[1..];
    }
  }

  lemma {:induction false} BudgetSpent(rows: seq<Row>)
    ensures Budget(rows) == 0 <==> forall r :: r in rows ==> !r.status.Pending?
  {
    if rows != [] {
      BudgetSpent(rows[1..]);
      assert forall r :: r in rows <==> r == rows[0] || r in rows[1..];
    }
  }

  /** A settlement that finds its lease alive. */
  predicate Effective(s: System, step: Step) {
    match step
    case Discard(w, clock) => !PhaseOf(s, w).Idle? && LiveLease(s.db, PhaseOf(s, w).claim.client, PhaseOf(s, w).claim.token, clock.wall)
    case SigningFails(w, _, clock) => !PhaseOf(s, w).Idle? && LiveLease(s.db, PhaseOf(s, w).claim.client, PhaseOf(s, w).claim.token, clock.wall)
    case Finish(w, clock) => !PhaseOf(s, w).Idle? && LiveLease(s.db, PhaseOf(s, w).claim.client, PhaseOf(s, w).claim.token, clock.wall)
    case _ => false
  }

  function Settlements(s: System, steps: seq<Step>): nat
    requires ValidRun(s, steps)
    decreases |steps|
  {
    if steps == [] then 0
    else (if Effective(s, steps[0]) then 1 else 0) + Settlements(Next(s, steps[0]), steps[1..])
  }

  lemma HeadIsSettled(db: Db, claim: Claim) returns (head: Row)
    requires TableOk(db) && Matches(claim.events, Queue(db, claim.client))
    ensures head in db.rows && InView(head, claim.client, Live)
    ensures head.id in BatchIds(claim.events, Min(Portion(claim), |claim.events|))
  {
    var q := Queue(db, claim.client);
    assert Shape(q);
    PortionIsPrefix(q, claim);
    SelectFrom(db.rows, claim.client, Live);
    head := q[0];
    assert claim.events[0].row == head && head in q;
  }

  lemma SettlementSpends(s: System, w: nat, o: Settlement, clock: Clock)
    requires Inv(s) && w in s.workers && !s.workers[w].Idle?
    requires LiveLease(s.db, s.workers[w].claim.client, s.workers[w].claim.token, clock.wall)
    ensures Budget(Settled(s, w, s.workers[w].claim, o, clock).db.rows) < Budget(s.db.rows)
  {
    var claim := s.workers[w].claim;
    assert PhaseOk(s, s.workers[w]);
    var head := HeadIsSettled(s.db, claim);
    BudgetFalls(s.db.rows, claim.client, BatchIds(claim.events, Min(Portion(claim), |claim.events|)), o, clock.start);
  }

  lemma NextSpends(s: System, step: Step)
    requires Inv(s) && Enabled(s, step) && !step.Enqueue?
    ensures Budget(Next(s, step).db.rows) + (if Effective(s, step) then 1 else 0) <= Budget(s.db.rows)
  {
    match step
    case Discard(w, clock) =>
      if Effective(s, step) { SettlementSpends(s, w, Kill, clock); }
    case SigningFails(w, jitter, clock) =>
      if Effective(s, step) { SettlementSpends(s, w, OutcomeOf(PhaseOf(s, w).claim, None, jitter), clock); }
    case Finish(w, clock) =>
      if Effective(s, step) { SettlementSpends(s, w, PhaseOf(s, w).outcome, clock); }
    case _ =>
  }

  /** Without new events, the settlements of a run never outnumber the attempts left at its start. */
  lemma {:induction false} BoundedSettlements(s: System, steps: seq<Step>)
    requires Inv(s) && ValidRun(s, steps)
    requires forall step :: step in steps ==> !step.Enqueue?
    ensures Settlements(s, steps) + Budget(Run(s, steps).db.rows) <= Budget(s.db.rows)
    decreases |steps|
  {
    if steps != [] {
      assert steps[0] in steps && forall x :: x in steps[1..] ==> x in steps;
      NextSpends(s, steps[0]);
      NextKeepsInv(s, steps[0]);
      BoundedSettlements(Next(s, steps[0]), steps[1..]);
    }
  }

  /** Once that many settlements took effect, every row is delivered or dead. */
  lemma EverythingTerminates(s: System, steps: seq<Step>)
    requires Inv(s) && ValidRun(s, steps)
    requires forall step :: step in steps ==> !step.Enqueue?
    requires Settlements(s, steps) >= Budget(s.db.rows)
    ensures forall r :: r in Run(s, steps).db.rows ==> !r.status.Pending?
  {
    BoundedSettlements(s, steps);
    BudgetSpent(Run(s, steps).db.rows);
  }

  // ---------------------------------------------------------------- no stuck state

  /** From this moment on the destination can be claimed, whatever worker held it and died. */
  function ReadyAt(db: Db, c: ClientId): int
    requires c in db.dests && Queue(db, c) != []
  {
    var d := db.dests[c];
    Max(Max(d.due, Queue(db, c)[0].due), if d.lease.Some? then d.lease.value.until else d.due)
  }

  lemma ClaimSucceeds(db: Db, c: ClientId, token: Uuid, clock: Clock)
    requires c in db.dests && Queue(db, c) != []
    requires ReadyAt(db, c) <= clock.start <= clock.wall
    ensures TryClaim(db, c, token, clock).1.Some?
  {
  }

  lemma {:induction false} RunAppend(s: System, a: seq<Step>, b: seq<Step>)
    requires ValidRun(s, a) && ValidRun(Run(s, a), b)
    ensures ValidRun(s, a + b) && Run(s, a + b) == Run(Run(s, a), b)
    decreases |a|
  {
    if a == [] {
      assert a + b == b;
    } else {
      assert (a + b)[1..] == a[1..] + b;
      RunAppend(Next(s, a[0]), a[1..], b);
    }
  }

  lemma {:induction false} FreshNumber(used: set<nat>) returns (n: nat)
    ensures forall m :: m in used ==> m < n
    decreases |used|
  {
    if used == {} {
      n := 0;
    } else {
      var m :| m in used;
      var k := FreshNumber(used - {m});
      n := Max(k, m + 1);
      assert forall x :: x in used ==> x == m || x in used - {m};
    }
  }

  /** An enabled destination delivers; any other one discards. */
  predicate Usable(db: Db, c: ClientId) {
    c in db.clients && db.clients[c].uri.Some? && !db.clients[c].disabled
  }

  /** An idle worker can always take a destination that has pending rows. */
  lemma TakeSucceeds(s: System, c: ClientId) returns (w: nat, take: Step)
    requires Inv(s) && Queue(s.db, c) != []
    ensures take.Take? && take.c == c && take.w == w && Enabled(s, take) && take.clock.start == take.clock.wall
    ensures var t := Next(s, take);
            && Inv(t) && t.db.rows == s.db.rows && t.db.clients == s.db.clients && t.wall == take.clock.wall
            && w in t.workers && t.workers[w].Claimed?
            && var claim := t.workers[w].claim;
               && claim.client == c && LiveLease(t.db, c, claim.token, take.clock.wall)
               && (Unsendable(claim) <==> !Usable(s.db, c))
               && (c in s.db.clients ==> claim.uri == s.db.clients[c].uri)
  {
    SelectFrom(s.db.rows, c, Live);
    assert Queue(s.db, c)[0] in s.db.rows;
    w := FreshNumber(s.workers.Keys);
    var token := FreshNumber(s.issued);
    var at := Max(ReadyAt(s.db, c), s.wall);
    var clock := Clock(at, at);
    take := Take(w, c, token, clock);
    assert w !in s.workers.Keys && token !in s.issued;
    ClaimSucceeds(s.db, c, token, clock);
    ClaimDescribesQueue(s.db, c, token, clock);
    NextKeepsInv(s, take);
    HeadFits(Next(s, take), Next(s, take).workers[w].claim);
  }

  /** What a round of one worker alone achieves. */
  ghost predicate Progress(s: System, steps: seq<Step>) {
    && ValidRun(s, steps)
    && (forall step :: step in steps ==> !step.Enqueue? && !step.Configure?)
    && Budget(Run(s, steps).db.rows) < Budget(s.db.rows)
    && Run(s, steps).db.clients == s.db.clients
    && (forall r :: r in Run(s, steps).db.rows && r.status.Dead? && Usable(s.db, r.client) ==> r in s.db.rows)
  }

  /** With its lease alive and the endpoint unchanged, a worker can renew and be answered. */
  lemma SendSucceeds(t: System, w: nat, clock: Clock)
    requires Inv(t) && Ticks(t, clock) && w in t.workers && t.workers[w].Claimed?
    requires var claim := t.workers[w].claim; !Unsendable(claim) && CanRenew(t.db, claim, clock.wall)
    ensures Enabled(t, Renew(w, clock)) && Enabled(Next(t, Renew(w, clock)), Answer(w, Some(204), 0))
    ensures var claim := t.workers[w].claim;
            var x := Next(Next(t, Renew(w, clock)), Answer(w, Some(204), 0));
            && Inv(x) && x.db.rows == t.db.rows && x.db.clients == t.db.clients && x.wall == clock.wall
            && w in x.workers && x.workers[w] == Answered(claim, Deliver)
            && LiveLease(x.db, claim.client, claim.token, clock.wall)
  {
    NextKeepsInv(t, Renew(w, clock));
    NextKeepsInv(Next(t, Renew(w, clock)), Answer(w, Some(204), 0));
  }

  lemma FinishDelivers(x: System, w: nat, claim: Claim, clock: Clock)
    requires Inv(x) && w in x.workers && x.workers[w] == Answered(claim, Deliver) && Ticks(x, clock)
    requires LiveLease(x.db, claim.client, claim.token, clock.wall)
    ensures var y := Next(x, Finish(w, clock));
            && Budget(y.db.rows) < Budget(x.db.rows) && y.db.clients == x.db.clients
            && forall r :: r in y.db.rows && r.status.Dead? ==> r in x.db.rows
  {
    SettlementSpends(x, w, Deliver, clock);
    DeliverKillsNothing(x.db.rows, claim.client, BatchIds(claim.events, Min(Portion(claim), |claim.events|)), clock.start);
  }

  /** The run of one worker up to the receiver's acknowledgement. */
  lemma AnsweredRun(s: System, c: ClientId) returns (steps: seq<Step>, w: nat, claim: Claim, clock: Clock)
    requires Inv(s) && Queue(s.db, c) != [] && Usable(s.db, c)
    ensures ValidRun(s, steps) && (forall step :: step in steps ==> !step.Enqueue? && !step.Configure?)
    ensures var x := Run(s, steps);
            && Inv(x) && x.db.rows == s.db.rows && x.db.clients == s.db.clients
            && w in x.workers && x.workers[w] == Answered(claim, Deliver) && Ticks(x, clock)
            && LiveLease(x.db, claim.client, claim.token, clock.wall)
  {
    var take;
    w, take := TakeSucceeds(s, c);
    clock := take.clock;
    var t := Next(s, take);
    claim := t.workers[w].claim;
    SendSucceeds(t, w, clock);
    var renew, answer := Renew(w, clock), Answer(w, Some(204), 0);
    steps := [take] + [renew, answer];
    RunOfOne(s, take);
    RunOfTwo(t, renew, answer);
    RunAppend(s, [take], [renew, answer]);
  }

  lemma DeliverRound(s: System, c: ClientId) returns (steps: seq<Step>)
    requires Inv(s) && Queue(s.db, c) != [] && Usable(s.db, c)
    ensures Progress(s, steps)
  {
    var before, w, claim, clock := AnsweredRun(s, c);
    var x := Run(s, before);
    FinishDelivers(x, w, claim, clock);
    RunOfOne(x, Finish(w, clock));
    RunAppend(s, before, [Finish(w, clock)]);
    steps := before + [Finish(w, clock)];
  }

  lemma DiscardRound(s: System, c: ClientId) returns (steps: seq<Step>)
    requires Inv(s) && Queue(s.db, c) != [] && !Usable(s.db, c)
    ensures Progress(s, steps)
  {
    var w, take := TakeSucceeds(s, c);
    var t := Next(s, take);
    var claim := t.workers[w].claim;
    var discard := Discard(w, take.clock);
    SettlementSpends(t, w, Kill, take.clock);
    steps := [take, discard];
    RunOfTwo(s, take, discard);
    KillStaysInside(t.db.rows, c, BatchIds(claim.events, Min(Portion(claim), |claim.events|)), take.clock.start);
  }

  lemma RunOfOne(s: System, a: Step)
    requires Enabled(s, a)
    ensures ValidRun(s, [a]) && Run(s, [a]) == Next(s, a)
  {
    assert ValidRun(Next(s, a), [a][1..]);
  }

  lemma RunOfTwo(s: System, a: Step, b: Step)
    requires Enabled(s, a) && Enabled(Next(s, a), b)
    ensures ValidRun(s, [a, b]) && Run(s, [a, b]) == Next(Next(s, a), b)
  {
    RunOfOne(s, a);
    RunOfOne(Next(s, a), b);
    RunAppend(s, [a], [b]);
    assert [a] + [b] == [a, b];
  }

  /** Every event was checked when it was enqueued, so a claimed batch is never empty. */
  lemma HeadFits(s: System, claim: Claim)
    requires TableOk(s.db) && Matches(claim.events, Queue(s.db, claim.client))
    ensures BatchSize(claim.events) >= 1
  {
    var q := Queue(s.db, claim.client);
    SelectFrom(s.db.rows, claim.client, Live);
    assert q[0] in q && q[0] in s.db.rows;
    assert Wires(claim.events[..1]) == [q[0].wire];
    assert Extends(claim.events, 0);
  }

  lemma DeliverKillsNothing(rows: seq<Row>, c: ClientId, ids: set<Uuid>, start: int)
    ensures forall r :: r in SettleRows(rows, c, ids, Deliver, start) && r.status.Dead? ==> r in rows
  {
    var after := SettleRows(rows, c, ids, Deliver, start);
    forall r | r in after && r.status.Dead? ensures r in rows {
      var i :| 0 <= i < |after| && after[i] == r;
      assert rows[i] in rows;
    }
  }

  lemma KillStaysInside(rows: seq<Row>, c: ClientId, ids: set<Uuid>, start: int)
    ensures forall r :: r in SettleRows(rows, c, ids, Kill, start) && r.status.Dead? && r.client != c ==> r in rows
  {
    var after := SettleRows(rows, c, ids, Kill, start);
    forall r | r in after && r.status.Dead? && r.client != c ensures r in rows {
      var i :| 0 <= i < |after| && after[i] == r;
      assert rows[i] in rows;
    }
  }

  /** From every reachable state some run settles every row, and delivers all that a usable endpoint is owed. */
  lemma {:induction false} CanAlwaysDrain(s: System) returns (steps: seq<Step>)
    requires Inv(s)
    ensures ValidRun(s, steps) && (forall step :: step in steps ==> !step.Enqueue? && !step.Configure?)
    ensures Run(s, steps).db.clients == s.db.clients
    ensures forall r :: r in Run(s, steps).db.rows ==> !r.status.Pending?
    ensures forall r :: r in Run(s, steps).db.rows && r.status.Dead? && Usable(s.db, r.client) ==> r in s.db.rows
    decreases Budget(s.db.rows)
  {
    if i :| 0 <= i < |s.db.rows| && s.db.rows[i].status.Pending? {
      var c := s.db.rows[i].client;
      SelectFrom(s.db.rows, c, Live);
      assert s.db.rows[i] in s.db.rows;
      var first;
      if Usable(s.db, c) { first := DeliverRound(s, c); } else { first := DiscardRound(s, c); }
      RunKeepsInv(s, first);
      var rest := CanAlwaysDrain(Run(s, first));
      RunAppend(s, first, rest);
      steps := first + rest;
    } else {
      steps := [];
    }
  }
}
