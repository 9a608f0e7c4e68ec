// Redelivery after any run: what receipts outlive everything else, and so exactly
// which accepted batches can still do harm in a reachable state.
module RoleReplayRuns {
  import opened Common
  import opened RoleTables
  import opened RolePublish
  import opened RoleCatalogs
  import opened RoleSync
  import opened RoleSyncTheorems
  import opened RoleAdmin
  import opened RoleClosure
  import opened RoleRuns
  import opened RoleReplay

  /** Envelopes may be 310 s old: with a later clock than this, none carries the time 0. */
  const MAX_AGE: int := 310

  predicate OnTheClock(b: Batch) {
    forall now :: now in b.readings ==> now > MAX_AGE
  }

  /** A revisioned client has a digest, and a digest came with the time of an envelope. */
  ghost predicate Dated(db: RoleDb) {
    forall c: Client :: c in db.sync ==> DatedRow(db.sync[c])
  }

  predicate DatedRow(s: SyncState) {
    (s.version.Some? ==> s.digest.Some?) && (s.digest.Some? ==> s.iat > 0)
  }

  lemma InstalledIsDated(db: RoleDb)
    requires Installed(db)
    ensures Dated(db)
  {
  }

  // ---------------------------------------------------------------- publications leave the order of reports alone

  /** Publishing moves revisions and may add rows of clients that never reported. */
  ghost predicate SameOrder(a: RoleDb, b: RoleDb) {
    && a.inbox == b.inbox
    && (forall c: Client :: c in a.sync ==> c in b.sync && b.sync[c] == a.sync[c].(revision := b.sync[c].revision))
    && (forall c: Client :: c in b.sync && c !in a.sync ==> b.sync[c].version.None? && b.sync[c].digest.None?)
  }

  lemma PublishKeepsOrder(db: RoleDb, client: Client, scope: Scope)
    ensures Publish(db, client, scope).Success? ==> SameOrder(db, Publish(db, client, scope).value)
  {
  }

  lemma {:induction false} PublishAllKeepsOrder(db: RoleDb, clients: seq<Client>, scope: Scope)
    ensures PublishAll(db, clients, scope).Success? ==> SameOrder(db, PublishAll(db, clients, scope).value)
    decreases |clients|
  {
    if clients != [] && Publish(db, clients[0], scope).Success? {
      PublishKeepsOrder(db, clients[0], scope);
      PublishAllKeepsOrder(Publish(db, clients[0], scope).value, clients[1..], scope);
    }
  }

  lemma AdminKeepsOrder(db: RoleDb, actor: Sub, call: Call)
    requires Perform(db, actor, call).Success?
    ensures SameOrder(db, Perform(db, actor, call).value)
  {
    PerformPublishes(db, actor, call);
    PublishAllKeepsOrder(db.(t := After(db.t, actor, call)), CallClients(db.t, call), CallScope(call));
  }

  // ---------------------------------------------------------------- dates

  lemma ApplyDates(db: RoleDb, client: Client, iat: nat, c: RoleCatalog)
    requires Dated(db) && client in db.sync && WellFormed(c) && iat > 0 && ApplyCatalog(db, client, iat, c).Success?
    ensures Dated(ApplyCatalog(db, client, iat, c).value.0)
  {
    PublishKeepsOrder(Stored(db, client, iat, c), client, StoreScope(db, client, iat, c));
  }

  lemma ProcessDates(db: RoleDb, client: Client, iat: nat, e: Incoming)
    requires Dated(db) && Valid(e) && iat > 0 && ProcessEvent(db, client, iat, e).Success?
    ensures Dated(ProcessEvent(db, client, iat, e).value)
  {
    if e.body.RolesSync? {
      var ready := Ensure(db, client).value;
      if ApplyCatalog(ready, client, iat, e.body.catalog).Success? {
        ApplyDates(ready, client, iat, e.body.catalog);
      }
    }
  }

  lemma {:induction false} EventsDate(db: RoleDb, client: Client, envelope: Envelope, events: seq<Incoming>, readings: seq<int>)
    requires Dated(db) && AllValid(events) && |readings| == |events| + 1 && forall now :: now in readings ==> now > MAX_AGE
    ensures var r := ProcessEvents(db, client, envelope, events, readings); r.Success? ==> Dated(r.value)
    decreases |events|
  {
    if events != [] && ProcessEvents(db, client, envelope, events, readings).Success? {
      assert readings[0] in readings && forall now :: now in readings[1..] ==> now in readings;
      assert events[0] in events && forall e :: e in events[1..] ==> e in events;
      ProcessDates(db, client, envelope.iat, events[0]);
      EventsDate(ProcessEvent(db, client, envelope.iat, events[0]).value, client, envelope, events[1..], readings[1..]);
    }
  }

  // ---------------------------------------------------------------- receipts

  /** Nothing can replace the receipt any more. */
  predicate Permanent(db: RoleDb, client: Client, body: Body) {
    body.RolesSync? ==> client in db.sync && db.sync[client].version.Some?
  }

  /** A settled receipt stays settled, a permanent one stays as it is, and revisioned clients stay revisioned. */
  ghost predicate Keeps(before: RoleDb, after: RoleDb, client: Client, id: Uuid) {
    && (Receipt(before, client, id).Some? && Receipt(before, client, id).value.Some? ==>
          && Receipt(after, client, id).Some? && Receipt(after, client, id).value.Some?
          && (Permanent(before, client, Receipt(before, client, id).value.value) ==> Receipt(after, client, id) == Receipt(before, client, id)))
    && (client in before.sync ==> client in after.sync && Advances(before.sync[client], after.sync[client]))
  }

  lemma KeepsTransitive(a: RoleDb, b: RoleDb, c: RoleDb, client: Client, id: Uuid)
    requires Keeps(a, b, client, id) && Keeps(b, c, client, id)
    ensures Keeps(a, c, client, id)
  {
  }

  lemma ProcessKeeps(db: RoleDb, from: Client, iat: nat, e: Incoming, client: Client, id: Uuid)
    requires Valid(e) && ProcessEvent(db, from, iat, e).Success?
    ensures Keeps(db, ProcessEvent(db, from, iat, e).value, client, id)
  {
    ProcessBinds(db, from, iat, e);
    if client in db.sync {
      VersionOnlyAdvances(db, from, iat, e, client);
    }
    if from == client && id == e.id && Receipt(db, client, id).Some? && Receipt(db, client, id).value.Some?
       && Permanent(db, client, Receipt(db, client, id).value.value) {
      ReceiptsArePermanent(db, from, iat, e, (client, id));
    }
  }

  lemma {:induction false} EventsKeep(db: RoleDb, from: Client, envelope: Envelope, events: seq<Incoming>, readings: seq<int>, client: Client, id: Uuid)
    requires AllValid(events) && |readings| == |events| + 1
    ensures var r := ProcessEvents(db, from, envelope, events, readings); r.Success? ==> Keeps(db, r.value, client, id)
    decreases |events|
  {
    if events != [] && ProcessEvents(db, from, envelope, events, readings).Success? {
      assert events[0] in events && forall e :: e in events[1..] ==> e in events;
      ProcessKeeps(db, from, envelope.iat, events[0], client, id);
      var mid := ProcessEvent(db, from, envelope.iat, events[0]).value;
      EventsKeep(mid, from, envelope, events[1..], readings[1..], client, id);
      KeepsTransitive(db, mid, ProcessEvents(db, from, envelope, events, readings).value, client, id);
    }
  }

  // ---------------------------------------------------------------- steps and runs

  predicate Regular(step: Step) {
    ValidStep(step) && (step.Report? ==> OnTheClock(step.batch))
  }

  lemma StepDates(db: RoleDb, step: Step)
    requires Dated(db) && Regular(step)
    ensures Dated(Do(db, step))
  {
    match step
    case Admin(actor, call) =>
      if Perform(db, actor, call).Success? {
        AdminKeepsOrder(db, actor, call);
      }
    case Report(client, b) =>
      assert forall now :: now in b.readings[1..] ==> now in b.readings;
      EventsDate(db, client, b.envelope, b.events, b.readings[1..]);
    case _ =>
  }

  lemma StepKeeps(db: RoleDb, step: Step, client: Client, id: Uuid)
    requires ValidStep(step)
    ensures Keeps(db, Do(db, step), client, id)
  {
    match step
    case Admin(actor, call) =>
      if Perform(db, actor, call).Success? {
        AdminKeepsOrder(db, actor, call);
      }
    case Report(from, b) => EventsKeep(db, from, b.envelope, b.events, b.readings[1..], client, id);
    case _ =>
  }

  lemma {:induction false} RunDates(db: RoleDb, steps: seq<Step>)
    requires Dated(db) && (forall step :: step in steps ==> Regular(step))
    ensures forall step :: step in steps ==> ValidStep(step)
    ensures Dated(Run(db, steps))
  {
    if steps != [] {
      RunDates(db, steps[..|steps| - 1]);
      StepDates(Run(db, steps[..|steps| - 1]), steps[|steps| - 1]);
    }
  }

  /** Over any run, settled receipts stay settled and permanent ones stay. */
  lemma {:induction false} RunKeeps(db: RoleDb, steps: seq<Step>, client: Client, id: Uuid)
    requires forall step :: step in steps ==> ValidStep(step)
    ensures Keeps(db, Run(db, steps), client, id)
  {
    if steps != [] {
      var init := steps[..|steps| - 1];
      RunKeeps(db, init, client, id);
      StepKeeps(Run(db, init), steps[|init|], client, id);
      KeepsTransitive(db, Run(db, init), Run(db, steps), client, id);
    }
  }

  // ---------------------------------------------------------------- replay in reachable states

  /** A batch of distinct ids that a sound state accepted, none of its ids having a receipt without a digest. */
  ghost predicate Accepted(db: RoleDb, client: Client, b: Batch) {
    && Inv(db) && Dated(db) && ValidBatch(b) && OnTheClock(b)
    && DistinctIds(b.events) && NoUnboundReceipts(db, client, b.events)
    && ProcessBatch(db, client, b.envelope, b.events, b.readings).Success?
  }

  lemma AcceptedIsDelivered(db: RoleDb, client: Client, b: Batch)
    requires Accepted(db, client, b)
    ensures var after := Deliver(db, client, b);
            && Inv(after) && Dated(after)
            && forall e :: e in b.events ==> Own(after, client, e)
  {
    ReportKeepsInv(db, client, b);
    StepDates(db, Report(client, b));
    forall e | e in b.events ensures Own(Deliver(db, client, b), client, e) {
      var k :| 0 <= k < |b.events| && b.events[k] == e;
      AcceptedEventIsBound(db, client, b.envelope, b.events, b.readings[1..], k);
    }
  }

  lemma RunLeavesJudged(after: RoleDb, client: Client, events: seq<Incoming>, steps: seq<Step>)
    requires Inv(after) && Dated(after) && (forall step :: step in steps ==> Regular(step))
    requires AllValid(events) && forall e :: e in events ==> Own(after, client, e)
    ensures forall step :: step in steps ==> ValidStep(step)
    ensures var later := Run(after, steps);
            Enabled(later, client) && (HasReport(events) ==> client in later.sync && later.sync[client].digest.Some?) ==> Judged(later, client, events)
  {
    RunDates(after, steps);
    RunKeepsInv(after, steps);
    var later := Run(after, steps);
    forall e | e in events ensures Settled(later, client, e) {
      RunKeeps(after, steps, client, e.id);
    }
    assert Reflects(later, client);
  }

  /**
   * In every state that any run of calls, reports and other changes can reach after the batch was accepted, redelivering
   * it is harmless if and only if every receipt still holds its event or some event is refused.
   */
  lemma ReachableReplayIsHarmlessExactly(db: RoleDb, client: Client, b: Batch, steps: seq<Step>)
    requires Accepted(db, client, b) && (forall step :: step in steps ==> Regular(step))
    ensures forall step :: step in steps ==> ValidStep(step)
    ensures var later := Run(Deliver(db, client, b), steps);
            Enabled(later, client) && (HasReport(b.events) ==> client in later.sync && later.sync[client].digest.Some?) ==>
              (Harmless(later, client, b.events) <==>
                 (forall e :: e in b.events ==> Own(later, client, e)) || (exists e :: e in b.events && Refused(later, client, e)))
  {
    AcceptedIsDelivered(db, client, b);
    RunLeavesJudged(Deliver(db, client, b), client, b.events, steps);
    var later := Run(Deliver(db, client, b), steps);
    if Judged(later, client, b.events) {
      BatchReplayIsHarmlessExactly(later, client, b.events);
    }
  }

  /** For a client that reports revisions, and for batches without reports, no accepted batch ever does harm again. */
  lemma PermanentReplayIsHarmless(db: RoleDb, client: Client, b: Batch, steps: seq<Step>)
    requires Accepted(db, client, b) && (forall step :: step in steps ==> Regular(step))
    requires HasReport(b.events) ==> client in Deliver(db, client, b).sync && Deliver(db, client, b).sync[client].version.Some?
    ensures forall step :: step in steps ==> ValidStep(step)
    ensures Harmless(Run(Deliver(db, client, b), steps), client, b.events)
  {
    var after := Deliver(db, client, b);
    AcceptedIsDelivered(db, client, b);
    RunDates(after, steps);
    var later := Run(after, steps);
    forall e | e in b.events ensures Bound(later, client, e) {
      assert Own(after, client, e) && (e.body.RolesSync? ==> HasReport(b.events));
      RunKeeps(after, steps, client, e.id);
      assert Permanent(after, client, e.body);
    }
    forall envelope: Envelope, readings: seq<int> | |readings| == |b.events| + 2 && ProcessBatch(later, client, envelope, b.events, readings).Success?
      ensures ProcessBatch(later, client, envelope, b.events, readings).value == later
    {
      BoundEventsChangeNothing(later, client, envelope, b.events, readings[1..]);
    }
  }
}
