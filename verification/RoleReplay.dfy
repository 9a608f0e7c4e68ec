// Redelivery of accepted batches: exactly when it can do harm, and why it cannot
// for a client that reports revisions.
module RoleReplay {
  import opened Common
  import opened RoleTables
  import opened RolePublish
  import opened RoleCatalogs
  import opened RoleSync
  import opened RoleSyncTheorems
  import opened RoleAdmin
  import opened RoleClosure
  import opened RoleRuns

  /** In every envelope and at every time, delivering the batch changes nothing or is rejected. */
  ghost predicate Harmless(db: RoleDb, client: Client, events: seq<Incoming>)
    requires AllValid(events)
  {
    forall envelope: Envelope, readings: seq<int> :: |readings| == |events| + 2 ==>
      var r := ProcessBatch(db, client, envelope, events, readings); r.Success? ==> r.value == db
  }

  // ---------------------------------------------------------------- one event

  /** The receipt holds the event itself. */
  predicate Own(db: RoleDb, client: Client, e: Incoming) {
    Receipt(db, client, e.id) == Some(Some(e.body))
  }

  /** Rejected whatever the envelope: by a receipt that may not be replaced, or by the epoch check. */
  predicate Refused(db: RoleDb, client: Client, e: Incoming) {
    || (Receipt(db, client, e.id).Some? && !Own(db, client, e) && !Replaceable(e, Receipt(db, client, e.id)))
    || (e.body.RolesSync? && client in db.sync && EpochCheck(db.sync[client], e.body.catalog).Some?)
  }

  /** A revisioned client's order rejects the report, or finds it stale under a receipt that stays unbound. */
  predicate OutOfOrder(db: RoleDb, client: Client, e: Incoming) {
    && e.body.RolesSync? && client in db.sync && db.sync[client].version.Some? && e.body.catalog.version.Some?
    && var held, told := db.sync[client].version.value.revision, e.body.catalog.version.value.revision;
       || (told == held && db.sync[client].digest != Some(ContentOf(e.body.catalog)))
       || (told < held && Receipt(db, client, e.id) == Some(None))
  }

  /** The client is enabled and, for a report, has a catalog digest and room in its revision counter. */
  predicate Ready(db: RoleDb, client: Client, e: Incoming) {
    && Enabled(db, client)
    && (e.body.RolesSync? ==> Room(db, client, 1) && db.sync[client].digest.Some?)
  }

  lemma OneEventBatch(db: RoleDb, client: Client, envelope: Envelope, e: Incoming, readings: seq<int>)
    requires Valid(e) && |readings| == 3
    ensures var r := ProcessBatch(db, client, envelope, [e], readings);
            && (r.Success? ==> envelope.iat >= 0 && ProcessEvent(db, client, envelope.iat, e) == r)
            && (Enabled(db, client) && (forall now :: now in readings ==> EnvelopeCurrent(envelope, now)) ==>
                  envelope.iat >= 0 && (ProcessEvent(db, client, envelope.iat, e).Success? ==> r == ProcessEvent(db, client, envelope.iat, e)))
  {
    assert [e][1..] == [] && readings[0] in readings && readings[1] in readings && readings[2] in readings;
    assert readings[1..][0] == readings[1] && readings[1..][1..][0] == readings[2];
    if EnvelopeCurrent(envelope, readings[1]) && ProcessEvent(db, client, envelope.iat, e).Success? {
      var after := ProcessEvent(db, client, envelope.iat, e).value;
      assert ProcessEvents(after, client, envelope, [], readings[1..][1..]) ==
             if EnvelopeCurrent(envelope, readings[2]) then Success(after) else Failure(InvalidToken);
    }
  }

  /** What may be ignored is ignored in every envelope. */
  lemma IgnoredChangesNothing(db: RoleDb, client: Client, iat: nat, e: Incoming)
    requires Valid(e) && Ready(db, client, e)
    requires Own(db, client, e) || Refused(db, client, e) || OutOfOrder(db, client, e)
    requires ProcessEvent(db, client, iat, e).Success?
    ensures ProcessEvent(db, client, iat, e).value == db
  {
  }

  /** A fresh enough report is applied. */
  lemma FreshReportApplies(db: RoleDb, client: Client, e: Incoming)
    requires Valid(e) && Ready(db, client, e) && e.body.RolesSync?
    requires EpochCheck(db.sync[client], e.body.catalog).None? && !OutOfOrder(db, client, e)
    ensures ApplyCatalog(db, client, db.sync[client].iat + 1, e.body.catalog).Success?
    ensures Receipt(db, client, e.id) == Some(None) ==> !ApplyCatalog(db, client, db.sync[client].iat + 1, e.body.catalog).value.1.Old?
  {
    var iat, c := db.sync[client].iat + 1, e.body.catalog;
    PublishAdvancesByOne(Stored(db, client, iat, c), client, StoreScope(db, client, iat, c));
  }

  function FreshIat(db: RoleDb, client: Client): nat {
    if client in db.sync then db.sync[client].iat + 1 else 0
  }

  /** Whatever else is delivered changes at least its receipt. */
  lemma OtherwiseItChanges(db: RoleDb, client: Client, e: Incoming)
    requires Valid(e) && Ready(db, client, e)
    requires !Own(db, client, e) && !Refused(db, client, e) && !OutOfOrder(db, client, e)
    ensures var r := ProcessEvent(db, client, FreshIat(db, client), e);
            r.Success? && Receipt(r.value, client, e.id) == Some(Some(e.body)) && r.value != db
  {
    if e.body.RolesSync? {
      FreshReportApplies(db, client, e);
    }
  }

  /** Any delivery of one event, in any state: it is harmless if and only if its receipt is its own, it is refused, or it is out of order. */
  lemma DeliveryIsHarmlessExactly(db: RoleDb, client: Client, e: Incoming)
    requires Valid(e) && Ready(db, client, e)
    ensures Harmless(db, client, [e]) <==> Own(db, client, e) || Refused(db, client, e) || OutOfOrder(db, client, e)
  {
    if Own(db, client, e) || Refused(db, client, e) || OutOfOrder(db, client, e) {
      forall envelope: Envelope, readings: seq<int> | |readings| == 3 && ProcessBatch(db, client, envelope, [e], readings).Success?
        ensures ProcessBatch(db, client, envelope, [e], readings).value == db
      {
        OneEventBatch(db, client, envelope, e, readings);
        IgnoredChangesNothing(db, client, envelope.iat, e);
      }
    } else {
      var iat := FreshIat(db, client);
      var envelope, readings := Envelope(iat, iat + 1), [iat, iat, iat];
      OneEventBatch(db, client, envelope, e, readings);
      OtherwiseItChanges(db, client, e);
      assert |readings| == |[e]| + 2 && ProcessBatch(db, client, envelope, [e], readings).value != db;
    }
  }

  /** A receipt with a digest, as every acceptance leaves it. */
  predicate Settled(db: RoleDb, client: Client, e: Incoming) {
    Receipt(db, client, e.id).Some? && Receipt(db, client, e.id).value.Some?
  }

  /**
   * Redelivery of an accepted event: harmless if and only if the receipt still holds the event, or may not be replaced
   * by it, or the client is revisioned and the report carries no revision.
   */
  lemma ReplayIsHarmlessExactly(db: RoleDb, client: Client, e: Incoming)
    requires Valid(e) && Ready(db, client, e) && Settled(db, client, e)
    ensures Harmless(db, client, [e]) <==>
              || Own(db, client, e)
              || !Replaceable(e, Receipt(db, client, e.id))
              || (e.body.RolesSync? && db.sync[client].version.Some? && e.body.catalog.version.None?)
  {
    DeliveryIsHarmlessExactly(db, client, e);
  }

  // ---------------------------------------------------------------- a harmful replay

  /** A client that has never reported. */
  const FRESH: RoleDb := RoleDb(
    Tables(map[0 := ClientRow(true, 0)], map[], map[], map[], {}, map[], map[], map[], map[], map[], map[], None),
    map[], map[], [], map[])

  const OLD_NAME: RoleCatalog := RoleCatalog([], None, Some(1), None)
  const NEW_NAME: RoleCatalog := RoleCatalog([], None, Some(2), None)

  function Named(iat: nat, c: RoleCatalog): Batch {
    Batch(Envelope(iat, iat + 300), [Incoming(7, RolesSync(c))], [iat, iat, iat])
  }

  /** The state of that client after a report of its name alone. */
  function NamedDb(name: nat, iat: nat): RoleDb {
    RoleDb(
      Tables(map[0 := ClientRow(true, name)], map[], map[], map[], {}, map[], map[], map[], map[], map[0 := CatalogRow(None, iat)], map[0 := map[]], None),
      map[0 := SyncState(None, Some(Content([], None, Some(name))), iat, 0, 0)], map[], [],
      map[(0, 7) := Some(RolesSync(RoleCatalog([], None, Some(name), None)))])
  }

  lemma FirstNameApplies(name: nat, iat: nat)
    ensures ProcessEvent(FRESH, 0, iat, Incoming(7, RolesSync(RoleCatalog([], None, Some(name), None)))) == Success(NamedDb(name, iat))
  {
    var c := RoleCatalog([], None, Some(name), None);
    var ready := Ensure(FRESH, 0).value;
    assert Decide(ready, 0, iat, c) == Success(Apply);
    var stored := Stored(ready, 0, iat, c);
    assert Changed(stored, 0, StoreScope(ready, 0, iat, c)) == {};
    assert Publish(stored, 0, StoreScope(ready, 0, iat, c)) == Success(stored);
    assert Bind(stored, 0, Incoming(7, RolesSync(c))) == NamedDb(name, iat);
  }

  /** Under one id a later name replaces an earlier one. */
  lemma LaterNameApplies(before: nat, at: nat, name: nat, iat: nat)
    requires at < iat && before != name
    ensures ProcessEvent(NamedDb(before, at), 0, iat, Incoming(7, RolesSync(RoleCatalog([], None, Some(name), None)))) == Success(NamedDb(name, iat))
  {
    var c := RoleCatalog([], None, Some(name), None);
    var ready := NamedDb(before, at);
    assert Ensure(ready, 0) == Some(ready);
    assert Decide(ready, 0, iat, c) == Success(Apply);
    var stored := Stored(ready, 0, iat, c);
    assert Changed(stored, 0, StoreScope(ready, 0, iat, c)) == {};
    assert Publish(stored, 0, StoreScope(ready, 0, iat, c)) == Success(stored);
    assert Bind(stored, 0, Incoming(7, RolesSync(c))) == NamedDb(name, iat);
  }

  lemma NamedIsDelivered(db: RoleDb, iat: nat, c: RoleCatalog, after: RoleDb)
    requires WellFormed(c) && Enabled(db, 0) && ProcessEvent(db, 0, iat, Incoming(7, RolesSync(c))) == Success(after)
    ensures ValidBatch(Named(iat, c)) && Deliver(db, 0, Named(iat, c)) == after
    ensures after != db ==> !Harmless(db, 0, Named(iat, c).events)
  {
    var b := Named(iat, c);
    OneEventBatch(db, 0, b.envelope, Incoming(7, RolesSync(c)), b.readings);
    assert ProcessBatch(db, 0, b.envelope, b.events, b.readings) == Success(after);
  }

  lemma FirstDelivery()
    ensures ValidBatch(Named(100, OLD_NAME)) && Deliver(FRESH, 0, Named(100, OLD_NAME)) == NamedDb(1, 100)
  {
    FirstNameApplies(1, 100);
    NamedIsDelivered(FRESH, 100, OLD_NAME, NamedDb(1, 100));
  }

  lemma LaterDelivery(before: nat, at: nat, name: nat, iat: nat)
    requires at < iat && before != name
    ensures var c := RoleCatalog([], None, Some(name), None);
            && ValidBatch(Named(iat, c)) && Deliver(NamedDb(before, at), 0, Named(iat, c)) == NamedDb(name, iat)
            && !Harmless(NamedDb(before, at), 0, Named(iat, c).events)
  {
    LaterNameApplies(before, at, name, iat);
    assert NamedDb(before, at).t.clients[0] != NamedDb(name, iat).t.clients[0];
    NamedIsDelivered(NamedDb(before, at), iat, RoleCatalog([], None, Some(name), None), NamedDb(name, iat));
  }

  lemma NameOf(name: nat, iat: nat)
    ensures NamedDb(name, iat).t.clients == map[0 := ClientRow(true, name)]
  {
  }

  /** A legacy client reports a name and then, under the same id, another one; redelivering the first report unchanged takes the new name back. */
  lemma ReplayCanDoHarm()
    ensures ValidBatch(Named(100, OLD_NAME)) && ValidBatch(Named(101, NEW_NAME)) && ValidBatch(Named(102, OLD_NAME))
    ensures Named(102, OLD_NAME).events == Named(100, OLD_NAME).events
    ensures var one := Deliver(FRESH, 0, Named(100, OLD_NAME));
            var two := Deliver(one, 0, Named(101, NEW_NAME));
            var three := Deliver(two, 0, Named(102, OLD_NAME));
            && one.t.clients == map[0 := ClientRow(true, 1)] && two.t.clients == map[0 := ClientRow(true, 2)]
            && three.t.clients == one.t.clients && !Harmless(two, 0, Named(102, OLD_NAME).events)
  {
    FirstDelivery();
    LaterDelivery(1, 100, 2, 101);
    LaterDelivery(2, 101, 1, 102);
    NameOf(1, 100);
    NameOf(2, 101);
    NameOf(1, 102);
  }

  // ---------------------------------------------------------------- batches

  lemma RefusalStays(db: RoleDb, client: Client, iat: nat, first: Incoming, e: Incoming)
    requires Valid(first) && first.id != e.id && Refused(db, client, e) && ProcessEvent(db, client, iat, first).Success?
    ensures Refused(ProcessEvent(db, client, iat, first).value, client, e)
  {
    ProcessBinds(db, client, iat, first);
    if client in db.sync {
      VersionOnlyAdvances(db, client, iat, first, client);
    }
  }

  lemma RefusedIsRejected(db: RoleDb, client: Client, iat: nat, e: Incoming)
    requires Valid(e) && Refused(db, client, e)
    ensures ProcessEvent(db, client, iat, e).Failure?
  {
  }

  /** A batch with a refused event is rejected as a whole. */
  lemma {:induction false} RefusedBatchIsRejected(db: RoleDb, client: Client, envelope: Envelope, events: seq<Incoming>, readings: seq<int>, k: nat)
    requires AllValid(events) && |readings| == |events| + 1 && DistinctIds(events) && k < |events| && Refused(db, client, events[k])
    ensures ProcessEvents(db, client, envelope, events, readings).Failure?
    decreases |events|
  {
    if EnvelopeCurrent(envelope, readings[0]) {
      assert events[0] in events && forall e :: e in events[1..] ==> e in events;
      if k == 0 {
        RefusedIsRejected(db, client, envelope.iat, events[0]);
      } else if ProcessEvent(db, client, envelope.iat, events[0]).Success? {
        RefusalStays(db, client, envelope.iat, events[0], events[k]);
        assert events[1..][k - 1] == events[k];
        RefusedBatchIsRejected(ProcessEvent(db, client, envelope.iat, events[0]).value, client, envelope, events[1..], readings[1..], k - 1);
      }
    }
  }

  /** The stored catalog is older than nothing the stale envelope brings. */
  predicate Stale(db: RoleDb, client: Client, iat: int) {
    client in db.sync && db.sync[client].digest.Some? && client in db.t.catalogs && 0 <= iat < db.sync[client].iat
  }

  /** Its receipt is settled and it is not refused; a report finds a stored catalog newer than the envelope. */
  predicate Replays(db: RoleDb, client: Client, iat: int, e: Incoming) {
    Valid(e) && Settled(db, client, e) && !Refused(db, client, e) && (e.body.RolesSync? ==> Stale(db, client, iat))
  }

  /** A stale event that is not refused changes its own receipt and nothing else. */
  lemma StaleEventRebinds(db: RoleDb, client: Client, iat: nat, e: Incoming)
    requires Replays(db, client, iat, e)
    ensures ProcessEvent(db, client, iat, e) == Success(Bind(db, client, e))
  {
    if Own(db, client, e) {
      assert Bind(db, client, e).inbox == db.inbox;
    }
  }

  lemma RebindingKeeps(db: RoleDb, client: Client, iat: nat, first: Incoming, e: Incoming)
    requires first.id != e.id && Replays(db, client, iat, e)
    ensures Replays(Bind(db, client, first), client, iat, e)
  {
  }

  lemma {:induction false} StaleBatchRebinds(db: RoleDb, client: Client, envelope: Envelope, events: seq<Incoming>, readings: seq<int>)
    requires AllValid(events) && |readings| == |events| + 1 && DistinctIds(events)
    requires envelope.iat >= 0 && (forall now :: now in readings ==> EnvelopeCurrent(envelope, now))
    requires forall k :: 0 <= k < |events| ==> Replays(db, client, envelope.iat, events[k])
    ensures ProcessEvents(db, client, envelope, events, readings).Success?
    decreases |events|
  {
    assert readings[0] in readings && EnvelopeCurrent(envelope, readings[0]);
    if events != [] {
      var rest := events[1..];
      StaleEventRebinds(db, client, envelope.iat, events[0]);
      assert forall now :: now in readings[1..] ==> now in readings;
      assert forall e :: e in rest ==> e in events;
      forall k | 0 <= k < |rest| ensures Replays(Bind(db, client, events[0]), client, envelope.iat, rest[k]) {
        assert rest[k] == events[k + 1];
        RebindingKeeps(db, client, envelope.iat, events[0], rest[k]);
      }
      StaleBatchRebinds(Bind(db, client, events[0]), client, envelope, rest, readings[1..]);
    }
  }

  predicate HasReport(events: seq<Incoming>) {
    exists e :: e in events && e.body.RolesSync?
  }

  /** What a state must offer to judge a batch: an enabled client and, for reports, a digest and the time of an accepted envelope. */
  ghost predicate Judged(db: RoleDb, client: Client, events: seq<Incoming>) {
    && Enabled(db, client)
    && (forall e :: e in events ==> Settled(db, client, e))
    && (HasReport(events) ==> client in db.sync && db.sync[client].digest.Some? && Reflects(db, client) && db.sync[client].iat > 0)
  }

  /** With every receipt its own, a batch changes nothing. */
  lemma OwnBatchIsHarmless(db: RoleDb, client: Client, events: seq<Incoming>)
    requires AllValid(events) && Judged(db, client, events) && forall e :: e in events ==> Own(db, client, e)
    ensures Harmless(db, client, events)
  {
    forall e | e in events ensures Bound(db, client, e) {
      assert Own(db, client, e) && (e.body.RolesSync? ==> HasReport(events));
    }
    forall envelope: Envelope, readings: seq<int> | |readings| == |events| + 2 && ProcessBatch(db, client, envelope, events, readings).Success?
      ensures ProcessBatch(db, client, envelope, events, readings).value == db
    {
      BoundEventsChangeNothing(db, client, envelope, events, readings[1..]);
    }
  }

  lemma RefusedBatchIsHarmless(db: RoleDb, client: Client, events: seq<Incoming>, k: nat)
    requires AllValid(events) && DistinctIds(events) && k < |events| && Refused(db, client, events[k])
    ensures Harmless(db, client, events)
  {
    forall envelope: Envelope, readings: seq<int> | |readings| == |events| + 2
      ensures ProcessBatch(db, client, envelope, events, readings).Failure?
    {
      RefusedBatchIsRejected(db, client, envelope, events, readings[1..], k);
    }
  }

  /** An envelope older than the stored catalog replaces every receipt that is not the batch's own. */
  lemma StaleBatchDoesHarm(db: RoleDb, client: Client, events: seq<Incoming>, k: nat)
    requires AllValid(events) && DistinctIds(events) && Judged(db, client, events)
    requires forall e :: e in events ==> !Refused(db, client, e)
    requires k < |events| && !Own(db, client, events[k])
    ensures !Harmless(db, client, events)
  {
    var iat := if HasReport(events) then db.sync[client].iat - 1 else 0;
    var envelope := Envelope(iat, iat + 1);
    var readings := seq(|events| + 2, i => iat);
    assert forall now :: now in readings[1..] ==> now == iat;
    forall i | 0 <= i < |events| ensures Replays(db, client, iat, events[i]) {
      assert events[i] in events && (events[i].body.RolesSync? ==> HasReport(events));
    }
    StaleBatchRebinds(db, client, envelope, events, readings[1..]);
    assert Settled(db, client, events[k]) by { assert events[k] in events; }
    AcceptedEventIsBound(db, client, envelope, events, readings[1..], k);
    var r := ProcessBatch(db, client, envelope, events, readings);
    assert |readings| == |events| + 2 && r.Success? && Receipt(r.value, client, events[k].id) != Receipt(db, client, events[k].id);
  }

  /**
   * Redelivery of an accepted batch: harmless if and only if every receipt still holds its event, or some event of the
   * batch is refused. Refusal is the guard of the source: a receipt that may not be replaced, or the epoch check.
   */
  lemma BatchReplayIsHarmlessExactly(db: RoleDb, client: Client, events: seq<Incoming>)
    requires AllValid(events) && DistinctIds(events) && Judged(db, client, events)
    ensures Harmless(db, client, events) <==>
              (forall e :: e in events ==> Own(db, client, e)) || (exists e :: e in events && Refused(db, client, e))
  {
    if forall e :: e in events ==> Own(db, client, e) {
      OwnBatchIsHarmless(db, client, events);
    } else if e :| e in events && Refused(db, client, e) {
      var k :| 0 <= k < |events| && events[k] == e;
      RefusedBatchIsHarmless(db, client, events, k);
    } else {
      var e :| e in events && !Own(db, client, e);
      var k :| 0 <= k < |events| && events[k] == e;
      StaleBatchDoesHarm(db, client, events, k);
    }
  }
}
