// Incoming event batches: identity of events, ordering of catalog reports, and
// the transaction that applies a report and publishes its consequences.
module RoleSync {
  import opened Common
  import opened RoleTables
  import opened RolePublish
  import opened RoleCatalogs

  datatype SyncError = InvalidToken | UnknownClient | IdentityConflict | Rejected(reason: CatalogError) | NotPublished(cause: PublishError)

  datatype Incoming = Incoming(id: Uuid, body: Body)

  datatype Envelope = Envelope(iat: int, exp: int)

  predicate EnvelopeCurrent(e: Envelope, now: int) {
    e.iat >= 0 && e.exp > e.iat && e.iat <= now + 10 && now - e.iat <= 310 && e.exp > now - 10
  }

  /** Events as they leave validation: reports are in normal form. */
  predicate Valid(e: Incoming) {
    e.body.RolesSync? ==> WellFormed(e.body.catalog)
  }

  // ---------------------------------------------------------------- one report

  /** A migrated legacy catalog has no digest yet: compare with its stored rows, ignoring a name the report omits. */
  function Baseline(t: Tables, client: Client, state: SyncState, c: RoleCatalog): SyncState {
    if client in t.catalogs && state.digest.None? && state.version.None? then
      var name := if c.siteName.None? || client !in t.clients then None else Some(t.clients[client].name);
      state.(digest := Some(Content(ListOf(RolesOf(t, client)), t.catalogs[client].defaultRole, name)))
    else state
  }

  /** The first reconciliation and the adoption of revisions announce every subject. */
  predicate ForceCurrent(state: SyncState, c: RoleCatalog) {
    state.digest.None? || (state.version.None? && c.version.Some?)
  }

  function Decide(db: RoleDb, client: Client, iat: nat, c: RoleCatalog): Result<Order, CatalogError>
    requires client in db.sync
  {
    CatalogOrder(Baseline(db.t, client, db.sync[client], c), c, iat, client in db.t.catalogs)
  }

  function Stored(db: RoleDb, client: Client, iat: nat, c: RoleCatalog): RoleDb
    requires client in db.sync && WellFormed(c)
  {
    WellFormedLists(c);
    db.(t := CatalogTables(db.t, client, TableOf(c.roles), c.defaultRole, c.siteName, TopId(c.roles), iat),
        sync := db.sync[client := db.sync[client].(version := c.version, digest := Some(ContentOf(c)), iat := iat)])
  }

  function StoreScope(db: RoleDb, client: Client, iat: nat, c: RoleCatalog): Scope
    requires client in db.sync && WellFormed(c)
  {
    WellFormedLists(c);
    var repaired := StoreCatalog(db.t, client, TableOf(c.roles), c.defaultRole, c.siteName, iat);
    Scope(None, ForceCurrent(db.sync[client], c), RootSubjects(repaired, client, TopId(c.roles)))
  }

  predicate LeavesAlone(db: RoleDb, client: Client, c: RoleCatalog, order: Order)
    requires client in db.sync
  {
    order.Old? || (order.Same? && !ForceCurrent(db.sync[client], c))
  }

  function ApplyCatalog(db: RoleDb, client: Client, iat: nat, c: RoleCatalog): Result<(RoleDb, Order), SyncError>
    requires client in db.sync && WellFormed(c)
  {
    match Decide(db, client, iat, c)
    case Failure(e) => Failure(Rejected(e))
    case Success(order) =>
      if LeavesAlone(db, client, c, order) then Success((db, order)) else
      match Publish(Stored(db, client, iat, c), client, StoreScope(db, client, iat, c))
      case Failure(e) => Failure(NotPublished(e))
      case Success(after) => Success((after, order))
  }

  // ---------------------------------------------------------------- one event, one batch

  /** The receipt of an event id, if any; `Some(None)` is a receipt older than digests. */
  function Receipt(db: RoleDb, client: Client, id: Uuid): Option<Option<Body>> {
    Lookup(db.inbox, (client, id))
  }

  function Bind(db: RoleDb, client: Client, e: Incoming): RoleDb {
    db.(inbox := db.inbox[(client, e.id) := Some(e.body)])
  }

  /** Legacy reports re-use an id for a new payload; no other event may. */
  predicate Replaceable(e: Incoming, prior: Option<Option<Body>>) {
    prior.Some? && (prior.value.None? || (e.body.RolesSync? && e.body.catalog.version.None? && prior.value.value.RolesSync?))
  }

  /** A revisioned client accepts only reports of its own epoch, even repeated ones. */
  function EpochCheck(state: SyncState, c: RoleCatalog): Option<CatalogError> {
    if state.version.None? then None
    else if c.version.None? then Some(RevisionRequired)
    else if c.version.value.epoch != state.version.value.epoch then Some(EpochConflict)
    else None
  }

  function ProcessReport(db: RoleDb, client: Client, iat: nat, e: Incoming): Result<RoleDb, SyncError>
    requires client in db.sync && e.body.RolesSync? && Valid(e)
  {
    var prior := Receipt(db, client, e.id);
    if EpochCheck(db.sync[client], e.body.catalog).Some? then Failure(Rejected(EpochCheck(db.sync[client], e.body.catalog).value))
    else if prior == Some(Some(e.body)) && db.sync[client].digest.Some? then Success(db)
    else if prior.Some? && !Replaceable(e, prior) then Failure(IdentityConflict)
    else
      match ApplyCatalog(db, client, iat, e.body.catalog)
      case Failure(err) => Failure(err)
      case Success((after, order)) => Success(if prior == Some(None) && order.Old? then after else Bind(after, client, e))
  }

  function ProcessEvent(db: RoleDb, client: Client, iat: nat, e: Incoming): Result<RoleDb, SyncError>
    requires Valid(e)
  {
    var prior := Receipt(db, client, e.id);
    if e.body.RolesSync? then
      match Ensure(db, client)
      case None => Failure(NotPublished(ClientUnavailable))
      case Some(ready) => ProcessReport(ready, client, iat, e)
    else if prior == Some(Some(e.body)) then Success(db)
    else if prior.Some? && !Replaceable(e, prior) then Failure(IdentityConflict)
    else Success(Bind(db, client, e))
  }

  predicate AllValid(events: seq<Incoming>) {
    forall e :: e in events ==> Valid(e)
  }

  /** Every event in turn; the envelope must still be current before each of them and after the last. */
  function ProcessEvents(db: RoleDb, client: Client, envelope: Envelope, events: seq<Incoming>, readings: seq<int>): Result<RoleDb, SyncError>
    requires AllValid(events) && |readings| == |events| + 1
    decreases |events|
  {
    if !EnvelopeCurrent(envelope, readings[0]) then Failure(InvalidToken)
    else if events == [] then Success(db) else
    match ProcessEvent(db, client, envelope.iat, events[0])
    case Failure(err) => Failure(err)
    case Success(after) => ProcessEvents(after, client, envelope, events[1..], readings[1..])
  }

  function ProcessBatch(db: RoleDb, client: Client, envelope: Envelope, events: seq<Incoming>, readings: seq<int>): Result<RoleDb, SyncError>
    requires AllValid(events) && |readings| == |events| + 2
  {
    if !EnvelopeCurrent(envelope, readings[0]) then Failure(InvalidToken)
    else if client !in db.t.clients || !db.t.clients[client].enabled then Failure(UnknownClient)
    else ProcessEvents(db, client, envelope, events, readings[1..])
  }

  // ---------------------------------------------------------------- the inbox: replays

  /** The event is settled: its receipt holds its digest, and a report has a catalog digest to be compared with. */
  predicate Bound(db: RoleDb, client: Client, e: Incoming) {
    Receipt(db, client, e.id) == Some(Some(e.body)) && (e.body.RolesSync? ==> client in db.sync && db.sync[client].digest.Some?)
  }

  predicate AllBound(db: RoleDb, client: Client, events: seq<Incoming>) {
    forall e :: e in events ==> Bound(db, client, e)
  }

  lemma {:induction false} BoundEventsChangeNothing(db: RoleDb, client: Client, envelope: Envelope, events: seq<Incoming>, readings: seq<int>)
    requires AllValid(events) && |readings| == |events| + 1 && AllBound(db, client, events)
    ensures var r := ProcessEvents(db, client, envelope, events, readings); r.Success? ==> r.value == db
    decreases |events|
  {
    if events != [] {
      assert Bound(db, client, events[0]);
      assert forall e :: e in events[1..] ==> e in events;
      BoundEventsChangeNothing(db, client, envelope, events[1..], readings[1..]);
    }
  }

  predicate DistinctIds(events: seq<Incoming>) {
    forall i, j :: 0 <= i < j < |events| ==> events[i].id != events[j].id
  }

  /** Receipts that predate digests stay unbound when a stale report meets them. */
  predicate NoUnboundReceipts(db: RoleDb, client: Client, events: seq<Incoming>) {
    forall e :: e in events ==> Receipt(db, client, e.id) != Some(None)
  }

  lemma PublishKeepsInbox(db: RoleDb, client: Client, scope: Scope)
    ensures Publish(db, client, scope).Success? ==> Publish(db, client, scope).value.inbox == db.inbox && client in Publish(db, client, scope).value.sync
    ensures Publish(db, client, scope).Success? && client in db.sync ==>
              var before, after := db.sync[client], Publish(db, client, scope).value.sync[client];
              after.digest == before.digest && after.version == before.version
  {
  }

  lemma ApplyKeepsInbox(db: RoleDb, client: Client, iat: nat, c: RoleCatalog)
    requires client in db.sync && WellFormed(c) && ApplyCatalog(db, client, iat, c).Success?
    ensures ApplyCatalog(db, client, iat, c).value.0.inbox == db.inbox
  {
    PublishKeepsInbox(Stored(db, client, iat, c), client, StoreScope(db, client, iat, c));
  }

  lemma ReportInbox(db: RoleDb, client: Client, iat: nat, e: Incoming)
    requires client in db.sync && e.body.RolesSync? && Valid(e) && ProcessReport(db, client, iat, e).Success?
    ensures var after, prior := ProcessReport(db, client, iat, e).value, Receipt(db, client, e.id);
            && (after.inbox == db.inbox[(client, e.id) := Some(e.body)] || (prior == Some(None) && after.inbox == db.inbox))
            && (prior.Some? ==> prior.value == Some(e.body) || Replaceable(e, prior))
            && EpochCheck(db.sync[client], e.body.catalog).None?
  {
    var prior := Receipt(db, client, e.id);
    if prior == Some(Some(e.body)) {
      assert db.inbox[(client, e.id) := Some(e.body)] == db.inbox;
    }
    if ApplyCatalog(db, client, iat, e.body.catalog).Success? {
      ApplyKeepsInbox(db, client, iat, e.body.catalog);
    }
  }

  /** What one accepted event does to the receipts: it binds its own id and no other. */
  lemma ProcessBinds(db: RoleDb, client: Client, iat: nat, e: Incoming)
    requires Valid(e) && ProcessEvent(db, client, iat, e).Success?
    ensures var after, prior := ProcessEvent(db, client, iat, e).value, Receipt(db, client, e.id);
            && (after.inbox == db.inbox[(client, e.id) := Some(e.body)] || (prior == Some(None) && after.inbox == db.inbox))
            && (prior.Some? ==> prior.value == Some(e.body) || Replaceable(e, prior))
            && (e.body.RolesSync? && client in db.sync ==> EpochCheck(db.sync[client], e.body.catalog).None?)
  {
    if e.body.RolesSync? {
      ReportInbox(Ensure(db, client).value, client, iat, e);
    } else if Receipt(db, client, e.id) == Some(Some(e.body)) {
      assert db.inbox[(client, e.id) := Some(e.body)] == db.inbox;
    }
  }

  /** A batch touches only the receipts of its own ids. */
  lemma {:induction false} OtherReceiptsStand(db: RoleDb, client: Client, envelope: Envelope, events: seq<Incoming>, readings: seq<int>, id: Uuid)
    requires AllValid(events) && |readings| == |events| + 1
    requires forall i :: 0 <= i < |events| ==> events[i].id != id
    requires ProcessEvents(db, client, envelope, events, readings).Success?
    ensures Receipt(ProcessEvents(db, client, envelope, events, readings).value, client, id) == Receipt(db, client, id)
    decreases |events|
  {
    if events != [] {
      assert events[0] in events && forall e :: e in events[1..] ==> e in events;
      ProcessBinds(db, client, envelope.iat, events[0]);
      OtherReceiptsStand(ProcessEvent(db, client, envelope.iat, events[0]).value, client, envelope, events[1..], readings[1..], id);
    }
  }

  /** After an accepted batch every event of it is bound. */
  lemma {:induction false} AcceptedEventIsBound(db: RoleDb, client: Client, envelope: Envelope, events: seq<Incoming>, readings: seq<int>, k: nat)
    requires AllValid(events) && |readings| == |events| + 1 && k < |events|
    requires DistinctIds(events) && Receipt(db, client, events[k].id) != Some(None)
    requires ProcessEvents(db, client, envelope, events, readings).Success?
    ensures Receipt(ProcessEvents(db, client, envelope, events, readings).value, client, events[k].id) == Some(Some(events[k].body))
    decreases |events|
  {
    assert events[0] in events && forall e :: e in events[1..] ==> e in events;
    ProcessBinds(db, client, envelope.iat, events[0]);
    var mid := ProcessEvent(db, client, envelope.iat, events[0]).value;
    if k == 0 {
      OtherReceiptsStand(mid, client, envelope, events[1..], readings[1..], events[0].id);
    } else {
      assert events[1..][k - 1] == events[k];
      AcceptedEventIsBound(mid, client, envelope, events[1..], readings[1..], k - 1);
    }
  }

  /** Redelivering an accepted batch in any later envelope, while its receipts stand, changes nothing or is rejected. */
  lemma ReplayChangesNothing(db: RoleDb, client: Client, first: Envelope, events: seq<Incoming>, readings: seq<int>,
                             later: RoleDb, second: Envelope, again: seq<int>)
    requires AllValid(events) && |readings| == |events| + 2 == |again|
    requires DistinctIds(events) && NoUnboundReceipts(db, client, events)
    requires ProcessBatch(db, client, first, events, readings).Success?
    requires var after := ProcessBatch(db, client, first, events, readings).value;
             && (forall e :: e in events ==> Receipt(later, client, e.id) == Receipt(after, client, e.id))
             && (forall e :: e in events && e.body.RolesSync? ==> client in later.sync && later.sync[client].digest.Some?)
    ensures var r := ProcessBatch(later, client, second, events, again); r.Success? ==> r.value == later
  {
    forall e | e in events ensures Bound(later, client, e) {
      var k :| 0 <= k < |events| && events[k] == e;
      AcceptedEventIsBound(db, client, first, events, readings[1..], k);
    }
    if ProcessBatch(later, client, second, events, again).Success? {
      BoundEventsChangeNothing(later, client, second, events, again[1..]);
    }
  }

  /** A receipt of anything but a catalog report is permanent, and once a client is revisioned all its receipts are. */
  lemma ReceiptsArePermanent(db: RoleDb, client: Client, iat: nat, e: Incoming, k: (Client, Uuid))
    requires Valid(e) && ProcessEvent(db, client, iat, e).Success?
    requires k in db.inbox && db.inbox[k].Some?
    requires !db.inbox[k].value.RolesSync? || (client in db.sync && db.sync[client].version.Some?)
    ensures Lookup(ProcessEvent(db, client, iat, e).value.inbox, k) == Some(db.inbox[k])
  {
    ProcessBinds(db, client, iat, e);
    if k == (client, e.id) {
      assert Receipt(db, client, e.id) == Some(db.inbox[k]);
    }
  }

  /** How a client's place in the order of reports may move: within its epoch, never back. */
  predicate Advances(before: SyncState, after: SyncState) {
    && (before.digest.Some? ==> after.digest.Some?)
    && (before.version.Some? ==> after.version.Some? && after.version.value.epoch == before.version.value.epoch
                                 && after.version.value.revision >= before.version.value.revision)
  }

  lemma PublishTouchesOwnSync(db: RoleDb, client: Client, scope: Scope, d: Client)
    requires client in db.sync
    ensures Publish(db, client, scope).Success? ==>
              var after := Publish(db, client, scope).value;
              && (d in after.sync <==> d in db.sync)
              && (d in db.sync ==> after.sync[d].version == db.sync[d].version && after.sync[d].digest == db.sync[d].digest)
  {
  }

  lemma ApplyAdvances(db: RoleDb, client: Client, iat: nat, c: RoleCatalog, d: Client)
    requires client in db.sync && WellFormed(c) && d in db.sync && ApplyCatalog(db, client, iat, c).Success?
    ensures var after := ApplyCatalog(db, client, iat, c).value.0;
            d in after.sync && Advances(db.sync[d], after.sync[d])
  {
    var order := Decide(db, client, iat, c).value;
    if !LeavesAlone(db, client, c, order) {
      PublishTouchesOwnSync(Stored(db, client, iat, c), client, StoreScope(db, client, iat, c), d);
    }
  }

  /** Once a client is revisioned its epoch never changes and its revision never falls. */
  lemma VersionOnlyAdvances(db: RoleDb, client: Client, iat: nat, e: Incoming, d: Client)
    requires Valid(e) && ProcessEvent(db, client, iat, e).Success? && d in db.sync
    ensures var after := ProcessEvent(db, client, iat, e).value;
            d in after.sync && Advances(db.sync[d], after.sync[d])
  {
    if e.body.RolesSync? && Ensure(db, client).Some? {
      var ready := Ensure(db, client).value;
      if ApplyCatalog(ready, client, iat, e.body.catalog).Success? {
        ApplyAdvances(ready, client, iat, e.body.catalog, d);
      }
    }
  }
}
