// What catalog synchronisation promises: authority and references stay sound, and
// reports converge to the highest revision whatever their order and multiplicity.
module RoleSyncTheorems {
  import opened Common
  import opened RoleTables
  import opened RolePublish
  import opened RoleCatalogs
  import opened RoleSync

  /** The stored catalog is the one whose digest the sync row holds. */
  ghost predicate Reflects(db: RoleDb, client: Client) {
    client in db.sync && db.sync[client].digest.Some? ==>
      var content := db.sync[client].digest.value;
      && client in db.t.catalogs && db.t.catalogs[client].defaultRole == content.defaultRole
      && RolesOf(db.t, client) == TableOf(content.roles)
  }

  /** What every role transaction keeps. */
  ghost predicate Sound(db: RoleDb) {
    && EventsOk(db) && LedgerOk(db) && NoDangling(db.t)
    && (forall c: Client :: Reflects(db, c))
  }

  // ---------------------------------------------------------------- a report keeps everything sound

  lemma StoredKeepsEvents(db: RoleDb, client: Client, iat: nat, c: RoleCatalog)
    requires EventsOk(db) && client in db.sync && WellFormed(c)
    ensures EventsOk(Stored(db, client, iat, c)) && Follows(db, Stored(db, client, iat, c))
  {
    var after := Stored(db, client, iat, c);
    forall e | e in after.events ensures EventOk(after, e) {
      assert EventOk(db, e);
    }
    forall d: Client, s: Sub ensures Announced(after, d, s) {
      assert Announced(db, d, s);
      if (d, s) in db.ledger && db.ledger[(d, s)].revision > 0 {
        var e :| e in db.events && IsLatest(db, d, s, e);
        assert IsLatest(after, d, s, e);
      }
    }
  }

  lemma StoredKeepsOtherLedgers(db: RoleDb, client: Client, iat: nat, c: RoleCatalog, d: Client, s: Sub)
    requires client in db.sync && WellFormed(c) && Agrees(db, d, s)
    requires d != client || s !in db.t.identities
    ensures Agrees(Stored(db, client, iat, c), d, s)
  {
    if d != client {
      WellFormedLists(c);
      CatalogKeepsOthers(db.t, client, TableOf(c.roles), c.defaultRole, c.siteName, TopId(c.roles), iat, d, s);
      SameResolutionResolves(Stored(db, client, iat, c).t, db.t, d, s);
    }
  }

  lemma StoredReflects(db: RoleDb, client: Client, iat: nat, c: RoleCatalog, d: Client)
    requires client in db.sync && WellFormed(c) && Reflects(db, d)
    ensures Reflects(Stored(db, client, iat, c), d)
  {
    WellFormedLists(c);
    if d != client {
      OtherCatalogs(db.t, client, TableOf(c.roles), c.defaultRole, c.siteName, TopId(c.roles), iat, d);
    }
  }

  lemma ApplyKeepsSound(db: RoleDb, client: Client, iat: nat, c: RoleCatalog)
    requires Sound(db) && client in db.sync && WellFormed(c) && ApplyCatalog(db, client, iat, c).Success?
    ensures var after := ApplyCatalog(db, client, iat, c).value.0; Sound(after) && Follows(db, after)
  {
    var order := Decide(db, client, iat, c).value;
    if !LeavesAlone(db, client, c, order) {
      var stored, scope := Stored(db, client, iat, c), StoreScope(db, client, iat, c);
      var after := ApplyCatalog(db, client, iat, c).value.0;
      StoredKeepsEvents(db, client, iat, c);
      PublishKeeps(stored, client, scope);
      FollowsTransitive(db, stored, after);
      WellFormedLists(c);
      CatalogKeepsReferences(db.t, client, TableOf(c.roles), c.defaultRole, c.siteName, TopId(c.roles), iat);
      forall d: Client, s: Sub ensures Agrees(after, d, s) {
        assert Agrees(db, d, s);
        if d != client || s !in db.t.identities {
          StoredKeepsOtherLedgers(db, client, iat, c, d, s);
        }
      }
      forall d: Client ensures Reflects(after, d) {
        assert Reflects(db, d);
        StoredReflects(db, client, iat, c, d);
        PublishTouchesOwnSync(stored, client, scope, d);
      }
    }
  }

  lemma EnsureKeepsSound(db: RoleDb, client: Client)
    requires Sound(db) && Ensure(db, client).Some?
    ensures Sound(Ensure(db, client).value) && Follows(db, Ensure(db, client).value)
  {
    EnsureKeeps(db, client);
    var ready := Ensure(db, client).value;
    forall d: Client ensures Reflects(ready, d) {
      assert Reflects(db, d);
    }
  }

  lemma BindKeepsSound(db: RoleDb, client: Client, e: Incoming)
    requires Sound(db)
    ensures Sound(Bind(db, client, e)) && Follows(db, Bind(db, client, e))
  {
    var after := Bind(db, client, e);
    forall f | f in after.events ensures EventOk(after, f) {
      assert EventOk(db, f);
    }
    forall d: Client, s: Sub ensures Announced(after, d, s) && Agrees(after, d, s) {
      assert Announced(db, d, s) && Agrees(db, d, s);
      if (d, s) in db.ledger && db.ledger[(d, s)].revision > 0 {
        var f :| f in db.events && IsLatest(db, d, s, f);
        assert IsLatest(after, d, s, f);
      }
    }
    forall d: Client ensures Reflects(after, d) {
      assert Reflects(db, d);
    }
  }

  lemma ReportKeepsSound(ready: RoleDb, client: Client, iat: nat, e: Incoming)
    requires Sound(ready) && client in ready.sync && Valid(e) && e.body.RolesSync? && ProcessReport(ready, client, iat, e).Success?
    ensures var after := ProcessReport(ready, client, iat, e).value; Sound(after) && Follows(ready, after)
  {
    var after := ProcessReport(ready, client, iat, e).value;
    if after != ready {
      ApplyKeepsSound(ready, client, iat, e.body.catalog);
      var applied := ApplyCatalog(ready, client, iat, e.body.catalog).value.0;
      if after != applied {
        assert after == Bind(applied, client, e);
        BindKeepsSound(applied, client, e);
        FollowsTransitive(ready, applied, after);
      }
    }
  }

  lemma ProcessKeepsSound(db: RoleDb, client: Client, iat: nat, e: Incoming)
    requires Sound(db) && Valid(e) && ProcessEvent(db, client, iat, e).Success?
    ensures var after := ProcessEvent(db, client, iat, e).value; Sound(after) && Follows(db, after)
  {
    var after := ProcessEvent(db, client, iat, e).value;
    if e.body.RolesSync? {
      EnsureKeepsSound(db, client);
      var ready := Ensure(db, client).value;
      ReportKeepsSound(ready, client, iat, e);
      FollowsTransitive(db, ready, after);
      assert Sound(after);
    } else if after != db {
      assert after == Bind(db, client, e);
      BindKeepsSound(db, client, e);
    }
  }

  lemma {:induction false} ProcessAllKeepsSound(db: RoleDb, client: Client, envelope: Envelope, events: seq<Incoming>, readings: seq<int>)
    requires Sound(db) && AllValid(events) && |readings| == |events| + 1
    ensures var r := ProcessEvents(db, client, envelope, events, readings); r.Success? ==> Sound(r.value) && Follows(db, r.value)
    decreases |events|
  {
    if events != [] && ProcessEvents(db, client, envelope, events, readings).Success? {
      assert events[0] in events;
      ProcessKeepsSound(db, client, envelope.iat, events[0]);
      var mid := ProcessEvent(db, client, envelope.iat, events[0]).value;
      assert forall e :: e in events[1..] ==> e in events;
      ProcessAllKeepsSound(mid, client, envelope, events[1..], readings[1..]);
      FollowsTransitive(db, mid, ProcessEvents(db, client, envelope, events, readings).value);
    }
  }

  // ---------------------------------------------------------------- reports converge

  /** A revisioned report of one epoch whose content is what its revision stands for. */
  predicate Told(e: Incoming, epoch: Uuid, truth: map<nat, Content>) {
    && Valid(e) && e.body.RolesSync? && e.body.catalog.version.Some?
    && e.body.catalog.version.value.epoch == epoch
    && e.body.catalog.version.value.revision in truth
    && ContentOf(e.body.catalog) == truth[e.body.catalog.version.value.revision]
  }

  predicate AllTold(events: seq<Incoming>, epoch: Uuid, truth: map<nat, Content>) {
    forall e :: e in events ==> Told(e, epoch, truth)
  }

  function RevisionOf(e: Incoming): nat {
    if e.body.RolesSync? && e.body.catalog.version.Some? then e.body.catalog.version.value.revision else 0
  }

  /** The client holds revision `r` of the truth, and its receipts name no later one. */
  ghost predicate Holds(db: RoleDb, client: Client, epoch: Uuid, truth: map<nat, Content>, r: nat) {
    && client in db.sync && db.sync[client].version == Some(Version(epoch, r))
    && r in truth && db.sync[client].digest == Some(truth[r]) && Reflects(db, client)
    && forall id: Uuid, body: Body :: Receipt(db, client, id) == Some(Some(body)) && body.RolesSync? && body.catalog.version.Some? ==>
         body.catalog.version.value.revision <= r
  }

  ghost predicate MovedTo(db: RoleDb, after: RoleDb, client: Client, epoch: Uuid, truth: map<nat, Content>, r: nat) {
    && client in after.sync && after.sync[client].version == Some(Version(epoch, r))
    && r in truth && after.sync[client].digest == Some(truth[r]) && Reflects(after, client)
    && after.inbox == db.inbox
  }

  lemma ApplyTold(db: RoleDb, client: Client, iat: nat, e: Incoming, epoch: Uuid, truth: map<nat, Content>, r: nat)
    requires Holds(db, client, epoch, truth, r) && Told(e, epoch, truth)
    ensures Decide(db, client, iat, e.body.catalog) ==
              Success(if RevisionOf(e) > r then Apply else if RevisionOf(e) == r then Same else Old)
    ensures var result := ApplyCatalog(db, client, iat, e.body.catalog);
            && (result.Failure? ==> result.error == NotPublished(RevisionExhausted))
            && (result.Success? ==>
                  var after := result.value.0;
                  && (RevisionOf(e) <= r ==> after == db)
                  && (RevisionOf(e) > r ==> MovedTo(db, after, client, epoch, truth, RevisionOf(e))))
  {
    var c := e.body.catalog;
    if RevisionOf(e) > r && ApplyCatalog(db, client, iat, c).Success? {
      StoredReflects(db, client, iat, c, client);
      PublishTouchesOwnSync(Stored(db, client, iat, c), client, StoreScope(db, client, iat, c), client);
      PublishKeepsInbox(Stored(db, client, iat, c), client, StoreScope(db, client, iat, c));
      PublishKeepsTables(Stored(db, client, iat, c), client, StoreScope(db, client, iat, c));
    }
  }

  lemma PublishKeepsTables(db: RoleDb, client: Client, scope: Scope)
    requires client in db.sync
    ensures Publish(db, client, scope).Success? ==> Publish(db, client, scope).value.t == db.t && Publish(db, client, scope).value.sync.Keys == db.sync.Keys
  {
  }

  /** One accepted report leaves the client at the higher of the two revisions. */
  lemma ToldReportConverges(db: RoleDb, client: Client, iat: nat, e: Incoming, epoch: Uuid, truth: map<nat, Content>, r: nat)
    requires Holds(db, client, epoch, truth, r) && Told(e, epoch, truth)
    requires ProcessEvent(db, client, iat, e).Success?
    ensures Holds(ProcessEvent(db, client, iat, e).value, client, epoch, truth, Max(r, RevisionOf(e)))
  {
    ApplyTold(db, client, iat, e, epoch, truth, r);
    ProcessBinds(db, client, iat, e);
    var after, m := ProcessEvent(db, client, iat, e).value, Max(r, RevisionOf(e));
    forall id: Uuid, body: Body | Receipt(after, client, id) == Some(Some(body)) && body.RolesSync? && body.catalog.version.Some?
      ensures body.catalog.version.value.revision <= m
    {
      if id != e.id {
        assert Receipt(db, client, id) == Some(Some(body));
      }
    }
  }

  /** The first accepted revisioned report takes a legacy client over, whatever was stored. */
  lemma FirstRevisionIsAdopted(db: RoleDb, client: Client, iat: nat, e: Incoming, epoch: Uuid, truth: map<nat, Content>)
    requires client in db.sync && db.sync[client].version.None? && Reflects(db, client) && Told(e, epoch, truth)
    requires forall id: Uuid, body: Body :: Receipt(db, client, id) == Some(Some(body)) && body.RolesSync? ==> body.catalog.version.None?
    requires ProcessEvent(db, client, iat, e).Success?
    ensures Holds(ProcessEvent(db, client, iat, e).value, client, epoch, truth, RevisionOf(e))
  {
    var c := e.body.catalog;
    assert Decide(db, client, iat, c) == Success(Apply);
    var stored, scope := Stored(db, client, iat, c), StoreScope(db, client, iat, c);
    StoredReflects(db, client, iat, c, client);
    PublishTouchesOwnSync(stored, client, scope, client);
    PublishKeepsInbox(stored, client, scope);
    PublishKeepsTables(stored, client, scope);
    ProcessBinds(db, client, iat, e);
    var after := ProcessEvent(db, client, iat, e).value;
    forall id: Uuid, body: Body | id != e.id && Receipt(after, client, id) == Some(Some(body)) && body.RolesSync?
      ensures body.catalog.version.None?
    {
      assert Receipt(db, client, id) == Some(Some(body));
    }
  }

  function Highest(r: nat, events: seq<Incoming>): nat
    decreases |events|
  {
    if events == [] then r else Highest(Max(r, RevisionOf(events[0])), events[1..])
  }

  lemma {:induction false} ToldBatchConverges(db: RoleDb, client: Client, envelope: Envelope, events: seq<Incoming>, readings: seq<int>,
                                              epoch: Uuid, truth: map<nat, Content>, r: nat)
    requires AllValid(events) && AllTold(events, epoch, truth) && |readings| == |events| + 1
    requires Holds(db, client, epoch, truth, r)
    ensures var result := ProcessEvents(db, client, envelope, events, readings);
            result.Success? ==> Holds(result.value, client, epoch, truth, Highest(r, events))
    decreases |events|
  {
    if events != [] && ProcessEvents(db, client, envelope, events, readings).Success? {
      var e := events[0];
      assert e in events && forall x :: x in events[1..] ==> x in events;
      ToldReportConverges(db, client, envelope.iat, e, epoch, truth, r);
      ToldBatchConverges(ProcessEvent(db, client, envelope.iat, e).value, client, envelope, events[1..], readings[1..],
                         epoch, truth, Max(r, RevisionOf(e)));
    }
  }

  datatype Batch = Batch(envelope: Envelope, events: seq<Incoming>, readings: seq<int>)

  predicate ValidBatch(b: Batch) {
    AllValid(b.events) && |b.readings| == |b.events| + 2
  }

  /** Batches in turn, each its own transaction: a rejected one leaves no trace. */
  function Deliver(db: RoleDb, client: Client, b: Batch): RoleDb
    requires ValidBatch(b)
  {
    var r := ProcessBatch(db, client, b.envelope, b.events, b.readings);
    if r.Success? then r.value else db
  }

  function DeliverAll(db: RoleDb, client: Client, batches: seq<Batch>): RoleDb
    requires forall b :: b in batches ==> ValidBatch(b)
    decreases |batches|
  {
    if batches == [] then db else DeliverAll(Deliver(db, client, batches[0]), client, batches[1..])
  }

  /** The highest revision among the accepted batches. */
  function HighestAccepted(db: RoleDb, client: Client, batches: seq<Batch>, r: nat): nat
    requires forall b :: b in batches ==> ValidBatch(b)
    decreases |batches|
  {
    if batches == [] then r else
    var b := batches[0];
    assert b in batches && ValidBatch(b);
    var accepted := ProcessBatch(db, client, b.envelope, b.events, b.readings).Success?;
    HighestAccepted(Deliver(db, client, b), client, batches[1..], if accepted then Highest(r, b.events) else r)
  }

  /** Any order and multiplicity of reports ends with the catalog of the highest accepted revision. */
  lemma {:induction false} ReportsConverge(db: RoleDb, client: Client, batches: seq<Batch>, epoch: Uuid, truth: map<nat, Content>, r: nat)
    requires forall b :: b in batches ==> ValidBatch(b) && AllTold(b.events, epoch, truth)
    requires Holds(db, client, epoch, truth, r)
    ensures var after, top := DeliverAll(db, client, batches), HighestAccepted(db, client, batches, r);
            && Holds(after, client, epoch, truth, top)
            && RolesOf(after.t, client) == TableOf(truth[top].roles)
            && after.t.catalogs[client].defaultRole == truth[top].defaultRole
    decreases |batches|
  {
    if batches != [] {
      var b := batches[0];
      assert b in batches && forall x :: x in batches[1..] ==> x in batches;
      ToldBatchConverges(db, client, b.envelope, b.events, b.readings[1..], epoch, truth, r);
      var accepted := ProcessBatch(db, client, b.envelope, b.events, b.readings).Success?;
      ReportsConverge(Deliver(db, client, b), client, batches[1..], epoch, truth, if accepted then Highest(r, b.events) else r);
    }
  }

  /** Ids stand for bodies, in the events and in the receipts. */
  predicate Consistent(db: RoleDb, client: Client, named: map<Uuid, Body>) {
    forall id :: id in named ==> Receipt(db, client, id).None? || Receipt(db, client, id) == Some(Some(named[id]))
  }

  predicate Named(events: seq<Incoming>, named: map<Uuid, Body>) {
    forall e :: e in events ==> e.id in named && named[e.id] == e.body
  }

  /** With consistent ids, a current envelope and a live client, no report of the truth is ever rejected. */
  lemma {:induction false} ToldReportsAreAccepted(db: RoleDb, client: Client, envelope: Envelope, events: seq<Incoming>, readings: seq<int>,
                                                  epoch: Uuid, truth: map<nat, Content>, r: nat, named: map<Uuid, Body>)
    requires AllValid(events) && AllTold(events, epoch, truth) && |readings| == |events| + 1
    requires Holds(db, client, epoch, truth, r) && Named(events, named) && Consistent(db, client, named)
    requires forall now :: now in readings ==> EnvelopeCurrent(envelope, now)
    ensures var result := ProcessEvents(db, client, envelope, events, readings);
            result.Failure? ==> result.error == NotPublished(RevisionExhausted)
    decreases |events|
  {
    assert readings[0] in readings;
    if events != [] {
      var e := events[0];
      assert e in events && forall x :: x in events[1..] ==> x in events;
      assert EnvelopeCurrent(envelope, readings[0]);
      ApplyTold(db, client, envelope.iat, e, epoch, truth, r);
      if ProcessEvent(db, client, envelope.iat, e).Success? {
        var mid := ProcessEvent(db, client, envelope.iat, e).value;
        ToldReportConverges(db, client, envelope.iat, e, epoch, truth, r);
        ProcessBinds(db, client, envelope.iat, e);
        forall id | id in named ensures Receipt(mid, client, id).None? || Receipt(mid, client, id) == Some(Some(named[id])) {
          assert Receipt(db, client, id).None? || Receipt(db, client, id) == Some(Some(named[id]));
        }
        assert forall now :: now in readings[1..] ==> now in readings;
        ToldReportsAreAccepted(mid, client, envelope, events[1..], readings[1..], epoch, truth, Max(r, RevisionOf(e)), named);
      }
    }
  }

  // ---------------------------------------------------------------- reports reach the maximum

  /** How far one event may move what the next ones depend on. */
  predicate Room(db: RoleDb, client: Client, events: nat) {
    client in db.sync && db.sync[client].revision + events <= MAX_BIGINT
  }

  predicate Enabled(db: RoleDb, client: Client) {
    client in db.t.clients && db.t.clients[client].enabled
  }

  lemma PublishAdvancesByOne(db: RoleDb, client: Client, scope: Scope)
    requires client in db.sync
    ensures db.sync[client].revision < MAX_BIGINT ==> Publish(db, client, scope).Success?
    ensures Publish(db, client, scope).Success? ==>
              var after := Publish(db, client, scope).value;
              client in after.sync && after.sync[client].revision <= db.sync[client].revision + 1 && after.t.clients == db.t.clients
  {
  }

  lemma ApplyAdvancesByOne(db: RoleDb, client: Client, iat: nat, c: RoleCatalog)
    requires client in db.sync && WellFormed(c) && ApplyCatalog(db, client, iat, c).Success?
    ensures var after := ApplyCatalog(db, client, iat, c).value.0;
            && client in after.sync && after.sync[client].revision <= db.sync[client].revision + 1
            && (Enabled(db, client) ==> Enabled(after, client))
  {
    PublishAdvancesByOne(Stored(db, client, iat, c), client, StoreScope(db, client, iat, c));
  }

  /** A consistent report of the truth is accepted while the revision counter has room. */
  lemma ToldEventIsAccepted(db: RoleDb, client: Client, iat: nat, e: Incoming, epoch: Uuid, truth: map<nat, Content>, r: nat, named: map<Uuid, Body>)
    requires Holds(db, client, epoch, truth, r) && Told(e, epoch, truth) && e.id in named && named[e.id] == e.body && Consistent(db, client, named)
    requires Room(db, client, 1) && Enabled(db, client)
    ensures ProcessEvent(db, client, iat, e).Success?
    ensures var after := ProcessEvent(db, client, iat, e).value;
            && client in after.sync && after.sync[client].revision <= db.sync[client].revision + 1
            && Enabled(after, client)
  {
    ApplyTold(db, client, iat, e, epoch, truth, r);
    PublishAdvancesByOne(Stored(db, client, iat, e.body.catalog), client, StoreScope(db, client, iat, e.body.catalog));
    if ApplyCatalog(db, client, iat, e.body.catalog).Success? {
      ApplyAdvancesByOne(db, client, iat, e.body.catalog);
    }
  }

  /** What a batch must show to the next one. */
  ghost predicate Arrived(before: RoleDb, after: RoleDb, client: Client, events: nat, epoch: Uuid, truth: map<nat, Content>, r: nat, named: map<Uuid, Body>) {
    && Holds(after, client, epoch, truth, r) && Consistent(after, client, named) && Enabled(after, client)
    && client in before.sync && client in after.sync && after.sync[client].revision <= before.sync[client].revision + events
  }

  lemma ConsistencyStays(db: RoleDb, client: Client, iat: nat, e: Incoming, named: map<Uuid, Body>)
    requires Valid(e) && e.id in named && named[e.id] == e.body && Consistent(db, client, named) && ProcessEvent(db, client, iat, e).Success?
    ensures Consistent(ProcessEvent(db, client, iat, e).value, client, named)
  {
    ProcessBinds(db, client, iat, e);
    var after := ProcessEvent(db, client, iat, e).value;
    forall id | id in named ensures Receipt(after, client, id).None? || Receipt(after, client, id) == Some(Some(named[id])) {
      assert Receipt(db, client, id).None? || Receipt(db, client, id) == Some(Some(named[id]));
    }
  }

  lemma {:induction false} ToldBatchIsAccepted(db: RoleDb, client: Client, envelope: Envelope, events: seq<Incoming>, readings: seq<int>,
                                               epoch: Uuid, truth: map<nat, Content>, r: nat, named: map<Uuid, Body>)
    requires AllValid(events) && AllTold(events, epoch, truth) && |readings| == |events| + 1
    requires Holds(db, client, epoch, truth, r) && Named(events, named) && Consistent(db, client, named)
    requires Room(db, client, |events|) && Enabled(db, client)
    requires forall now :: now in readings ==> EnvelopeCurrent(envelope, now)
    ensures ProcessEvents(db, client, envelope, events, readings).Success?
    ensures Arrived(db, ProcessEvents(db, client, envelope, events, readings).value, client, |events|, epoch, truth, Highest(r, events), named)
    decreases |events|
  {
    assert readings[0] in readings;
    if events != [] {
      var e := events[0];
      assert e in events && forall x :: x in events[1..] ==> x in events;
      assert EnvelopeCurrent(envelope, readings[0]);
      ToldEventIsAccepted(db, client, envelope.iat, e, epoch, truth, r, named);
      ToldReportConverges(db, client, envelope.iat, e, epoch, truth, r);
      ConsistencyStays(db, client, envelope.iat, e, named);
      assert forall now :: now in readings[1..] ==> now in readings;
      var mid := ProcessEvent(db, client, envelope.iat, e).value;
      ToldBatchIsAccepted(mid, client, envelope, events[1..], readings[1..], epoch, truth, Max(r, RevisionOf(e)), named);
    }
  }

  function Delivered(batches: seq<Batch>): nat
    decreases |batches|
  {
    if batches == [] then 0 else |batches[0].events| + Delivered(batches[1..])
  }

  function HighestDelivered(r: nat, batches: seq<Batch>): nat
    decreases |batches|
  {
    if batches == [] then r else HighestDelivered(Highest(r, batches[0].events), batches[1..])
  }

  /** Every report of the truth under its own id, in an envelope that stays current. */
  predicate Timely(b: Batch, epoch: Uuid, truth: map<nat, Content>, named: map<Uuid, Body>) {
    && ValidBatch(b) && AllTold(b.events, epoch, truth) && Named(b.events, named)
    && forall now :: now in b.readings ==> EnvelopeCurrent(b.envelope, now)
  }

  /** Whatever the order and multiplicity of the batches, all are accepted and the client ends with the catalog of the highest revision delivered. */
  lemma {:induction false} DeliveredReportsReachTheMaximum(db: RoleDb, client: Client, batches: seq<Batch>,
                                                           epoch: Uuid, truth: map<nat, Content>, r: nat, named: map<Uuid, Body>)
    requires forall b :: b in batches ==> ValidBatch(b)
    requires forall b :: b in batches ==> Timely(b, epoch, truth, named)
    requires Holds(db, client, epoch, truth, r) && Consistent(db, client, named) && Enabled(db, client) && Room(db, client, Delivered(batches))
    ensures var after, top := DeliverAll(db, client, batches), HighestDelivered(r, batches);
            && Holds(after, client, epoch, truth, top)
            && RolesOf(after.t, client) == TableOf(truth[top].roles)
            && after.t.catalogs[client].defaultRole == truth[top].defaultRole
    decreases |batches|
  {
    if batches != [] {
      var b := batches[0];
      assert b in batches && forall x :: x in batches[1..] ==> x in batches;
      assert Timely(b, epoch, truth, named) && b.readings[0] in b.readings;
      assert forall now :: now in b.readings[1..] ==> now in b.readings;
      ToldBatchIsAccepted(db, client, b.envelope, b.events, b.readings[1..], epoch, truth, r, named);
      DeliveredReportsReachTheMaximum(Deliver(db, client, b), client, batches[1..], epoch, truth, Highest(r, b.events), named);
    }
  }

  /** None of the revisions held or delivered is higher. */
  lemma {:induction false} HighestIsMaximal(r: nat, batches: seq<Batch>, i: nat, j: nat)
    requires i < |batches| && j < |batches[i].events|
    ensures r <= HighestDelivered(r, batches) && RevisionOf(batches[i].events[j]) <= HighestDelivered(r, batches)
    decreases |batches|
  {
    HighestOfEvents(r, batches[0].events);
    HighestDeliveredGrows(Highest(r, batches[0].events), batches[1..]);
    if i > 0 {
      HighestIsMaximal(Highest(r, batches[0].events), batches[1..], i - 1, j);
    }
  }

  lemma {:induction false} HighestOfEvents(r: nat, events: seq<Incoming>)
    ensures r <= Highest(r, events) && forall j :: 0 <= j < |events| ==> RevisionOf(events[j]) <= Highest(r, events)
    decreases |events|
  {
    if events != [] {
      HighestOfEvents(Max(r, RevisionOf(events[0])), events[1..]);
      forall j | 0 <= j < |events| ensures RevisionOf(events[j]) <= Highest(r, events) {
        assert j > 0 ==> events[j] == events[1..][j - 1];
      }
    }
  }

  lemma {:induction false} HighestDeliveredGrows(r: nat, batches: seq<Batch>)
    ensures r <= HighestDelivered(r, batches)
    decreases |batches|
  {
    if batches != [] {
      HighestOfEvents(r, batches[0].events);
      HighestDeliveredGrows(Highest(r, batches[0].events), batches[1..]);
    }
  }

  lemma {:induction false} HighestIsAmong(r: nat, events: seq<Incoming>)
    ensures Highest(r, events) == r || exists e :: e in events && RevisionOf(e) == Highest(r, events)
    decreases |events|
  {
    if events != [] {
      HighestIsAmong(Max(r, RevisionOf(events[0])), events[1..]);
      assert events[0] in events && forall e :: e in events[1..] ==> e in events;
    }
  }

  /** It is the one held or one of those delivered. */
  lemma {:induction false} HighestIsReached(r: nat, batches: seq<Batch>)
    ensures HighestDelivered(r, batches) == r || exists b, e :: b in batches && e in b.events && RevisionOf(e) == HighestDelivered(r, batches)
    decreases |batches|
  {
    if batches != [] {
      HighestIsAmong(r, batches[0].events);
      HighestIsReached(Highest(r, batches[0].events), batches[1..]);
      assert batches[0] in batches && forall b :: b in batches[1..] ==> b in batches;
    }
  }
}
