// The authority ledger: every change of an effective role advances a client's
// revision, updates the ledger and queues an event, in one transaction.
module RolePublish {
  import opened Common
  import opened RoleTables

  datatype PublishError = ClientUnavailable | RevisionExhausted

  /** Which subjects a call looks at, and which of them it announces even if nothing changed. */
  datatype Scope = Scope(subjects: Option<set<Sub>>, force: bool, forced: set<Sub>)

  predicate Covers(scope: Scope, s: Sub) {
    scope.subjects.Some? ==> s in scope.subjects.value
  }

  /** The sync row of a client, created on first use. Its epoch names the lineage; clients are never re-created. */
  function Ensure(db: RoleDb, client: Client): Option<RoleDb> {
    if client in db.sync then Some(db)
    else if client !in db.t.clients then None
    else
      var iat := if client in db.t.catalogs then db.t.catalogs[client].iat else 0;
      Some(db.(sync := db.sync[client := SyncState(None, None, iat, client, 0)]))
  }

  predicate Stale(db: RoleDb, client: Client, s: Sub) {
    (client, s) !in db.ledger || db.ledger[(client, s)].role != PublishedRole(db.t, client, s) || !db.ledger[(client, s)].managed
  }

  function Changed(db: RoleDb, client: Client, scope: Scope): set<Sub> {
    set s | s in db.t.identities && !db.t.identities[s].deleted && client in db.t.catalogs && Covers(scope, s) &&
            (scope.force || s in scope.forced || Stale(db, client, s))
  }

  function EventFor(db: RoleDb, client: Client, s: Sub, revision: nat): RoleEvent
    requires client in db.sync
  {
    RoleEvent(client, s, PublishedRole(db.t, client, s), db.sync[client].epoch, revision)
  }

  /** Queue one event and write one ledger row for every listed subject. */
  function Announce(db: RoleDb, client: Client, subs: seq<Sub>, revision: nat): RoleDb
    requires client in db.sync
  {
    db.(events := db.events + seq(|subs|, i requires 0 <= i < |subs| => EventFor(db, client, subs[i], revision)),
        ledger := db.ledger + map s | s in subs :: (client, s) := LedgerRow(PublishedRole(db.t, client, s), true, revision))
  }

  function Advance(db: RoleDb, client: Client): RoleDb
    requires client in db.sync
  {
    db.(sync := db.sync[client := db.sync[client].(revision := db.sync[client].revision + 1)])
  }

  function Publish(db: RoleDb, client: Client, scope: Scope): Result<RoleDb, PublishError> {
    match Ensure(db, client)
    case None => Failure(ClientUnavailable)
    case Some(ready) =>
      var changed := Changed(ready, client, scope);
      if changed == {} then Success(ready)
      else if ready.sync[client].revision >= MAX_BIGINT then Failure(RevisionExhausted)
      else Success(AnnounceNext(ready, client, Sorted(changed)))
  }

  function AnnounceNext(db: RoleDb, client: Client, subs: seq<Sub>): RoleDb
    requires client in db.sync
  {
    Announce(Advance(db, client), client, subs, db.sync[client].revision + 1)
  }

  /** The clients of one call, each once and in order; the first failure aborts the transaction. */
  function PublishAll(db: RoleDb, clients: seq<Client>, scope: Scope): Result<RoleDb, PublishError>
    decreases |clients|
  {
    if clients == [] then Success(db) else
    match Publish(db, clients[0], scope)
    case Failure(e) => Failure(e)
    case Success(after) => PublishAll(after, clients[1..], scope)
  }

  // ---------------------------------------------------------------- what the ledger and the events promise

  /** A ledger row of an existing account carries the role that resolution gives. */
  ghost predicate Agrees(db: RoleDb, client: Client, s: Sub) {
    (client, s) in db.ledger ==>
      && client in db.t.catalogs && client in db.sync && s in db.t.identities
      && db.ledger[(client, s)].revision <= db.sync[client].revision
      && (!db.t.identities[s].deleted ==> db.ledger[(client, s)].managed && db.ledger[(client, s)].role == PublishedRole(db.t, client, s))
  }

  /** A subject's events never outrun its ledger row, and one at the row's revision carries the row's role. */
  ghost predicate EventOk(db: RoleDb, e: RoleEvent) {
    && (e.client, e.sub) in db.ledger
    && e.client in db.sync && e.epoch == db.sync[e.client].epoch
    && 0 < e.revision <= db.ledger[(e.client, e.sub)].revision
    && (e.revision == db.ledger[(e.client, e.sub)].revision ==> e.role == db.ledger[(e.client, e.sub)].role)
  }

  ghost predicate IsLatest(db: RoleDb, client: Client, s: Sub, e: RoleEvent) {
    e.client == client && e.sub == s && (client, s) in db.ledger && e.revision == db.ledger[(client, s)].revision
  }

  /** A ledger row that was ever published has an event at its own revision. */
  ghost predicate Announced(db: RoleDb, client: Client, s: Sub) {
    (client, s) in db.ledger && db.ledger[(client, s)].revision > 0 ==> exists e :: e in db.events && IsLatest(db, client, s, e)
  }

  ghost predicate EventsOk(db: RoleDb) {
    && (forall e :: e in db.events ==> EventOk(db, e))
    && (forall c: Client, s: Sub :: Announced(db, c, s))
    && (forall c: Client, s: Sub :: (c, s) in db.ledger ==> c in db.sync && db.ledger[(c, s)].revision <= db.sync[c].revision)
    && (forall c :: c in db.sync ==> c in db.t.clients)
  }

  ghost predicate LedgerOk(db: RoleDb) {
    forall c: Client, s: Sub :: Agrees(db, c, s)
  }

  /** How authority moves: events are only appended, later events carry later revisions, epochs never change. */
  ghost predicate Follows(before: RoleDb, after: RoleDb) {
    && before.events <= after.events
    && (forall c :: c in before.sync ==> c in after.sync && after.sync[c].epoch == before.sync[c].epoch
                                         && before.sync[c].revision <= after.sync[c].revision)
    && (forall i :: |before.events| <= i < |after.events| ==>
          after.events[i].client in before.sync ==> after.events[i].revision > before.sync[after.events[i].client].revision)
  }

  lemma FollowsTransitive(a: RoleDb, b: RoleDb, c: RoleDb)
    requires Follows(a, b) && Follows(b, c)
    ensures Follows(a, c)
  {
    forall i | |a.events| <= i < |c.events| && c.events[i].client in a.sync
      ensures c.events[i].revision > a.sync[c.events[i].client].revision
    {
      if i < |b.events| {
        assert c.events[i] == b.events[i];
      }
    }
  }

  /** Only the ledger, the events and the sync rows differ. */
  predicate SameRoles(a: RoleDb, b: RoleDb) {
    a.t == b.t && a.inbox == b.inbox
  }

  lemma AnnouncedLedger(db: RoleDb, client: Client, subs: seq<Sub>, revision: nat, c: Client, s: Sub)
    requires client in db.sync
    ensures var after := Announce(db, client, subs, revision);
            Lookup(after.ledger, (c, s)) ==
              if c == client && s in subs then Some(LedgerRow(PublishedRole(db.t, client, s), true, revision)) else Lookup(db.ledger, (c, s))
  {
  }

  lemma AnnouncedBy(db: RoleDb, client: Client, subs: seq<Sub>, s: Sub)
    requires client in db.sync && s in subs
    ensures var after := Announce(db, client, subs, db.sync[client].revision);
            exists e :: e in after.events && IsLatest(after, client, s, e)
  {
    var revision := db.sync[client].revision;
    var after := Announce(db, client, subs, revision);
    var i :| 0 <= i < |subs| && subs[i] == s;
    assert after.events[|db.events| + i] == EventFor(db, client, s, revision);
    AnnouncedLedger(db, client, subs, revision, client, s);
    assert IsLatest(after, client, s, EventFor(db, client, s, revision));
  }

  lemma AnnouncedEventOk(db: RoleDb, client: Client, subs: seq<Sub>, e: RoleEvent)
    requires EventsOk(db) && client in db.sync
    requires e in AnnounceNext(db, client, subs).events
    ensures EventOk(AnnounceNext(db, client, subs), e)
  {
    var ready, revision := Advance(db, client), db.sync[client].revision + 1;
    var after := Announce(ready, client, subs, revision);
    AnnouncedLedger(ready, client, subs, revision, e.client, e.sub);
    if e in db.events {
      assert EventOk(db, e);
    } else {
      var i :| 0 <= i < |after.events| && after.events[i] == e;
      assert i >= |db.events|;
      assert subs[i - |db.events|] in subs;
      assert e == EventFor(ready, client, subs[i - |db.events|], revision);
    }
  }

  lemma OldEventStaysLatest(db: RoleDb, client: Client, subs: seq<Sub>, c: Client, s: Sub)
    requires client in db.sync && Announced(db, c, s) && !(c == client && s in subs)
    ensures Announced(AnnounceNext(db, client, subs), c, s)
  {
    var after := AnnounceNext(db, client, subs);
    AnnouncedLedger(Advance(db, client), client, subs, db.sync[client].revision + 1, c, s);
    if (c, s) in db.ledger && db.ledger[(c, s)].revision > 0 {
      var e :| e in db.events && IsLatest(db, c, s, e);
      assert e in after.events && IsLatest(after, c, s, e);
    }
  }

  lemma AnnounceKeepsAnnounced(db: RoleDb, client: Client, subs: seq<Sub>, c: Client, s: Sub)
    requires client in db.sync && Announced(db, c, s)
    ensures Announced(AnnounceNext(db, client, subs), c, s)
  {
    if c == client && s in subs {
      AnnouncedBy(Advance(db, client), client, subs, s);
    } else {
      OldEventStaysLatest(db, client, subs, c, s);
    }
  }

  lemma AnnounceKeepsRevisions(db: RoleDb, client: Client, subs: seq<Sub>, c: Client, s: Sub)
    requires client in db.sync
    requires (c, s) in db.ledger ==> c in db.sync && db.ledger[(c, s)].revision <= db.sync[c].revision
    ensures var after := AnnounceNext(db, client, subs);
            (c, s) in after.ledger ==> c in after.sync && after.ledger[(c, s)].revision <= after.sync[c].revision
  {
    AnnouncedLedger(Advance(db, client), client, subs, db.sync[client].revision + 1, c, s);
  }

  lemma AnnounceKeepsEvents(db: RoleDb, client: Client, subs: seq<Sub>)
    requires EventsOk(db) && client in db.sync
    ensures EventsOk(AnnounceNext(db, client, subs))
  {
    var after := AnnounceNext(db, client, subs);
    forall e | e in after.events ensures EventOk(after, e) {
      AnnouncedEventOk(db, client, subs, e);
    }
    forall c: Client, s: Sub ensures Announced(after, c, s) {
      AnnounceKeepsAnnounced(db, client, subs, c, s);
    }
    forall c: Client, s: Sub | (c, s) in after.ledger ensures c in after.sync && after.ledger[(c, s)].revision <= after.sync[c].revision {
      AnnounceKeepsRevisions(db, client, subs, c, s);
    }
  }

  lemma EnsureKeeps(db: RoleDb, client: Client)
    requires EventsOk(db)
    ensures Ensure(db, client).Some? ==>
              var ready := Ensure(db, client).value;
              && EventsOk(ready) && SameRoles(db, ready) && Follows(db, ready) && client in ready.sync
              && forall c: Client, s: Sub :: Agrees(db, c, s) ==> Agrees(ready, c, s)
  {
    if Ensure(db, client).Some? {
      var ready := Ensure(db, client).value;
      forall e | e in ready.events ensures EventOk(ready, e) {
        assert EventOk(db, e);
      }
      forall c: Client, s: Sub ensures Announced(ready, c, s) {
        assert Announced(db, c, s);
        if (c, s) in db.ledger && db.ledger[(c, s)].revision > 0 {
          var e :| e in db.events && IsLatest(db, c, s, e);
          assert IsLatest(ready, c, s, e);
        }
      }
    }
  }

  /** A covered subject that need not be told agrees already. */
  lemma UnchangedAgrees(db: RoleDb, client: Client, scope: Scope, s: Sub)
    requires EventsOk(db) && client in db.sync && client in db.t.catalogs && s in db.t.identities
    requires Covers(scope, s) && s !in Changed(db, client, scope)
    ensures Agrees(db, client, s)
  {
    if !db.t.identities[s].deleted {
      assert !Stale(db, client, s);
    }
  }

  /** Telling some subjects leaves the told ones and those that agreed in agreement. */
  lemma ToldAgree(db: RoleDb, client: Client, subs: seq<Sub>, c: Client, s: Sub)
    requires client in db.sync
    requires c == client && s in subs ==> client in db.t.catalogs && s in db.t.identities
    requires Agrees(db, c, s) || (c == client && s in subs)
    ensures Agrees(AnnounceNext(db, client, subs), c, s)
  {
    AnnouncedLedger(Advance(db, client), client, subs, db.sync[client].revision + 1, c, s);
  }

  /** A covered subject agrees after publishing, and an agreeing one still does. */
  lemma PublishRepairs(db: RoleDb, client: Client, scope: Scope, c: Client, s: Sub)
    requires EventsOk(db) && Publish(db, client, scope).Success?
    requires Agrees(db, c, s) || (c == client && Covers(scope, s) && c in db.t.catalogs && s in db.t.identities)
    ensures Agrees(Publish(db, client, scope).value, c, s)
  {
    EnsureKeeps(db, client);
    var ready := Ensure(db, client).value;
    var changed := Changed(ready, client, scope);
    if !Agrees(ready, c, s) && s !in changed {
      UnchangedAgrees(ready, client, scope, s);
    } else if changed != {} {
      ToldAgree(ready, client, Sorted(changed), c, s);
    }
  }

  lemma AnnounceFollows(db: RoleDb, client: Client, subs: seq<Sub>)
    requires client in db.sync
    ensures var after := AnnounceNext(db, client, subs);
            SameRoles(db, after) && Follows(db, after)
  {
  }

  lemma PublishFollows(db: RoleDb, client: Client, scope: Scope)
    requires EventsOk(db) && Publish(db, client, scope).Success?
    ensures var after := Publish(db, client, scope).value;
            EventsOk(after) && SameRoles(db, after) && Follows(db, after)
  {
    var after := Publish(db, client, scope).value;
    EnsureKeeps(db, client);
    var ready := Ensure(db, client).value;
    if after != ready {
      var subs := Sorted(Changed(ready, client, scope));
      assert after == AnnounceNext(ready, client, subs);
      AnnounceKeepsEvents(ready, client, subs);
      AnnounceFollows(ready, client, subs);
      FollowsTransitive(db, ready, after);
    }
  }

  /** Publishing repairs exactly the rows it covers; whatever agreed before still agrees. */
  lemma PublishKeeps(db: RoleDb, client: Client, scope: Scope)
    requires EventsOk(db) && Publish(db, client, scope).Success?
    ensures var after := Publish(db, client, scope).value;
            && EventsOk(after) && SameRoles(db, after) && Follows(db, after)
            && (forall c: Client, s: Sub :: Agrees(db, c, s) ==> Agrees(after, c, s))
            && (forall s: Sub :: Covers(scope, s) && client in db.t.catalogs && s in db.t.identities ==> Agrees(after, client, s))
  {
    PublishFollows(db, client, scope);
    var after := Publish(db, client, scope).value;
    forall c: Client, s: Sub | Agrees(db, c, s) ensures Agrees(after, c, s) {
      PublishRepairs(db, client, scope, c, s);
    }
    forall s: Sub | Covers(scope, s) && client in db.t.catalogs && s in db.t.identities ensures Agrees(after, client, s) {
      PublishRepairs(db, client, scope, client, s);
    }
  }

  lemma {:induction false} PublishAllKeeps(db: RoleDb, clients: seq<Client>, scope: Scope)
    requires EventsOk(db)
    ensures PublishAll(db, clients, scope).Success? ==>
              var after := PublishAll(db, clients, scope).value;
              && EventsOk(after) && SameRoles(db, after) && Follows(db, after)
              && (forall c: Client, s: Sub :: Agrees(db, c, s) ==> Agrees(after, c, s))
              && (forall c: Client, s: Sub :: c in clients && Covers(scope, s) && c in db.t.catalogs && s in db.t.identities ==> Agrees(after, c, s))
    decreases |clients|
  {
    if clients != [] && Publish(db, clients[0], scope).Success? {
      var mid := Publish(db, clients[0], scope).value;
      PublishKeeps(db, clients[0], scope);
      PublishAllKeeps(mid, clients[1..], scope);
      if PublishAll(db, clients, scope).Success? {
        var after := PublishAll(db, clients, scope).value;
        FollowsTransitive(db, mid, after);
        forall c: Client, s: Sub | c in clients && Covers(scope, s) && c in db.t.catalogs && s in db.t.identities ensures Agrees(after, c, s) {
          if c != clients[0] {
            assert c in clients[1..];
          }
        }
      }
    }
  }

  lemma {:induction false} PublishAllKeepsTables(db: RoleDb, clients: seq<Client>, scope: Scope)
    ensures PublishAll(db, clients, scope).Success? ==> SameRoles(db, PublishAll(db, clients, scope).value)
    decreases |clients|
  {
    if clients != [] && Publish(db, clients[0], scope).Success? {
      PublishAllKeepsTables(Publish(db, clients[0], scope).value, clients[1..], scope);
    }
  }

  // ---------------------------------------------------------------- the receiver's side

  /** What a receiver remembers of a subject: the highest revision seen and the role it carried. */
  datatype Known = Known(revision: nat, role: Option<RoleId>)

  function Receive(known: map<Sub, Known>, e: RoleEvent): map<Sub, Known> {
    if e.sub in known && known[e.sub].revision >= e.revision then known else known[e.sub := Known(e.revision, e.role)]
  }

  function ReceiveAll(known: map<Sub, Known>, messages: seq<RoleEvent>): map<Sub, Known> {
    if messages == [] then known else Receive(ReceiveAll(known, messages[..|messages| - 1]), messages[|messages| - 1])
  }

  /** What was received is some message of the subject, and none of its messages is later. */
  lemma {:induction false} ReceivedIsHighest(messages: seq<RoleEvent>, s: Sub)
    ensures s in ReceiveAll(map[], messages) <==> exists e :: e in messages && e.sub == s
    ensures s in ReceiveAll(map[], messages) ==>
              var k := ReceiveAll(map[], messages)[s];
              && (exists e :: e in messages && e.sub == s && e.revision == k.revision && e.role == k.role)
              && (forall e :: e in messages && e.sub == s ==> e.revision <= k.revision)
  {
    if messages != [] {
      var init, last := messages[..|messages| - 1], messages[|messages| - 1];
      ReceivedIsHighest(init, s);
      assert forall e :: e in messages <==> e in init || e == last;
    }
  }

  /** Any reordering and duplication of a client's events that includes the latest one leaves the receiver with the resolved role. */
  lemma ReceiverConverges(db: RoleDb, client: Client, s: Sub, messages: seq<RoleEvent>)
    requires EventsOk(db) && LedgerOk(db)
    requires forall e :: e in messages ==> e in db.events && e.client == client
    requires s in db.t.identities && !db.t.identities[s].deleted
    requires exists e :: e in db.events && e.client == client && e.sub == s
    requires forall e :: e in db.events && IsLatest(db, client, s, e) ==> e in messages
    ensures var k := ReceiveAll(map[], messages);
            s in k && k[s] == Known(db.ledger[(client, s)].revision, PublishedRole(db.t, client, s))
  {
    ReceivedIsHighest(messages, s);
    var some :| some in db.events && some.client == client && some.sub == s;
    assert EventOk(db, some) && Announced(db, client, s) && Agrees(db, client, s);
    var latest :| latest in db.events && IsLatest(db, client, s, latest);
    assert latest in messages;
    var k := ReceiveAll(map[], messages)[s];
    var e :| e in messages && e.sub == s && e.revision == k.revision && e.role == k.role;
    assert EventOk(db, e);
  }

  /** The highest-revision event of a subject carries the ledger role, which is the resolved role. */
  lemma HighestEventCarriesTheRole(db: RoleDb, e: RoleEvent)
    requires EventsOk(db) && LedgerOk(db) && e in db.events
    requires e.sub in db.t.identities && !db.t.identities[e.sub].deleted
    requires forall f :: f in db.events && f.client == e.client && f.sub == e.sub ==> f.revision <= e.revision
    ensures e.role == db.ledger[(e.client, e.sub)].role == PublishedRole(db.t, e.client, e.sub)
  {
    assert EventOk(db, e) && Announced(db, e.client, e.sub) && Agrees(db, e.client, e.sub);
    var latest :| latest in db.events && IsLatest(db, e.client, e.sub, latest);
  }

  /** No event at or below a snapshot's revision, whenever it arrives, is newer than the snapshot: it was queued before it. */
  lemma SnapshotIsCurrent(earlier: RoleDb, later: RoleDb, client: Client, e: RoleEvent)
    requires Follows(earlier, later) && client in earlier.sync
    requires e in later.events && e.client == client && e.revision <= earlier.sync[client].revision
    ensures e in earlier.events
  {
    var i :| 0 <= i < |later.events| && later.events[i] == e;
    assert i < |earlier.events|;
    assert earlier.events[i] == e;
  }
}
