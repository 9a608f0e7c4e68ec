// What a publication writes and what the resolvers answer, row by row.
module RolePublishEffects {
  import opened Common
  import opened RoleTables
  import opened RolePublish

  // ---------------------------------------------------------------- resolving and reading

  /** A personal override, null included, then the default of the user's org role, null included, then the catalog's default. */
  lemma ResolutionIsExact(t: Tables, s: Sub, client: Client)
    ensures var r := EffectiveAppRole(t, s, client);
            && ((s, client) in t.overrides ==> r == Effective(t.overrides[(s, client)], FromOverride))
            && ((s, client) !in t.overrides && s in t.userOrg && (t.userOrg[s], client) in t.orgDefaults ==>
                  r == Effective(t.orgDefaults[(t.userOrg[s], client)], FromOrg))
            && ((s, client) !in t.overrides && !(s in t.userOrg && (t.userOrg[s], client) in t.orgDefaults) ==>
                  r == if client in t.catalogs then Effective(t.catalogs[client].defaultRole, FromCatalog) else Effective(None, FromNone))
  {
  }

  /** A role's level is that of its catalog row; no role and an unlisted one rank below everything. */
  lemma LevelIsExact(t: Tables, client: Client, role: Option<RoleId>, other: Rank)
    ensures var listed := role.Some? && client in t.appRoles && role.value in t.appRoles[client];
            && AppRoleLevel(t, client, role) == (if listed then Finite(t.appRoles[client][role.value].level) else Infinite)
            && (MorePrivileged(AppRoleLevel(t, client, role), other) <==>
                  listed && (other.Infinite? || t.appRoles[client][role.value].level < other.level))
  {
  }

  /** The sign-in gate: unmanaged clients admit everybody, managed ones those whose role their catalog lists. */
  lemma GateIsExact(t: Tables, client: Client, s: Sub)
    ensures AppAccessAllowed(t, client, s) <==>
              client !in t.catalogs
              || var role := EffectiveAppRole(t, s, client).role; role.Some? && client in t.appRoles && role.value in t.appRoles[client]
  {
  }

  /** One access state: what is known of the account, of the client, of the role, and whether the user may enter. */
  lemma AccessStateIsExact(t: Tables, client: Client, s: Sub)
    ensures var a, r := AccessStateOf(t, client, s), EffectiveAppRole(t, s, client);
            var managed := client in t.catalogs;
            var listed := r.role.Some? && client in t.appRoles && r.role.value in t.appRoles[client];
            && a.sub == s && a.managed == managed
            && (s !in t.identities ==> a.status == NotFound && a.role.None? && a.source == FromNone && a.access == NoAccess && !a.allowed)
            && (s in t.identities ==>
                  && a.status == (if t.identities[s].deleted then Deleted else Account(t.identities[s].status))
                  && (!managed ==> a.role.None? && a.source == FromNone && a.access == Unmanaged)
                  && (managed ==> a.role == r.role && a.source == r.source
                                  && a.access == if r.role.None? then NoAccess else if listed then Allowed else UnknownRole)
                  && (a.allowed <==> t.identities[s] == Identity(Active, false) && (!managed || listed)))
  {
  }

  /** A snapshot answers for each subject in order; only a managed client's carries the client's epoch and revision, and without a sync row it fails. */
  lemma SnapshotIsExact(db: RoleDb, client: Client, subjects: seq<Sub>)
    ensures var r := ReadSnapshot(db, client, subjects);
            var live := client in db.t.clients && db.t.clients[client].enabled;
            && (!live ==> r == Some(Snapshot([], None)))
            && (live && client in db.t.catalogs && subjects != [] && client !in db.sync ==> r.None?)
            && (live && !(client in db.t.catalogs && subjects != [] && client !in db.sync) ==>
                  && r.Some? && |r.value.states| == |subjects|
                  && (forall i :: 0 <= i < |subjects| ==> r.value.states[i] == AccessStateOf(db.t, client, subjects[i]))
                  && r.value.authority ==
                       if client in db.t.catalogs && subjects != [] then Some(Authority(db.sync[client].epoch, db.sync[client].revision)) else None)
  {
  }

  // ---------------------------------------------------------------- publishing

  /** The role an event carries: the resolved one if the catalog lists it. */
  function RoleTold(t: Tables, client: Client, s: Sub): Option<RoleId> {
    var role := EffectiveAppRole(t, s, client).role;
    if role.Some? && client in t.appRoles && role.value in t.appRoles[client] then role else None
  }

  lemma AnnouncedIsPublished(t: Tables, client: Client, s: Sub)
    ensures RoleTold(t, client, s) == PublishedRole(t, client, s)
  {
    JoinDecides(t, client, s);
  }

  /** Who is told: an existing account of a managed client within the call's scope that is forced, or that the ledger does not know as it is. */
  predicate Told(db: RoleDb, client: Client, scope: Scope, s: Sub) {
    && client in db.t.catalogs && s in db.t.identities && !db.t.identities[s].deleted
    && (scope.subjects.Some? ==> s in scope.subjects.value)
    && (scope.force || s in scope.forced || (client, s) !in db.ledger || !db.ledger[(client, s)].managed
        || db.ledger[(client, s)].role != RoleTold(db.t, client, s))
  }

  ghost predicate SomebodyTold(db: RoleDb, client: Client, scope: Scope) {
    exists s: Sub :: Told(db, client, scope, s)
  }

  lemma ChangedAreTold(db: RoleDb, client: Client, scope: Scope, s: Sub)
    ensures s in Changed(db, client, scope) <==> Told(db, client, scope, s)
  {
    AnnouncedIsPublished(db.t, client, s);
  }

  /** The sync row that a first publication creates: legacy, without digest, at revision 0, with the catalog's time. */
  lemma SyncRowIsExact(db: RoleDb, client: Client)
    ensures client in db.sync ==> Ensure(db, client) == Some(db)
    ensures client !in db.sync && client !in db.t.clients ==> Ensure(db, client).None?
    ensures client !in db.sync && client in db.t.clients ==>
              Ensure(db, client) ==
                Some(db.(sync := db.sync[client := SyncState(None, None, if client in db.t.catalogs then db.t.catalogs[client].iat else 0, client, 0)]))
  {
  }

  /** With nobody to tell, a publication changes nothing; otherwise it takes the next revision, or fails when there is none. */
  lemma PublicationIsDecidedExactly(db: RoleDb, client: Client, scope: Scope)
    requires client in db.sync
    ensures !SomebodyTold(db, client, scope) ==> Publish(db, client, scope) == Success(db)
    ensures SomebodyTold(db, client, scope) && db.sync[client].revision >= 9223372036854775807 ==> Publish(db, client, scope) == Failure(RevisionExhausted)
    ensures SomebodyTold(db, client, scope) && db.sync[client].revision < 9223372036854775807 ==>
              && Publish(db, client, scope).Success?
              && var after := Publish(db, client, scope).value;
                 && after.sync == db.sync[client := db.sync[client].(revision := db.sync[client].revision + 1)]
                 && after.t == db.t && after.inbox == db.inbox
  {
    forall s: Sub ensures s in Changed(db, client, scope) <==> Told(db, client, scope, s) {
      ChangedAreTold(db, client, scope, s);
    }
    if s: Sub :| Told(db, client, scope, s) {
      assert s in Changed(db, client, scope);
    } else {
      assert Changed(db, client, scope) == {};
    }
  }

  lemma PublicationShape(db: RoleDb, client: Client, scope: Scope)
    requires client in db.sync && Publish(db, client, scope).Success?
    ensures Publish(db, client, scope).value ==
              if Changed(db, client, scope) == {} then db else AnnounceNext(db, client, Sorted(Changed(db, client, scope)))
  {
  }

  lemma NextLedger(db: RoleDb, client: Client, subs: seq<Sub>, c: Client, s: Sub)
    requires client in db.sync
    ensures Lookup(AnnounceNext(db, client, subs).ledger, (c, s)) ==
              if c == client && s in subs then Some(LedgerRow(RoleTold(db.t, client, s), true, db.sync[client].revision + 1)) else Lookup(db.ledger, (c, s))
  {
    AnnouncedIsPublished(db.t, client, s);
    AnnouncedLedger(Advance(db, client), client, subs, db.sync[client].revision + 1, c, s);
  }

  /** Exactly the told subjects get a ledger row, with their role and the new revision. */
  lemma LedgerIsExact(db: RoleDb, client: Client, scope: Scope, c: Client, s: Sub)
    requires client in db.sync && Publish(db, client, scope).Success?
    ensures Lookup(Publish(db, client, scope).value.ledger, (c, s)) ==
              if c == client && Told(db, client, scope, s) then Some(LedgerRow(RoleTold(db.t, client, s), true, db.sync[client].revision + 1))
              else Lookup(db.ledger, (c, s))
  {
    PublicationShape(db, client, scope);
    ChangedAreTold(db, client, scope, s);
    NextLedger(db, client, Sorted(Changed(db, client, scope)), c, s);
  }

  /** An event as it is queued for a subject. */
  function EventTo(db: RoleDb, client: Client, s: Sub): RoleEvent
    requires client in db.sync
  {
    RoleEvent(client, s, RoleTold(db.t, client, s), db.sync[client].epoch, db.sync[client].revision + 1)
  }

  /** The events of a list of subjects, as they are told. */
  predicate EventsOf(db: RoleDb, client: Client, subs: seq<Sub>, before: seq<RoleEvent>, after: seq<RoleEvent>)
    requires client in db.sync
  {
    && |after| == |before| + |subs| && before <= after
    && forall i :: |before| <= i < |after| ==> after[i] == EventTo(db, client, subs[i - |before|])
  }

  /** New events follow the old ones, in subject order: one for each told subject and for nobody else. */
  lemma EventsAreExact(db: RoleDb, client: Client, scope: Scope)
    requires client in db.sync && Publish(db, client, scope).Success?
    ensures exists subs: seq<Sub> ::
              && (forall s: Sub :: s in subs <==> Told(db, client, scope, s))
              && (forall i, j :: 0 <= i < j < |subs| ==> subs[i] < subs[j])
              && EventsOf(db, client, subs, db.events, Publish(db, client, scope).value.events)
  {
    var subs := Sorted(Changed(db, client, scope));
    forall s: Sub ensures s in subs <==> Told(db, client, scope, s) {
      ChangedAreTold(db, client, scope, s);
    }
    PublicationShape(db, client, scope);
    NextEvents(db, client, subs);
  }

  lemma NextEvents(db: RoleDb, client: Client, subs: seq<Sub>)
    requires client in db.sync
    ensures EventsOf(db, client, subs, db.events, AnnounceNext(db, client, subs).events)
    ensures subs == [] ==> EventsOf(db, client, subs, db.events, db.events)
  {
    forall s: Sub ensures RoleTold(db.t, client, s) == PublishedRole(db.t, client, s) {
      AnnouncedIsPublished(db.t, client, s);
    }
  }

  /** Several clients: each in turn, once; a failure is the call's. */
  lemma CallsFollowInTurn(db: RoleDb, clients: seq<Client>, scope: Scope)
    ensures clients == [] ==> PublishAll(db, clients, scope) == Success(db)
    ensures clients != [] && Publish(db, clients[0], scope).Failure? ==> PublishAll(db, clients, scope) == Failure(Publish(db, clients[0], scope).error)
    ensures clients != [] && Publish(db, clients[0], scope).Success? ==>
              PublishAll(db, clients, scope) == PublishAll(Publish(db, clients[0], scope).value, clients[1..], scope)
  {
  }
}
