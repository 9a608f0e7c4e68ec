// The role writers as they run: loops over clients, chunks, events and changes that
// update the tables in place inside one transaction.
module RoleStore {
  import opened Common
  import opened RoleTables
  import opened RolePublish
  import opened RoleCatalogs
  import opened RoleSync
  import opened RoleSyncTheorems
  import opened RoleAdmin

  const CHUNK: nat := 100

  /** `new Set(clients)` */
  function Distinct(clients: seq<Client>): set<Client> {
    set c | c in clients
  }

  /** `!known || role_id !== previous_role || managed !== previous_managed`; every row of the CTE is managed. */
  predicate Differs(previous: Option<LedgerRow>, row: Option<EffectiveRow>, t: Tables, client: Client) {
    row.Some? && (previous.None? || previous.value.role != CteRole(t, client, row.value) || !previous.value.managed)
  }

  /** How many rows a publication changes. */
  function CountAll(db: RoleDb, clients: seq<Client>, scope: Scope): nat
    decreases |clients|
  {
    if clients == [] || Publish(db, clients[0], scope).Failure? then 0
    else |Changed(Ensure(db, clients[0]).value, clients[0], scope)| + CountAll(Publish(db, clients[0], scope).value, clients[1..], scope)
  }

  /** Announcing in parts is announcing the whole. */
  lemma AnnounceParts(db: RoleDb, client: Client, a: seq<Sub>, b: seq<Sub>, revision: nat)
    requires client in db.sync
    ensures Announce(Announce(db, client, a, revision), client, b, revision) == Announce(db, client, a + b, revision)
  {
    var both := Announce(db, client, a + b, revision);
    var twice := Announce(Announce(db, client, a, revision), client, b, revision);
    assert twice.events == both.events;
    forall k: (Client, Sub) ensures Lookup(twice.ledger, k) == Lookup(both.ledger, k) {
      AnnouncedLedger(db, client, a, revision, k.0, k.1);
      AnnouncedLedger(Announce(db, client, a, revision), client, b, revision, k.0, k.1);
      AnnouncedLedger(db, client, a + b, revision, k.0, k.1);
    }
    SameLookups(twice.ledger, both.ledger);
  }

  lemma SameLookups<K, V>(a: map<K, V>, b: map<K, V>)
    requires forall k :: Lookup(a, k) == Lookup(b, k)
    ensures a == b
  {
    forall k ensures (k in a <==> k in b) && (k in a ==> a[k] == b[k]) {
      assert Lookup(a, k) == Lookup(b, k);
    }
  }

  lemma SortedCounts(s: set<nat>)
    ensures |Sorted(s)| == |s|
    decreases |s|
  {
    if s != {} {
      LeastExists(s);
      var m :| IsLeast(m, s) && Sorted(s) == [m] + Sorted(s - {m});
      SortedCounts(s - {m});
    }
  }

  class RoleStore {
    var t: Tables
    var sync: map<Client, SyncState>
    var ledger: map<(Client, Sub), LedgerRow>
    var events: seq<RoleEvent>
    var inbox: map<(Client, Uuid), Option<Body>>

    function Db(): RoleDb
      reads this
    {
      RoleDb(t, sync, ledger, events, inbox)
    }

    constructor (db: RoleDb)
      ensures Db() == db
    {
      t, sync, ledger, events, inbox := db.t, db.sync, db.ledger, db.events, db.inbox;
    }

    /** `ROLLBACK` */
    method Restore(db: RoleDb)
      modifies this
      ensures Db() == db
    {
      t, sync, ledger, events, inbox := db.t, db.sync, db.ledger, db.events, db.inbox;
    }

    // -------------------------------------------------------------- publishing

    method EnsureRoleSyncState(client: Client) returns (state: Option<SyncState>)
      modifies this`sync
      ensures state.Some? == Ensure(old(Db()), client).Some?
      ensures state.None? ==> Db() == old(Db())
      ensures state.Some? ==> Ensure(old(Db()), client) == Some(Db()) && client in sync && state.value == sync[client]
    {
      if client !in sync && client in t.clients {
        var iat := if client in t.catalogs then t.catalogs[client].iat else 0;
        sync := sync[client := SyncState(None, None, iat, client, 0)];
      }
      state := if client in sync then Some(sync[client]) else None;
    }

    method AnnounceChunks(client: Client, changed: seq<Sub>, revision: nat)
      requires client in sync
      modifies this`events, this`ledger
      ensures Db() == Announce(old(Db()), client, changed, revision)
    {
      var offset := 0;
      assert Announce(Db(), client, [], revision) == Db();
      while offset < |changed|
        invariant Db() == Announce(old(Db()), client, changed[..Min(offset, |changed|)], revision)
      {
        var end := Min(offset + CHUNK, |changed|);
        var part := changed[offset..end];
        AnnounceParts(old(Db()), client, changed[..offset], part, revision);
        assert changed[..end] == changed[..offset] + part;
        var inserted := Announce(Db(), client, part, revision);
        events, ledger := inserted.events, inserted.ledger;
        offset := offset + CHUNK;
      }
      assert changed[..|changed|] == changed;
    }

    /** The publication's query: the rows of its CTE in order, of which those stay that the ledger does not know or knows otherwise. */
    method SelectChanged(client: Client, scope: Scope) returns (changed: seq<Sub>)
      ensures changed == Sorted(Changed(Db(), client, scope))
    {
      var rows := set s | s in t.identities && CteRow(t, client, s).Some? && Covers(scope, s);
      var kept := set s | s in rows && (scope.force || s in scope.forced || Differs(Lookup(ledger, (client, s)), CteRow(t, client, s), t, client));
      forall s: Sub ensures s in kept <==> s in Changed(Db(), client, scope) {
        CteDecides(t, client, s);
      }
      assert kept == Changed(Db(), client, scope);
      changed := Sorted(kept);
    }

    /** One client of a publication. */
    method PublishOne(client: Client, scope: Scope) returns (r: Result<nat, PublishError>)
      modifies this`sync, this`events, this`ledger
      ensures r.Success? ==> Publish(old(Db()), client, scope) == Success(Db())
                             && r.value == |Changed(Ensure(old(Db()), client).value, client, scope)|
      ensures r.Failure? ==> Publish(old(Db()), client, scope) == Failure(r.error)
    {
      var state := EnsureRoleSyncState(client);
      if state.None? {
        return Failure(ClientUnavailable);
      }
      var changed := SelectChanged(client, scope);
      SortedCounts(Changed(Db(), client, scope));
      if |changed| == 0 {
        return Success(0);
      }
      if state.value.revision >= MAX_BIGINT {
        return Failure(RevisionExhausted);
      }
      var revision := state.value.revision + 1;
      sync := sync[client := state.value.(revision := revision)];
      AnnounceChunks(client, changed, revision);
      r := Success(|changed|);
    }

    method PublishRoleChanges(clients: seq<Client>, scope: Scope) returns (r: Result<nat, PublishError>)
      modifies this`sync, this`events, this`ledger
      ensures var spec := PublishAll(old(Db()), Sorted(Distinct(clients)), scope);
              && (r.Success? ==> spec == Success(Db()) && r.value == CountAll(old(Db()), Sorted(Distinct(clients)), scope))
              && (r.Failure? ==> spec == Failure(r.error))
    {
      var sorted := Sorted(Distinct(clients));
      var count := 0;
      for i := 0 to |sorted|
        invariant PublishAll(old(Db()), sorted, scope) == PublishAll(Db(), sorted[i..], scope)
        invariant CountAll(old(Db()), sorted, scope) == count + CountAll(Db(), sorted[i..], scope)
      {
        assert sorted[i..][0] == sorted[i] && sorted[i..][1..] == sorted[i + 1..];
        var one := PublishOne(sorted[i], scope);
        if one.Failure? {
          return Failure(one.error);
        }
        count := count + one.value;
      }
      r := Success(count);
    }

    // -------------------------------------------------------------- reports

    /** Everything of an accepted report except its publication. */
    method StoreReport(client: Client, iat: nat, c: RoleCatalog) returns (scope: Scope)
      requires client in sync && WellFormed(c)
      modifies this`t, this`sync
      ensures Db() == Stored(old(Db()), client, iat, c)
      ensures scope == StoreScope(old(Db()), client, iat, c)
    {
      WellFormedLists(c);
      var forceCurrent := ForceCurrent(sync[client], c);
      var oldRoles := ListOf(RolesOf(t, client));
      TableOfListed(RolesOf(t, client));
      TableOfRoles(c.roles);
      var overrides, orgDefaults := RedirectRemoved(t.overrides, t.orgDefaults, client, oldRoles, TableOf(c.roles), c.defaultRole);
      var rows := ReplaceRows(RolesOf(t, client), c.roles);
      var top := FindTop(c.roles);
      ghost var before := t;
      t := t.(overrides := overrides, orgDefaults := orgDefaults, appRoles := t.appRoles[client := rows],
              catalogs := t.catalogs[client := CatalogRow(c.defaultRole, iat)]);
      sync := sync[client := sync[client].(version := c.version, digest := Some(ContentOf(c)), iat := iat)];
      if c.siteName.Some? && client in t.clients {
        t := t.(clients := t.clients[client := t.clients[client].(name := c.siteName.value)]);
      }
      assert t == StoreCatalog(before, client, TableOf(c.roles), c.defaultRole, c.siteName, iat);
      var rootSubjects := RootSubjects(t, client, TopId(c.roles));
      if top.Some? {
        t := RootDefaults(t, client, Some(top.value.id));
      }
      scope := Scope(None, forceCurrent, rootSubjects);
    }

    method ApplyReport(client: Client, iat: nat, c: RoleCatalog) returns (r: Result<Order, SyncError>)
      requires client in sync && WellFormed(c)
      modifies this`t, this`sync, this`events, this`ledger
      ensures r.Success? ==> ApplyCatalog(old(Db()), client, iat, c) == Success((Db(), r.value)) && client in sync
      ensures r.Failure? ==> ApplyCatalog(old(Db()), client, iat, c) == Failure(r.error)
    {
      var order := CatalogOrder(Baseline(t, client, sync[client], c), c, iat, client in t.catalogs);
      if order.Failure? {
        return Failure(Rejected(order.error));
      }
      if order.value.Old? || (order.value.Same? && !ForceCurrent(sync[client], c)) {
        return Success(order.value);
      }
      var scope := StoreReport(client, iat, c);
      ghost var stored := Db();
      OneClient(stored, client, scope);
      var published := PublishRoleChanges([client], scope);
      if published.Failure? {
        return Failure(NotPublished(published.error));
      }
      PublishKeepsInbox(stored, client, scope);
      r := Success(order.value);
    }

    method ProcessOne(client: Client, iat: nat, e: Incoming) returns (failure: Option<SyncError>)
      requires Valid(e)
      modifies this
      ensures failure.None? ==> ProcessEvent(old(Db()), client, iat, e) == Success(Db())
      ensures failure.Some? ==> ProcessEvent(old(Db()), client, iat, e) == Failure(failure.value)
    {
      var prior := Lookup(inbox, (client, e.id));
      if e.body.RolesSync? {
        var state := EnsureRoleSyncState(client);
        if state.None? {
          return Some(NotPublished(ClientUnavailable));
        }
        var mismatch := EpochCheck(state.value, e.body.catalog);
        if mismatch.Some? {
          return Some(Rejected(mismatch.value));
        }
        if prior == Some(Some(e.body)) && state.value.digest.Some? {
          return None;
        }
      } else if prior == Some(Some(e.body)) {
        return None;
      }
      if prior.Some? && !Replaceable(e, prior) {
        return Some(IdentityConflict);
      }
      if e.body.RolesSync? {
        var applied := ApplyReport(client, iat, e.body.catalog);
        if applied.Failure? {
          return Some(applied.error);
        }
        if prior == Some(None) && applied.value.Old? {
          return None;
        }
      }
      inbox := inbox[(client, e.id) := Some(e.body)];
      failure := None;
    }

    /** One batch in one transaction; `readings` are the clock's answers in turn. */
    method ProcessIncomingEvents(client: Client, b: Batch) returns (failure: Option<SyncError>)
      requires ValidBatch(b)
      modifies this
      ensures Db() == Deliver(old(Db()), client, b)
      ensures failure.None? == ProcessBatch(old(Db()), client, b.envelope, b.events, b.readings).Success?
      ensures failure.Some? ==> Db() == old(Db()) && ProcessBatch(old(Db()), client, b.envelope, b.events, b.readings) == Failure(failure.value)
    {
      var saved := Db();
      if !EnvelopeCurrent(b.envelope, b.readings[0]) {
        return Some(InvalidToken);
      }
      if client !in t.clients || !t.clients[client].enabled {
        return Some(UnknownClient);
      }
      var readings := b.readings[1..];
      for i := 0 to |b.events|
        invariant ProcessEvents(old(Db()), client, b.envelope, b.events, readings)
               == ProcessEvents(Db(), client, b.envelope, b.events[i..], readings[i..])
      {
        assert b.events[i] in b.events;
        assert b.events[i..][0] == b.events[i] && b.events[i..][1..] == b.events[i + 1..];
        assert readings[i..][0] == readings[i] && readings[i..][1..] == readings[i + 1..];
        if !EnvelopeCurrent(b.envelope, readings[i]) {
          Restore(saved);
          return Some(InvalidToken);
        }
        failure := ProcessOne(client, b.envelope.iat, b.events[i]);
        if failure.Some? {
          Restore(saved);
          return;
        }
      }
      if !EnvelopeCurrent(b.envelope, readings[|b.events|]) {
        Restore(saved);
        return Some(InvalidToken);
      }
      failure := None;
    }

    // -------------------------------------------------------------- administration

    method ChangeUser(actor: Sub, target: Sub, ch: UserChanges) returns (failure: Option<AdminError>)
      modifies this
      ensures failure.None? ==> ApplyUserAccess(old(Db()), actor, target, ch) == Success(Db())
      ensures failure.Some? ==> ApplyUserAccess(old(Db()), actor, target, ch) == Failure(failure.value) && Db() == old(Db())
    {
      var saved := Db();
      failure := ValidateUserChange(t, actor, target, ch);
      if failure.Some? {
        return;
      }
      var clients := if ch.orgRole.Some? then Sorted(t.catalogs.Keys) else seq(|ch.apps|, i requires 0 <= i < |ch.apps| => ch.apps[i].0);
      ClientsOfChanges(t, ch, clients);
      t := WriteUserChange(t, target, ch);
      var published := PublishRoleChanges(clients, Scope(Some({target}), false, {}));
      if published.Failure? {
        Restore(saved);
        return Some(Unpublished(published.error));
      }
    }

    method ChangeRole(actor: Sub, slug: Slug, ch: RoleChanges) returns (failure: Option<AdminError>)
      modifies this
      ensures failure.None? ==> ApplyRoleAccess(old(Db()), actor, slug, ch) == Success(Db())
      ensures failure.Some? ==> ApplyRoleAccess(old(Db()), actor, slug, ch) == Failure(failure.value) && Db() == old(Db())
    {
      var saved := Db();
      failure := ValidateRoleChange(t, actor, slug, ch);
      if failure.Some? {
        return;
      }
      t := WriteRoleChange(t, slug, ch);
      var clients := seq(|ch.apps|, i requires 0 <= i < |ch.apps| => ch.apps[i].0);
      NamedClients(ch.apps, clients);
      var published := PublishRoleChanges(clients, Scope(None, false, {}));
      if published.Failure? {
        Restore(saved);
        return Some(Unpublished(published.error));
      }
    }

    /** Every administrative call: it commits as a whole or changes nothing. */
    method Administer(actor: Sub, call: Call) returns (failure: Option<AdminError>)
      modifies this
      ensures failure.None? ==> Perform(old(Db()), actor, call) == Success(Db())
      ensures failure.Some? ==> Perform(old(Db()), actor, call) == Failure(failure.value) && Db() == old(Db())
    {
      match call
      case UserAccess(target, ch) => failure := ChangeUser(actor, target, ch);
      case RoleAccess(slug, ch) => failure := ChangeRole(actor, slug, ch);
      case NewOrgRole(r) =>
        failure := CheckCreate(t, actor, r);
        if failure.None? {
          t := Seeded(t, r.slug, r.title, r.level.value, DefaultOrgRole(t));
        }
      case EditOrgRole(slug, patch) =>
        failure := CheckPatch(t, actor, slug, patch);
        if failure.None? {
          ghost var before := t;
          if patch.title.Some? {
            t := t.(orgRoles := t.orgRoles[slug := t.orgRoles[slug].(title := patch.title.value.value)]);
          }
          if patch.level.Some? {
            t := t.(orgRoles := t.orgRoles[slug := t.orgRoles[slug].(level := patch.level.value.value)]);
          }
          assert t.orgRoles == before.orgRoles[slug := Patched(before.orgRoles[slug], patch)];
        }
      case DropOrgRole(slug) =>
        failure := CheckDelete(t, actor, slug);
        if failure.None? {
          t := Without(t, slug);
        }
      case ChooseDefault(slug) =>
        failure := ActorError(t, actor);
        if failure.Some? {
          return;
        }
        if SetDefaultRole !in Granted(t, actor) {
          return Some(PermissionDenied);
        }
        if slug !in t.orgRoles {
          return Some(NoSuchItem);
        }
        if AtMost(Finite(t.orgRoles[slug].level), LevelOf(t, actor)) {
          return Some(RoleAboveLevel);
        }
        t := t.(defaultOrgRole := Some(slug));
      case NewOrgUser(sub, slug, taken) =>
        failure := ActorError(t, actor);
        if failure.Some? {
          return;
        }
        if CreateUser !in Granted(t, actor) {
          return Some(PermissionDenied);
        }
        if slug !in t.orgRoles || AtMost(Finite(t.orgRoles[slug].level), LevelOf(t, actor)) {
          return Some(FieldError);
        }
        if taken || sub in t.identities {
          return Some(FieldError);
        }
        t := t.(identities := t.identities[sub := Identity(Active, false)]);
        t := t.(userOrg := t.userOrg[sub := slug]);
    }
  }

  lemma NamedClients(changes: seq<(Client, AppChange)>, clients: seq<Client>)
    requires |clients| == |changes| && forall i :: 0 <= i < |changes| ==> clients[i] == changes[i].0
    ensures Distinct(clients) == Keys(changes)
  {
    forall c ensures c in clients <==> c in Keys(changes) {
      if c in clients {
        var i :| 0 <= i < |clients| && clients[i] == c;
        assert changes[i].0 == c;
      }
      if c in Keys(changes) {
        var i :| 0 <= i < |changes| && changes[i].0 == c;
        assert clients[i] == c;
      }
    }
  }

  lemma ClientsOfChanges(t: Tables, ch: UserChanges, clients: seq<Client>)
    requires ch.orgRole.Some? ==> clients == Sorted(t.catalogs.Keys)
    requires ch.orgRole.None? ==> |clients| == |ch.apps| && forall i :: 0 <= i < |clients| ==> clients[i] == ch.apps[i].0
    ensures Sorted(Distinct(clients)) == UserClients(t, ch)
  {
    if ch.orgRole.Some? {
      assert Distinct(clients) == t.catalogs.Keys;
    } else {
      NamedClients(ch.apps, clients);
      assert Distinct(clients) == Keys(ch.apps);
    }
  }

  method ValidateUserChange(t: Tables, actor: Sub, target: Sub, ch: UserChanges) returns (failure: Option<AdminError>)
    ensures failure == CheckUser(t, actor, target, ch)
  {
    var me := ResolveAuthz(t, actor);
    var slug := if ch.orgRole.Some? then ch.orgRole else Lookup(t.userOrg, target);
    failure := ActorError(t, actor);
    if failure.Some? {
      return;
    }
    if target !in t.identities || t.identities[target].deleted || target == actor || AtMost(LevelOf(t, target), me.level) {
      return Some(NoSuchItem);
    }
    if ch.orgRole.None? && ch.perms == [] && ch.apps == [] {
      return Some(NoChanges);
    }
    if |ch.perms| > 100 || |ch.apps| > 50 {
      return Some(TooManyChanges);
    }
    if (ch.orgRole.Some? || ch.perms != []) && EditUserPermissions !in me.granted {
      return Some(PermissionDenied);
    }
    if ch.apps != [] && EditUserApps !in me.granted {
      return Some(PermissionDenied);
    }
    if ch.orgRole.Some? && (ch.orgRole.value !in t.orgRoles || AtMost(Finite(t.orgRoles[ch.orgRole.value].level), me.level)) {
      return Some(RoleAboveLevel);
    }
    failure := CheckPerms(t, me.granted, ch.perms, true);
    if failure.Some? {
      return;
    }
    failure := CheckUserApps(t, actor, target, slug, ch.apps);
    if failure.Some? {
      return;
    }
    if ch.orgRole.Some? {
      var allowed := CheckMoves(t, actor, target, slug, ch.apps);
      failure := if allowed then None else Some(AppRoleAboveLevel);
    }
  }

  method ValidateRoleChange(t: Tables, actor: Sub, slug: Slug, ch: RoleChanges) returns (failure: Option<AdminError>)
    ensures failure == CheckRole(t, actor, slug, ch)
  {
    var granted := Granted(t, actor);
    failure := ActorError(t, actor);
    if failure.Some? {
      return;
    }
    failure := OutrankError(t, actor, slug);
    if failure.Some? {
      return;
    }
    if ch.perms == [] && ch.apps == [] {
      return Some(NoChanges);
    }
    if |ch.perms| > 100 || |ch.apps| > 50 {
      return Some(TooManyChanges);
    }
    if (ch.perms != [] && EditRolePermissions !in granted) || (ch.apps != [] && EditRoleApps !in granted) {
      return Some(PermissionDenied);
    }
    failure := CheckPerms(t, granted, ch.perms, false);
    if failure.Some? {
      return;
    }
    failure := CheckRoleApps(t, actor, slug, ch.apps);
  }

  lemma OneClient(db: RoleDb, client: Client, scope: Scope)
    ensures PublishAll(db, Sorted(Distinct([client])), scope) == Publish(db, client, scope)
  {
    var all := Distinct([client]);
    assert all == {client};
    SortedCounts(all);
    assert Sorted(all)[0] in all;
    assert Sorted(all) == [client];
    if Publish(db, client, scope).Success? {
      assert [client][1..] == [];
    }
  }

  lemma TableOfListed(table: Table)
    ensures TableOf(ListOf(table)) == table
  {
    var roles := ListOf(table);
    TableOfRoles(roles);
    forall id ensures Lookup(TableOf(roles), id) == Lookup(table, id) {
      ListedAt(table, roles, TableOf(roles), id);
    }
    SameLookups(TableOf(roles), table);
  }

  lemma ListedAt(table: Table, roles: seq<CatalogRole>, stored: Table, id: RoleId)
    requires forall x :: x in roles <==> x.id in table && table[x.id] == x.role
    requires forall id :: id in stored <==> id in IdsOf(roles)
    requires forall i :: 0 <= i < |roles| ==> roles[i].id in stored && stored[roles[i].id] == roles[i].role
    ensures Lookup(stored, id) == Lookup(table, id)
  {
    if id in table {
      assert CatalogRole(id, table[id]) in roles;
      var i :| 0 <= i < |roles| && roles[i] == CatalogRole(id, table[id]);
    }
    assert forall i :: 0 <= i < |roles| ==> roles[i] in roles && roles[i].id in table;
  }

  // ---------------------------------------------------------------- validation and writes, one entry at a time

  method CheckPerms(t: Tables, granted: set<Perm>, changes: seq<(Perm, PermChange)>, inheritable: bool) returns (failure: Option<AdminError>)
    ensures failure == PermErrors(t, granted, changes, inheritable)
  {
    for i := 0 to |changes|
      invariant PermErrors(t, granted, changes, inheritable) == PermErrors(t, granted, changes[i..], inheritable)
    {
      assert changes[i..][0] == changes[i] && changes[i..][1..] == changes[i + 1..];
      var (key, change) := changes[i];
      if key !in t.permissions || change.BadEffect? || (change.InheritEffect? && !inheritable) {
        return Some(InvalidRequest);
      }
      if key != DisableMfa && key !in granted {
        return Some(PermissionDenied);
      }
    }
    failure := None;
  }

  method CheckUserApps(t: Tables, actor: Sub, target: Sub, slug: Option<Slug>, changes: seq<(Client, AppChange)>) returns (failure: Option<AdminError>)
    ensures failure == UserAppErrors(t, actor, target, slug, changes)
  {
    for i := 0 to |changes|
      invariant UserAppErrors(t, actor, target, slug, changes) == UserAppErrors(t, actor, target, slug, changes[i..])
    {
      assert changes[i..][0] == changes[i] && changes[i..][1..] == changes[i + 1..];
      failure := UserAppError(t, actor, target, slug, changes[i]);
      if failure.Some? {
        return;
      }
    }
    failure := None;
  }

  method CheckRoleApps(t: Tables, actor: Sub, slug: Slug, changes: seq<(Client, AppChange)>) returns (failure: Option<AdminError>)
    ensures failure == RoleAppErrors(t, actor, slug, changes)
  {
    for i := 0 to |changes|
      invariant RoleAppErrors(t, actor, slug, changes) == RoleAppErrors(t, actor, slug, changes[i..])
    {
      assert changes[i..][0] == changes[i] && changes[i..][1..] == changes[i + 1..];
      failure := RoleAppError(t, actor, slug, changes[i]);
      if failure.Some? {
        return;
      }
    }
    failure := None;
  }

  /** After a move to another org role, every managed client in turn. */
  method CheckMoves(t: Tables, actor: Sub, target: Sub, slug: Option<Slug>, changes: seq<(Client, AppChange)>) returns (allowed: bool)
    ensures allowed <==> forall c :: c in t.catalogs ==> MoveAllowed(t, actor, target, slug, changes, c)
  {
    var clients := Sorted(t.catalogs.Keys);
    for i := 0 to |clients|
      invariant forall k :: 0 <= k < i ==> MoveAllowed(t, actor, target, slug, changes, clients[k])
    {
      if !MoveAllowed(t, actor, target, slug, changes, clients[i]) {
        assert clients[i] in clients;
        return false;
      }
    }
    forall c | c in t.catalogs ensures MoveAllowed(t, actor, target, slug, changes, c) {
      var k :| 0 <= k < |clients| && clients[k] == c;
    }
    allowed := true;
  }

  method WriteRows<K(==), V>(m: map<K, V>, writes: seq<(K, Option<V>)>) returns (out: map<K, V>)
    ensures out == WriteAll(m, writes)
  {
    out := m;
    for i := 0 to |writes|
      invariant out == WriteAll(m, writes[..i])
    {
      assert writes[..i + 1][..i] == writes[..i];
      var (key, value) := writes[i];
      out := if value.Some? then out[key := value.value] else out - {key};
    }
    assert writes[..|writes|] == writes;
  }

  method WriteUserChange(t: Tables, target: Sub, ch: UserChanges) returns (u: Tables)
    ensures u == UserTables(t, target, ch)
  {
    var perms := WriteRows(t.userPerms, PermWrites(target, ch.perms));
    var overrides := WriteRows(t.overrides, AppWrites(target, ch.apps));
    u := AssignOrgRole(t, target, ch.orgRole).(userPerms := perms, overrides := overrides);
  }

  method WriteRoleChange(t: Tables, slug: Slug, ch: RoleChanges) returns (u: Tables)
    ensures u == RoleAccessTables(t, slug, ch)
  {
    var perms := WriteRows(t.rolePerms, PermWrites(slug, ch.perms));
    var orgDefaults := WriteRows(t.orgDefaults, AppWrites(slug, ch.apps));
    u := t.(rolePerms := perms, orgDefaults := orgDefaults);
  }
}
