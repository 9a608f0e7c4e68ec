// Whole runs of the role authority: administration, catalog reports, registration
// and the life of accounts and clients, in any order.
module RoleRuns {
  import opened Common
  import opened RoleTables
  import opened RolePublish
  import opened RoleCatalogs
  import opened RoleSync
  import opened RoleSyncTheorems
  import opened RoleAdmin
  import opened RoleClosure

  /** One committed or rolled back transaction. */
  datatype Step =
    | Admin(actor: Sub, call: Call)
    | Report(client: Client, batch: Batch)
    | Register(sub: Sub, slug: Slug)
    | SetStatus(sub: Sub, status: Status)
    | DeleteAccount(sub: Sub)
    | AddClient(client: Client, name: nat)
    | SetEnabled(client: Client, enabled: bool)

  predicate ValidStep(step: Step) {
    && (step.Admin? ==> ValidCall(step.call))
    && (step.Report? ==> ValidBatch(step.batch))
  }

  function AccountsAfter(accounts: map<Sub, Identity>, orgRoles: map<Slug, OrgRole>, step: Step): map<Sub, Identity> {
    match step
    case Register(sub, slug) => if sub in accounts || slug !in orgRoles then accounts else accounts[sub := Identity(Active, false)]
    case SetStatus(sub, status) => if sub !in accounts then accounts else accounts[sub := accounts[sub].(status := status)]
    case DeleteAccount(sub) => if sub !in accounts then accounts else accounts[sub := accounts[sub].(deleted := true)]
    case _ => accounts
  }

  function ClientsAfter(clients: map<Client, ClientRow>, step: Step): map<Client, ClientRow> {
    match step
    case AddClient(client, name) => if client in clients then clients else clients[client := ClientRow(true, name)]
    case SetEnabled(client, enabled) => if client !in clients then clients else clients[client := clients[client].(enabled := enabled)]
    case _ => clients
  }

  /** The tables after a step that no role writer takes part in. */
  function Outside(t: Tables, step: Step): Tables {
    t.(identities := AccountsAfter(t.identities, t.orgRoles, step), clients := ClientsAfter(t.clients, step),
       userOrg := if step.Register? && step.sub !in t.identities && step.slug in t.orgRoles then t.userOrg[step.sub := step.slug] else t.userOrg)
  }

  /** A rejected call or report leaves no trace. */
  function Do(db: RoleDb, step: Step): RoleDb
    requires ValidStep(step)
  {
    match step
    case Admin(actor, call) => (var r := Perform(db, actor, call); if r.Success? then r.value else db)
    case Report(client, batch) => Deliver(db, client, batch)
    case _ => db.(t := Outside(db.t, step))
  }

  /** What each step does: calls and batches commit or leave no trace; accounts are registered once and never removed or revived, clients never removed. */
  lemma StepIsExact(db: RoleDb, step: Step)
    requires ValidStep(step)
    ensures step.Admin? ==>
              var r := Perform(db, step.actor, step.call); (r.Success? ==> Do(db, step) == r.value) && (r.Failure? ==> Do(db, step) == db)
    ensures step.Report? ==>
              var r := ProcessBatch(db, step.client, step.batch.envelope, step.batch.events, step.batch.readings);
              (r.Success? ==> Do(db, step) == r.value) && (r.Failure? ==> Do(db, step) == db)
    ensures step.Register? ==>
              Do(db, step) ==
                if step.sub !in db.t.identities && step.slug in db.t.orgRoles
                then db.(t := db.t.(identities := db.t.identities[step.sub := Identity(Active, false)], userOrg := db.t.userOrg[step.sub := step.slug]))
                else db
    ensures step.SetStatus? || step.DeleteAccount? ==>
              var u := Do(db, step).t.identities;
              && Do(db, step) == db.(t := db.t.(identities := u)) && u.Keys == db.t.identities.Keys
              && (forall s :: s in u && s != step.sub ==> u[s] == db.t.identities[s])
              && (step.sub in u ==> u[step.sub] == if step.SetStatus? then Identity(step.status, db.t.identities[step.sub].deleted)
                                                   else Identity(db.t.identities[step.sub].status, true))
    ensures step.AddClient? ==>
              Do(db, step) == if step.client in db.t.clients then db else db.(t := db.t.(clients := db.t.clients[step.client := ClientRow(true, step.name)]))
    ensures step.SetEnabled? ==>
              var u := Do(db, step).t.clients;
              && Do(db, step) == db.(t := db.t.(clients := u)) && u.Keys == db.t.clients.Keys
              && (forall c :: c in u && c != step.client ==> u[c] == db.t.clients[c])
              && (step.client in u ==> u[step.client] == ClientRow(step.enabled, db.t.clients[step.client].name))
  {
  }

  function Run(db: RoleDb, steps: seq<Step>): RoleDb
    requires forall step :: step in steps ==> ValidStep(step)
  {
    if steps == [] then db else Do(Run(db, steps[..|steps| - 1]), steps[|steps| - 1])
  }

  ghost predicate Inv(db: RoleDb) {
    Sound(db) && ForeignKeys(db.t)
  }

  /** An installation before its first report: accounts and org roles, no catalogs and nothing published. */
  predicate Installed(db: RoleDb) {
    && db.sync == map[] && db.ledger == map[] && db.events == [] && db.inbox == map[]
    && db.t.overrides == map[] && db.t.orgDefaults == map[] && db.t.catalogs == map[] && db.t.appRoles == map[]
    && (forall s :: s in db.t.userOrg ==> s in db.t.identities && db.t.userOrg[s] in db.t.orgRoles)
    && (forall k :: k in db.t.rolePerms ==> k.0 in db.t.orgRoles)
    && (forall k :: k in db.t.userPerms ==> k.0 in db.t.identities)
  }

  lemma InstalledIsSound(db: RoleDb)
    requires Installed(db)
    ensures Inv(db)
  {
  }

  // ---------------------------------------------------------------- a change of the tables alone

  /** What changes outside of reports leave alone: catalogs stay, accounts and clients are never removed or revived. */
  predicate Frame(t: Tables, u: Tables) {
    && u.catalogs == t.catalogs && u.appRoles == t.appRoles && (forall c :: c in t.clients ==> c in u.clients)
    && forall s :: s in t.identities ==> s in u.identities && (t.identities[s].deleted ==> u.identities[s].deleted)
  }

  lemma TablesKeepEvents(db: RoleDb, u: Tables)
    requires EventsOk(db) && Frame(db.t, u)
    ensures EventsOk(db.(t := u)) && Follows(db, db.(t := u))
  {
    var after := db.(t := u);
    forall e | e in after.events ensures EventOk(after, e) {
      assert EventOk(db, e);
    }
    forall c: Client, s: Sub ensures Announced(after, c, s) {
      assert Announced(db, c, s);
      if (c, s) in db.ledger && db.ledger[(c, s)].revision > 0 {
        var e :| e in db.events && IsLatest(db, c, s, e);
        assert IsLatest(after, c, s, e);
      }
    }
  }

  lemma SameRoleIsPublished(t: Tables, u: Tables, c: Client, s: Sub)
    requires u.appRoles == t.appRoles && EffectiveAppRole(u, s, c).role == EffectiveAppRole(t, s, c).role
    ensures PublishedRole(u, c, s) == PublishedRole(t, c, s)
  {
    JoinDecides(t, c, s);
    JoinDecides(u, c, s);
  }

  lemma TablesKeepAgreement(db: RoleDb, u: Tables, c: Client, s: Sub)
    requires Agrees(db, c, s) && Frame(db.t, u) && EffectiveAppRole(u, s, c).role == EffectiveAppRole(db.t, s, c).role
    ensures Agrees(db.(t := u), c, s)
  {
    SameRoleIsPublished(db.t, u, c, s);
  }

  lemma PublishKeepsReflection(db: RoleDb, client: Client, scope: Scope, d: Client)
    requires Reflects(db, d) && Publish(db, client, scope).Success?
    ensures Reflects(Publish(db, client, scope).value, d)
  {
  }

  lemma {:induction false} PublishAllKeepsReflection(db: RoleDb, clients: seq<Client>, scope: Scope, d: Client)
    requires Reflects(db, d) && PublishAll(db, clients, scope).Success?
    ensures Reflects(PublishAll(db, clients, scope).value, d)
    decreases |clients|
  {
    if clients != [] {
      PublishKeepsReflection(db, clients[0], scope, d);
      PublishAllKeepsReflection(Publish(db, clients[0], scope).value, clients[1..], scope, d);
    }
  }

  /** Whoever resolves differently is covered by the publication. */
  ghost predicate Republished(t: Tables, u: Tables, clients: seq<Client>, scope: Scope) {
    forall c: Client, s: Sub :: c in t.catalogs && s in t.identities ==>
      EffectiveAppRole(u, s, c).role == EffectiveAppRole(t, s, c).role || (c in clients && Covers(scope, s))
  }

  /** Changed tables followed by a publication that covers every change keep everything sound. */
  lemma PublishingKeepsSound(db: RoleDb, u: Tables, clients: seq<Client>, scope: Scope)
    requires Sound(db) && Frame(db.t, u) && NoDangling(u) && Republished(db.t, u, clients, scope)
    requires PublishAll(db.(t := u), clients, scope).Success?
    ensures var after := PublishAll(db.(t := u), clients, scope).value; Sound(after) && Follows(db, after) && after.t == u
  {
    var written := db.(t := u);
    var after := PublishAll(written, clients, scope).value;
    TablesKeepEvents(db, u);
    PublishAllKeeps(written, clients, scope);
    FollowsTransitive(db, written, after);
    forall c: Client, s: Sub ensures Agrees(after, c, s) {
      assert Agrees(db, c, s);
      if c in db.t.catalogs && s in db.t.identities && EffectiveAppRole(u, s, c).role == EffectiveAppRole(db.t, s, c).role {
        TablesKeepAgreement(db, u, c, s);
      } else if (c, s) !in db.ledger {
        assert Agrees(written, c, s);
      }
    }
    forall d: Client ensures Reflects(after, d) {
      assert Reflects(db, d);
      assert Reflects(written, d);
      PublishAllKeepsReflection(written, clients, scope, d);
    }
  }

  // ---------------------------------------------------------------- administration

  lemma UserAccessListed(t: Tables, u: Tables, actor: Sub, target: Sub, ch: UserChanges)
    requires NoDangling(t) && UserWritten(t, u, target, ch) && CheckUser(t, actor, target, ch).None?
    ensures NoDangling(u)
  {
    forall k | k in u.overrides ensures NullOrListed(t, k.1, u.overrides[k]) {
      assert AppWritten(t.overrides, u.overrides, target, ch.apps, k);
      if k.0 == target && Mentions(ch.apps, k.1) {
        var i :| 0 <= i < |ch.apps| && ch.apps[i].0 == k.1;
        AcceptedApp(t, actor, target, ch, i);
      } else {
        assert NullOrListed(t, k.1, t.overrides[k]);
      }
    }
    SameCatalogs(t, u);
  }

  lemma SameCatalogs(t: Tables, u: Tables)
    requires NoDangling(t) && u.catalogs == t.catalogs && u.appRoles == t.appRoles
    requires forall k :: k in u.overrides ==> NullOrListed(t, k.1, u.overrides[k])
    requires forall k :: k in u.orgDefaults ==> NullOrListed(t, k.1, u.orgDefaults[k])
    ensures NoDangling(u)
  {
  }

  lemma RoleAccessListed(t: Tables, u: Tables, actor: Sub, slug: Slug, ch: RoleChanges)
    requires NoDangling(t) && RoleWritten(t, u, slug, ch) && CheckRole(t, actor, slug, ch).None?
    ensures NoDangling(u)
  {
    forall k | k in u.orgDefaults ensures NullOrListed(u, k.1, u.orgDefaults[k]) {
      assert AppWritten(t.orgDefaults, u.orgDefaults, slug, ch.apps, k);
      if k.0 == slug && Mentions(ch.apps, k.1) {
        var i :| 0 <= i < |ch.apps| && ch.apps[i].0 == k.1;
        AcceptedDefault(t, actor, slug, ch, i);
      }
    }
  }

  lemma SeedListed(t: Tables, r: NewRole, seed: Slug)
    requires NoDangling(t) && r.level.Some?
    ensures NoDangling(Seeded(t, r.slug, r.title, r.level.value, seed))
  {
    var u := Seeded(t, r.slug, r.title, r.level.value, seed);
    forall k | k in u.orgDefaults ensures NullOrListed(u, k.1, u.orgDefaults[k]) {
      CopiedRow(t.orgDefaults, seed, r.slug, k);
    }
  }

  lemma DropListed(t: Tables, slug: Slug)
    requires NoDangling(t)
    ensures NoDangling(Without(t, slug))
  {
  }

  lemma SameReferences(t: Tables, u: Tables)
    requires NoDangling(t)
    requires u.overrides == t.overrides && u.orgDefaults == t.orgDefaults && u.catalogs == t.catalogs && u.appRoles == t.appRoles
    ensures NoDangling(u)
  {
  }

  /** No administrative call introduces a role that the catalog does not list. */
  lemma CallKeepsReferences(t: Tables, actor: Sub, call: Call)
    requires NoDangling(t) && ValidCall(call) && Check(t, actor, call).None?
    ensures NoDangling(After(t, actor, call))
  {
    match call
    case UserAccess(target, ch) =>
      UserIsWritten(t, target, ch);
      UserAccessListed(t, UserTables(t, target, ch), actor, target, ch);
    case RoleAccess(slug, ch) =>
      RoleIsWritten(t, slug, ch);
      RoleAccessListed(t, RoleAccessTables(t, slug, ch), actor, slug, ch);
    case NewOrgRole(r) => SeedListed(t, r, DefaultOrgRole(t));
    case DropOrgRole(slug) => DropListed(t, slug);
    case _ => SameReferences(t, After(t, actor, call));
  }

  function CallClients(t: Tables, call: Call): seq<Client> {
    match call
    case UserAccess(_, ch) => UserClients(t, ch)
    case RoleAccess(_, ch) => Sorted(Keys(ch.apps))
    case _ => []
  }

  function CallScope(call: Call): Scope {
    Scope(if call.UserAccess? then Some({call.target}) else None, false, {})
  }

  lemma UserAccessRepublished(t: Tables, u: Tables, target: Sub, ch: UserChanges)
    requires UserWritten(t, u, target, ch)
    ensures Republished(t, u, UserClients(t, ch), CallScope(UserAccess(target, ch)))
  {
    forall c: Client, s: Sub | c in t.catalogs && s in t.identities
      ensures EffectiveAppRole(u, s, c).role == EffectiveAppRole(t, s, c).role || (c in UserClients(t, ch) && s == target)
    {
      if s != target {
        UserAccessLocal(t, u, target, ch, s);
        SameInputsSameRole(t, u, s, c);
      } else if ch.orgRole.None? && !Mentions(ch.apps, c) {
        UnnamedRole(t, u, target, ch, c);
      }
    }
  }

  lemma RoleAccessRepublished(t: Tables, u: Tables, slug: Slug, ch: RoleChanges)
    requires RoleWritten(t, u, slug, ch)
    ensures Republished(t, u, Sorted(Keys(ch.apps)), CallScope(RoleAccess(slug, ch)))
  {
    forall c: Client, s: Sub | c in t.catalogs && s in t.identities && !Mentions(ch.apps, c)
      ensures EffectiveAppRole(u, s, c).role == EffectiveAppRole(t, s, c).role
    {
      if Lookup(t.userOrg, s) == Some(slug) {
        assert AppWritten(t.orgDefaults, u.orgDefaults, slug, ch.apps, (slug, c));
      } else {
        RoleAccessOutside(t, u, slug, ch, s);
        SameInputsSameRole(t, u, s, c);
      }
    }
  }

  lemma SameInputsRepublished(t: Tables, u: Tables)
    requires forall s: Sub :: s in t.identities ==> SameInputs(t, u, s)
    ensures Republished(t, u, [], Scope(None, false, {}))
  {
    forall c: Client, s: Sub | c in t.catalogs && s in t.identities ensures EffectiveAppRole(u, s, c).role == EffectiveAppRole(t, s, c).role {
      SameInputsSameRole(t, u, s, c);
    }
  }

  lemma RoleEditRepublished(t: Tables, u: Tables, slug: Slug)
    requires RoleEdited(t, u, slug) && forall s :: s in t.userOrg ==> t.userOrg[s] != slug
    ensures Republished(t, u, [], Scope(None, false, {}))
  {
    forall s: Sub | s in t.identities ensures SameInputs(t, u, s) {
      EmptyRoleLocal(t, u, slug, s);
    }
    SameInputsRepublished(t, u);
  }

  /** Every call publishes to exactly the clients where somebody's role may have changed. */
  lemma CallRepublishes(t: Tables, actor: Sub, call: Call)
    requires ForeignKeys(t) && ValidCall(call) && Check(t, actor, call).None?
    ensures Republished(t, After(t, actor, call), CallClients(t, call), CallScope(call))
  {
    var u := After(t, actor, call);
    match call
    case UserAccess(target, ch) =>
      UserIsWritten(t, target, ch);
      UserAccessRepublished(t, u, target, ch);
    case RoleAccess(slug, ch) =>
      RoleIsWritten(t, slug, ch);
      RoleAccessRepublished(t, u, slug, ch);
    case NewOrgRole(r) =>
      SeedEditsOne(t, r, DefaultOrgRole(t));
      RoleEditRepublished(t, u, r.slug);
    case DropOrgRole(slug) =>
      DropEditsOne(t, slug);
      NobodyHolds(t, slug);
      RoleEditRepublished(t, u, slug);
    case EditOrgRole(slug, patch) => SameInputsRepublished(t, u);
    case ChooseDefault(slug) => SameInputsRepublished(t, u);
    case NewOrgUser(sub, slug, _) => NewUserRepublished(t, sub, slug);
  }

  lemma NewUserRepublished(t: Tables, sub: Sub, slug: Slug)
    requires sub !in t.identities
    ensures Republished(t, t.(identities := t.identities[sub := Identity(Active, false)], userOrg := t.userOrg[sub := slug]), [], Scope(None, false, {}))
  {
    SameInputsRepublished(t, t.(identities := t.identities[sub := Identity(Active, false)], userOrg := t.userOrg[sub := slug]));
  }

  lemma CallFrame(t: Tables, actor: Sub, call: Call)
    requires Check(t, actor, call).None?
    ensures Frame(t, After(t, actor, call))
  {
    CallKeepsCatalogs(t, actor, call);
    CallKeepsAccounts(t, actor, call);
  }

  lemma CallKeepsCatalogs(t: Tables, actor: Sub, call: Call)
    requires Check(t, actor, call).None?
    ensures var u := After(t, actor, call); u.catalogs == t.catalogs && u.appRoles == t.appRoles && u.clients == t.clients
  {
  }

  lemma CallKeepsAccounts(t: Tables, actor: Sub, call: Call)
    requires Check(t, actor, call).None?
    ensures forall s :: s in t.identities ==> s in After(t, actor, call).identities && After(t, actor, call).identities[s] == t.identities[s]
  {
    match call
    case NewOrgUser(sub, slug, _) =>
    case _ => assert After(t, actor, call).identities == t.identities;
  }

  lemma PerformPublishes(db: RoleDb, actor: Sub, call: Call)
    requires Perform(db, actor, call).Success?
    ensures Check(db.t, actor, call).None?
    ensures PublishAll(db.(t := After(db.t, actor, call)), CallClients(db.t, call), CallScope(call)) == Success(Perform(db, actor, call).value)
  {
    PerformChecksAndWrites(db, actor, call);
  }

  lemma AdminKeepsInv(db: RoleDb, actor: Sub, call: Call)
    requires Inv(db) && ValidCall(call) && Perform(db, actor, call).Success?
    ensures Inv(Perform(db, actor, call).value) && Follows(db, Perform(db, actor, call).value)
  {
    PerformPublishes(db, actor, call);
    CallFrame(db.t, actor, call);
    CallRepublishes(db.t, actor, call);
    CallKeepsReferences(db.t, actor, call);
    CallKeepsKeys(db.t, actor, call);
    PublishingKeepsSound(db, After(db.t, actor, call), CallClients(db.t, call), CallScope(call));
  }

  // ---------------------------------------------------------------- reports

  lemma CatalogKeepsKeys(t: Tables, client: Client, news: Table, d: Option<RoleId>, siteName: Option<nat>, top: Option<RoleId>, iat: nat)
    requires Listed(news, d) && ForeignKeys(t)
    ensures ForeignKeys(CatalogTables(t, client, news, d, siteName, top, iat))
  {
    var after := CatalogTables(t, client, news, d, siteName, top, iat);
    forall k: (nat, Client) ensures (k in after.overrides ==> k in t.overrides) && (k in after.orgDefaults ==> k in t.orgDefaults || (k.1 == client && k.0 in t.orgRoles)) {
      ReferencesAfter(t, client, news, d, siteName, top, iat, k);
    }
  }

  lemma PublishKeepsKeys(db: RoleDb, client: Client, scope: Scope)
    ensures Publish(db, client, scope).Success? ==> Publish(db, client, scope).value.t == db.t
  {
  }

  lemma ApplyKeepsKeys(db: RoleDb, client: Client, iat: nat, c: RoleCatalog)
    requires ForeignKeys(db.t) && client in db.sync && WellFormed(c) && ApplyCatalog(db, client, iat, c).Success?
    ensures ForeignKeys(ApplyCatalog(db, client, iat, c).value.0.t)
  {
    WellFormedLists(c);
    CatalogKeepsKeys(db.t, client, TableOf(c.roles), c.defaultRole, c.siteName, TopId(c.roles), iat);
    PublishKeepsKeys(Stored(db, client, iat, c), client, StoreScope(db, client, iat, c));
  }

  lemma ProcessKeepsKeys(db: RoleDb, client: Client, iat: nat, e: Incoming)
    requires ForeignKeys(db.t) && Valid(e) && ProcessEvent(db, client, iat, e).Success?
    ensures ForeignKeys(ProcessEvent(db, client, iat, e).value.t)
  {
    if e.body.RolesSync? {
      var ready := Ensure(db, client).value;
      if ApplyCatalog(ready, client, iat, e.body.catalog).Success? {
        ApplyKeepsKeys(ready, client, iat, e.body.catalog);
      }
    }
  }

  lemma {:induction false} ReportsKeepKeys(db: RoleDb, client: Client, envelope: Envelope, events: seq<Incoming>, readings: seq<int>)
    requires ForeignKeys(db.t) && AllValid(events) && |readings| == |events| + 1
    ensures var r := ProcessEvents(db, client, envelope, events, readings); r.Success? ==> ForeignKeys(r.value.t)
    decreases |events|
  {
    if events != [] && ProcessEvents(db, client, envelope, events, readings).Success? {
      assert events[0] in events && forall e :: e in events[1..] ==> e in events;
      ProcessKeepsKeys(db, client, envelope.iat, events[0]);
      ReportsKeepKeys(ProcessEvent(db, client, envelope.iat, events[0]).value, client, envelope, events[1..], readings[1..]);
    }
  }

  lemma ReportKeepsInv(db: RoleDb, client: Client, b: Batch)
    requires Inv(db) && ValidBatch(b)
    ensures Inv(Deliver(db, client, b)) && Follows(db, Deliver(db, client, b))
  {
    ProcessAllKeepsSound(db, client, b.envelope, b.events, b.readings[1..]);
    ReportsKeepKeys(db, client, b.envelope, b.events, b.readings[1..]);
  }

  // ---------------------------------------------------------------- the rest

  lemma OutsideResolvesSame(t: Tables, step: Step, c: Client, s: Sub)
    requires !step.Admin? && !step.Report? && s in t.identities
    ensures EffectiveAppRole(Outside(t, step), s, c) == EffectiveAppRole(t, s, c)
  {
  }

  lemma OutsideSame(t: Tables, step: Step)
    requires !step.Admin? && !step.Report?
    ensures var u := Outside(t, step);
            u.overrides == t.overrides && u.orgDefaults == t.orgDefaults && u.catalogs == t.catalogs && u.appRoles == t.appRoles
  {
  }

  lemma AccountsStay(accounts: map<Sub, Identity>, orgRoles: map<Slug, OrgRole>, step: Step)
    ensures forall s :: s in accounts ==>
              s in AccountsAfter(accounts, orgRoles, step) && (accounts[s].deleted ==> AccountsAfter(accounts, orgRoles, step)[s].deleted)
  {
  }

  lemma ClientsStay(clients: map<Client, ClientRow>, step: Step)
    ensures forall c :: c in clients ==> c in ClientsAfter(clients, step)
  {
  }

  lemma OutsideKeys(t: Tables, step: Step)
    requires !step.Admin? && !step.Report? && ForeignKeys(t)
    ensures ForeignKeys(Outside(t, step))
  {
  }

  lemma OutsideKeepsInv(db: RoleDb, step: Step)
    requires Inv(db) && !step.Admin? && !step.Report?
    ensures Inv(Do(db, step)) && Follows(db, Do(db, step))
  {
    var u := Outside(db.t, step);
    OutsideSame(db.t, step);
    AccountsStay(db.t.identities, db.t.orgRoles, step);
    ClientsStay(db.t.clients, step);
    SameReferences(db.t, u);
    OutsideKeys(db.t, step);
    forall c: Client, s: Sub | c in db.t.catalogs && s in db.t.identities ensures EffectiveAppRole(u, s, c).role == EffectiveAppRole(db.t, s, c).role {
      OutsideResolvesSame(db.t, step, c, s);
    }
    PublishingKeepsSound(db, u, [], Scope(None, false, {}));
  }

  // ---------------------------------------------------------------- runs

  lemma StepKeepsInv(db: RoleDb, step: Step)
    requires Inv(db) && ValidStep(step)
    ensures Inv(Do(db, step)) && Follows(db, Do(db, step))
  {
    match step
    case Admin(actor, call) =>
      if Perform(db, actor, call).Success? {
        AdminKeepsInv(db, actor, call);
      }
    case Report(client, b) => ReportKeepsInv(db, client, b);
    case _ => OutsideKeepsInv(db, step);
  }

  lemma {:induction false} RunKeepsInv(db: RoleDb, steps: seq<Step>)
    requires Inv(db) && forall step :: step in steps ==> ValidStep(step)
    ensures Inv(Run(db, steps)) && Follows(db, Run(db, steps))
  {
    if steps != [] {
      var init := steps[..|steps| - 1];
      RunKeepsInv(db, init);
      StepKeepsInv(Run(db, init), steps[|init|]);
      FollowsTransitive(db, Run(db, init), Run(db, steps));
    }
  }

  /** In every reachable state no role reference dangles, so `unknown_role` is never reported. */
  lemma UnknownRoleIsUnreachable(start: RoleDb, steps: seq<Step>, client: Client, s: Sub)
    requires Installed(start) && forall step :: step in steps ==> ValidStep(step)
    ensures NoDangling(Run(start, steps).t)
    ensures !AccessStateOf(Run(start, steps).t, client, s).access.UnknownRole?
  {
    InstalledIsSound(start);
    RunKeepsInv(start, steps);
    var t := Run(start, steps).t;
    if client in t.catalogs {
      ResolvedIsPublished(t, client, s);
    }
  }

  /** After any run, a receiver of any reordering and duplication of a client's events, the latest included, holds the resolved role. */
  lemma ReceiversConverge(start: RoleDb, steps: seq<Step>, client: Client, s: Sub, messages: seq<RoleEvent>)
    requires Installed(start) && forall step :: step in steps ==> ValidStep(step)
    requires var db := Run(start, steps);
             && s in db.t.identities && !db.t.identities[s].deleted
             && (forall e :: e in messages ==> e in db.events && e.client == client)
             && (exists e :: e in db.events && e.client == client && e.sub == s)
             && (forall e :: e in db.events && e.client == client && e.sub == s ==>
                   e in messages || exists f :: f in db.events && f.client == client && f.sub == s && f.revision > e.revision)
    ensures var db := Run(start, steps);
            var known := ReceiveAll(map[], messages);
            && s in known && known[s].role == EffectiveAppRole(db.t, s, client).role
            && forall e :: e in db.events && e.client == client && e.sub == s ==> e.revision <= known[s].revision
  {
    InstalledIsSound(start);
    RunKeepsInv(start, steps);
    var db := Run(start, steps);
    assert forall f :: f in db.events && f.client == client && f.sub == s ==> EventOk(db, f);
    assert forall e :: e in db.events && IsLatest(db, client, s, e) ==> e in messages;
    ReceiverConverges(db, client, s, messages);
    var some :| some in db.events && some.client == client && some.sub == s;
    assert EventOk(db, some) && Agrees(db, client, s);
    ResolvedIsPublished(db.t, client, s);
    forall e | e in db.events && e.client == client && e.sub == s ensures e.revision <= ReceiveAll(map[], messages)[s].revision {
      assert EventOk(db, e);
    }
  }

  lemma SnapshotIsLatest(earlier: RoleDb, later: RoleDb, client: Client, e: RoleEvent)
    requires Inv(earlier) && Follows(earlier, later) && client in earlier.sync && client in earlier.t.catalogs
    requires e.sub in earlier.t.identities && !earlier.t.identities[e.sub].deleted
    requires e in later.events && e.client == client && e.revision <= earlier.sync[client].revision
    requires forall f :: f in later.events && f.client == client && f.sub == e.sub && f.revision > e.revision ==> f.revision > earlier.sync[client].revision
    ensures e.role == AccessStateOf(earlier.t, client, e.sub).role && e.epoch == earlier.sync[client].epoch
  {
    SnapshotIsCurrent(earlier, later, client, e);
    forall f | f in earlier.events && f.client == e.client && f.sub == e.sub ensures f.revision <= e.revision {
      assert f in later.events;
      assert EventOk(earlier, f) && Agrees(earlier, client, e.sub);
    }
    assert EventOk(earlier, e);
    HighestEventCarriesTheRole(earlier, e);
    ResolvedIsPublished(earlier.t, client, e.sub);
    ResolversAgree(earlier.t, client, e.sub);
  }

  /** A snapshot stamped with revision R: whatever runs afterwards, the newest event at or below R that a receiver may ever see carries its role. */
  lemma SnapshotIsNeverContradicted(start: RoleDb, before: seq<Step>, after: seq<Step>, client: Client, subjects: seq<Sub>, i: nat, e: RoleEvent)
    requires Installed(start) && (forall step :: step in before ==> ValidStep(step)) && (forall step :: step in after ==> ValidStep(step))
    requires var earlier := Run(start, before);
             var snapshot := ReadSnapshot(earlier, client, subjects);
             && i < |subjects| && subjects[i] in earlier.t.identities && !earlier.t.identities[subjects[i]].deleted
             && snapshot.Some? && snapshot.value.authority.Some?
             && e in Run(earlier, after).events && e.client == client && e.sub == subjects[i]
             && e.revision <= snapshot.value.authority.value.revision
             && (forall f :: f in Run(earlier, after).events && f.client == client && f.sub == e.sub && f.revision > e.revision ==>
                   f.revision > snapshot.value.authority.value.revision)
    ensures var snapshot := ReadSnapshot(Run(start, before), client, subjects).value;
            e.role == snapshot.states[i].role && e.epoch == snapshot.authority.value.epoch
  {
    InstalledIsSound(start);
    RunKeepsInv(start, before);
    var earlier := Run(start, before);
    RunKeepsInv(earlier, after);
    var later := Run(earlier, after);
    SnapshotIsLatest(earlier, later, client, e);
  }
}
