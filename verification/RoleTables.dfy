// The tables behind role resolution and the three places that resolve a role.
module RoleTables {
  import opened Common

  // Identifiers are only compared. A role id is a 32-bit integer, counted here from the least one.
  type Sub = nat
  type Client = nat
  type Slug = nat
  type Uuid = nat
  type RoleId = nat

  const MAX_BIGINT: nat := 9223372036854775807

  datatype Status = Active | Disabled | Locked

  datatype Identity = Identity(status: Status, deleted: bool)

  datatype ClientRow = ClientRow(enabled: bool, name: nat)

  datatype OrgRole = OrgRole(level: int, isSystem: bool, title: nat)

  datatype AppRole = AppRole(name: nat, level: int, isSystem: bool)

  datatype CatalogRole = CatalogRole(id: RoleId, role: AppRole)

  datatype Version = Version(epoch: Uuid, revision: nat)

  /** A normalized report: roles in id order; the version is absent in legacy reports. */
  datatype RoleCatalog = RoleCatalog(roles: seq<CatalogRole>, defaultRole: Option<RoleId>, siteName: Option<nat>, version: Option<Version>)

  /** What a catalog digest covers. The digest is injective, so the model stores what it covers. */
  datatype Content = Content(roles: seq<CatalogRole>, defaultRole: Option<RoleId>, siteName: Option<nat>)

  /** What an inbox digest covers: the event type with the normalized payload. */
  datatype Body = RolesSync(catalog: RoleCatalog) | Other(kind: nat, payload: nat)

  datatype CatalogRow = CatalogRow(defaultRole: Option<RoleId>, iat: nat)

  /** `version` is present exactly in revisioned mode. */
  datatype SyncState = SyncState(version: Option<Version>, digest: Option<Content>, iat: nat, epoch: Uuid, revision: nat)

  datatype LedgerRow = LedgerRow(role: Option<RoleId>, managed: bool, revision: nat)

  datatype RoleEvent = RoleEvent(client: Client, sub: Sub, role: Option<RoleId>, epoch: Uuid, revision: nat)

  datatype Effect = Grant | Deny

  /** The permission keys the role service asks for by name, and the rest of the catalog. */
  datatype Perm =
    | EditUserPermissions | EditUserApps | EditRolePermissions | EditRoleApps | CreateRole | RenameRole | MoveRole
    | RemoveRole | SetDefaultRole | CreateUser | DisableMfa | OtherPerm(key: nat)

  /** Everything that decides what a user may do. */
  datatype Tables = Tables(
    clients: map<Client, ClientRow>,
    identities: map<Sub, Identity>,
    orgRoles: map<Slug, OrgRole>,
    userOrg: map<Sub, Slug>,
    permissions: set<Perm>,
    rolePerms: map<(Slug, Perm), Effect>,
    userPerms: map<(Sub, Perm), Effect>,
    overrides: map<(Sub, Client), Option<RoleId>>,
    orgDefaults: map<(Slug, Client), Option<RoleId>>,
    catalogs: map<Client, CatalogRow>,
    appRoles: map<Client, map<RoleId, AppRole>>,
    defaultOrgRole: Option<Slug>)

  /** The role tables with the authority ledger, the queued authority events and the inbox. */
  datatype RoleDb = RoleDb(
    t: Tables,
    sync: map<Client, SyncState>,
    ledger: map<(Client, Sub), LedgerRow>,
    events: seq<RoleEvent>,
    inbox: map<(Client, Uuid), Option<Body>>)

  // ---------------------------------------------------------------- three resolvers

  datatype Source = FromOverride | FromOrg | FromCatalog | FromNone

  datatype Effective = Effective(role: Option<RoleId>, source: Source)

  /** Three lookups with early returns: override, then org default, then catalog default. */
  function EffectiveAppRole(t: Tables, sub: Sub, client: Client): Effective {
    if (sub, client) in t.overrides then Effective(t.overrides[(sub, client)], FromOverride)
    else if sub in t.userOrg && (t.userOrg[sub], client) in t.orgDefaults then
      Effective(t.orgDefaults[(t.userOrg[sub], client)], FromOrg)
    else if client in t.catalogs then Effective(t.catalogs[client].defaultRole, FromCatalog)
    else Effective(None, FromNone)
  }

  /** The row that the left joins of the two SQL resolvers produce for a subject. */
  datatype Joined = Joined(account: Option<Identity>, ov: Option<Option<RoleId>>, od: Option<Option<RoleId>>, cat: Option<CatalogRow>)

  function Lookup<K, V>(m: map<K, V>, k: K): Option<V> {
    if k in m then Some(m[k]) else None
  }

  function Join(t: Tables, client: Client, sub: Sub): Joined {
    var ur := Lookup(t.userOrg, sub);
    Joined(Lookup(t.identities, sub), Lookup(t.overrides, (sub, client)),
           if ur.None? then None else Lookup(t.orgDefaults, (ur.value, client)), Lookup(t.catalogs, client))
  }

  /** `CASE WHEN override THEN ... WHEN org default THEN ... ELSE catalog default END`. */
  function CaseRole(j: Joined): Option<RoleId> {
    if j.ov.Some? then j.ov.value
    else if j.od.Some? then j.od.value
    else if j.cat.Some? then j.cat.value.defaultRole else None
  }

  function CaseSource(j: Joined): Source {
    if j.ov.Some? then FromOverride else if j.od.Some? then FromOrg else if j.cat.Some? then FromCatalog else FromNone
  }

  /** The catalog rows of one client. */
  function RolesOf(t: Tables, client: Client): map<RoleId, AppRole> {
    if client in t.appRoles then t.appRoles[client] else map[]
  }

  predicate InCatalog(t: Tables, client: Client, role: Option<RoleId>) {
    role.Some? && role.value in RolesOf(t, client)
  }

  /** The role an authority event carries: the joined role, if the catalog still lists it. */
  function PublishedRole(t: Tables, client: Client, sub: Sub): Option<RoleId> {
    var role := CaseRole(Join(t, client, sub));
    if InCatalog(t, client, role) then role else None
  }

  /** One row of the publication's `effective` CTE before its catalog lookup. */
  datatype EffectiveRow = EffectiveRow(override: Option<Option<RoleId>>, orgRole: Option<Slug>, orgDefault: Option<(Slug, Option<RoleId>)>, catalog: CatalogRow)

  /** The CTE joins accounts and the catalog strictly and the three layers loosely: no row for an account or client that is missing, nor for a deleted account. */
  function CteRow(t: Tables, client: Client, sub: Sub): Option<EffectiveRow> {
    if sub !in t.identities || t.identities[sub].deleted || client !in t.catalogs then None else
    var ur := Lookup(t.userOrg, sub);
    var od := if ur.Some? && (ur.value, client) in t.orgDefaults then Some((ur.value, t.orgDefaults[(ur.value, client)])) else None;
    Some(EffectiveRow(Lookup(t.overrides, (sub, client)), ur, od, t.catalogs[client]))
  }

  /** `CASE WHEN ov.user_sub IS NOT NULL ... WHEN od.role_slug IS NOT NULL ... ELSE cat.default_role_id END` */
  function RawRole(r: EffectiveRow): Option<RoleId> {
    match r
    case EffectiveRow(Some(role), _, _, _) => role
    case EffectiveRow(None, _, Some((slug, role)), _) => role
    case EffectiveRow(None, _, None, catalog) => catalog.defaultRole
  }

  /** The last join: a raw role that the catalog does not list becomes null. */
  function CteRole(t: Tables, client: Client, r: EffectiveRow): Option<RoleId> {
    if RawRole(r).Some? && RawRole(r).value in RolesOf(t, client) then RawRole(r) else None
  }

  /** The CTE has a row exactly for the existing accounts of a managed client; its raw role is the looked-up one, its role the published one. */
  lemma CteDecides(t: Tables, client: Client, s: Sub)
    ensures CteRow(t, client, s).Some? <==> s in t.identities && !t.identities[s].deleted && client in t.catalogs
    ensures CteRow(t, client, s).Some? ==>
              && RawRole(CteRow(t, client, s).value) == EffectiveAppRole(t, s, client).role
              && RawRole(CteRow(t, client, s).value) == AccessStateOf(t, client, s).role
              && CteRole(t, client, CteRow(t, client, s).value) == PublishedRole(t, client, s)
  {
  }

  /** Resolution sees no difference between two states of the tables. */
  predicate SameResolution(a: Tables, b: Tables, client: Client, s: Sub) {
    Join(a, client, s) == Join(b, client, s) && RolesOf(a, client) == RolesOf(b, client)
  }

  lemma SameResolutionResolves(a: Tables, b: Tables, client: Client, s: Sub)
    requires SameResolution(a, b, client, s)
    ensures EffectiveAppRole(a, s, client) == EffectiveAppRole(b, s, client)
    ensures PublishedRole(a, client, s) == PublishedRole(b, client, s)
  {
    JoinDecides(a, client, s);
    JoinDecides(b, client, s);
  }

  /** The three lookups with early returns and the joined `CASE` give the same role and name the same source. */
  lemma JoinDecides(t: Tables, client: Client, s: Sub)
    ensures EffectiveAppRole(t, s, client) == Effective(CaseRole(Join(t, client, s)), CaseSource(Join(t, client, s)))
  {
  }

  // ---------------------------------------------------------------- access state

  datatype AccountStatus = Account(status: Status) | Deleted | NotFound

  datatype Access = NoAccess | Unmanaged | Allowed | UnknownRole

  datatype AccessState = AccessState(sub: Sub, status: AccountStatus, managed: bool, role: Option<RoleId>, source: Source, access: Access, allowed: bool)

  /** One row of the access-state snapshot. */
  function AccessStateOf(t: Tables, client: Client, sub: Sub): AccessState {
    var j := Join(t, client, sub);
    var status := if j.account.None? then NotFound else if j.account.value.deleted then Deleted else Account(j.account.value.status);
    var known := !status.NotFound?;
    var managed := j.cat.Some?;
    var role := if known && managed then CaseRole(j) else None;
    var source := if known && managed then CaseSource(j) else FromNone;
    var access := if !known then NoAccess else if !managed then Unmanaged
                  else if role.None? then NoAccess else if InCatalog(t, client, role) then Allowed else UnknownRole;
    AccessState(sub, status, managed, role, source, access, status == Account(Active) && (access.Allowed? || access.Unmanaged?))
  }

  datatype Authority = Authority(epoch: Uuid, revision: nat)

  datatype Snapshot = Snapshot(states: seq<AccessState>, authority: Option<Authority>)

  /** A disabled or unknown client reads no rows; a managed client's snapshot is stamped with its authority revision. */
  function ReadSnapshot(db: RoleDb, client: Client, subjects: seq<Sub>): Option<Snapshot> {
    if client !in db.t.clients || !db.t.clients[client].enabled then Some(Snapshot([], None)) else
    var states := seq(|subjects|, i requires 0 <= i < |subjects| => AccessStateOf(db.t, client, subjects[i]));
    if client !in db.t.catalogs || subjects == [] then Some(Snapshot(states, None))
    else if client !in db.sync then None
    else Some(Snapshot(states, Some(Authority(db.sync[client].epoch, db.sync[client].revision))))
  }

  // ---------------------------------------------------------------- the sign-in gate

  predicate AppAccessAllowed(t: Tables, client: Client, sub: Sub) {
    client !in t.catalogs || InCatalog(t, client, EffectiveAppRole(t, sub, client).role)
  }

  /** Smaller is more privileged; no access and vanished roles rank below every role. */
  datatype Rank = Finite(level: int) | Infinite

  predicate MorePrivileged(a: Rank, b: Rank) {
    a.Finite? && (b.Finite? ==> a.level < b.level)
  }

  function AppRoleLevel(t: Tables, client: Client, role: Option<RoleId>): Rank {
    if InCatalog(t, client, role) then Finite(RolesOf(t, client)[role.value].level) else Infinite
  }

  // ---------------------------------------------------------------- no dangling references

  predicate NullOrListed(t: Tables, client: Client, role: Option<RoleId>) {
    role.None? || InCatalog(t, client, role)
  }

  /** Every override, org default and catalog default is null or names a role in the client's catalog. */
  ghost predicate NoDangling(t: Tables) {
    && (forall k :: k in t.overrides ==> NullOrListed(t, k.1, t.overrides[k]))
    && (forall k :: k in t.orgDefaults ==> NullOrListed(t, k.1, t.orgDefaults[k]))
    && (forall c :: c in t.catalogs ==> NullOrListed(t, c, t.catalogs[c].defaultRole))
  }

  /** The access-state snapshot reports the role of the three lookups, and a null override never falls through. */
  lemma ResolversAgree(t: Tables, client: Client, sub: Sub)
    requires client in t.catalogs
    ensures sub in t.identities ==> AccessStateOf(t, client, sub).role == EffectiveAppRole(t, sub, client).role
    ensures (sub, client) in t.overrides && t.overrides[(sub, client)].None? ==> PublishedRole(t, client, sub).None?
  {
  }

  /** Without dangling references the published role is the resolved role and `unknown_role` does not occur. */
  lemma ResolvedIsPublished(t: Tables, client: Client, sub: Sub)
    requires NoDangling(t) && client in t.catalogs
    ensures PublishedRole(t, client, sub) == EffectiveAppRole(t, sub, client).role
    ensures !AccessStateOf(t, client, sub).access.UnknownRole?
  {
  }

  /** The sign-in gate, the access state of an active account and a non-null published role coincide. */
  lemma GatesCoincide(t: Tables, client: Client, sub: Sub)
    requires client in t.catalogs && sub in t.identities && t.identities[sub] == Identity(Active, false)
    ensures AppAccessAllowed(t, client, sub) <==> AccessStateOf(t, client, sub).allowed
    ensures AppAccessAllowed(t, client, sub) <==> PublishedRole(t, client, sub).Some?
  {
  }

  // ---------------------------------------------------------------- sorted listings

  /** The members of a finite set of numbers in increasing order, as `ORDER BY` lists them. */
  function Sorted(s: set<nat>): (r: seq<nat>)
    ensures forall x :: x in s <==> x in r
    ensures forall i, j :: 0 <= i < j < |r| ==> r[i] < r[j]
    decreases |s|
  {
    if s == {} then [] else
    LeastExists(s);
    var m :| IsLeast(m, s);
    [m] + Sorted(s - {m})
  }

  predicate IsLeast(m: nat, s: set<nat>) {
    m in s && forall x :: x in s ==> m <= x
  }

  lemma {:induction false} LeastExists(s: set<nat>)
    requires |s| > 0
    ensures exists m :: IsLeast(m, s)
    decreases |s|
  {
    var a :| a in s;
    if s == {a} {
      assert IsLeast(a, s);
    } else {
      assert s - {a} != {};
      LeastExists(s - {a});
      var b :| IsLeast(b, s - {a});
      assert forall x :: x in s ==> x == a || x in s - {a};
      assert IsLeast(if a < b then a else b, s);
    }
  }
}
