// Role administration: each call validates everything against the actor's own
// level, permissions and application roles before its first write.
module RoleAdmin {
  import opened Common
  import opened RoleTables
  import opened RolePublish

  // ---------------------------------------------------------------- who the actor is

  datatype Authz = Authz(role: Option<Slug>, level: Rank, granted: set<Perm>)

  function LevelOf(t: Tables, s: Sub): Rank {
    if s in t.userOrg && t.userOrg[s] in t.orgRoles then Finite(t.orgRoles[t.userOrg[s]].level) else Infinite
  }

  /** Override, then role default, then deny. */
  function EffectOf(t: Tables, s: Sub, p: Perm): Effect {
    if (s, p) in t.userPerms then t.userPerms[(s, p)]
    else if s in t.userOrg && (t.userOrg[s], p) in t.rolePerms then t.rolePerms[(t.userOrg[s], p)]
    else Deny
  }

  function Granted(t: Tables, s: Sub): set<Perm> {
    set p | p in t.permissions && EffectOf(t, s, p).Grant?
  }

  function ResolveAuthz(t: Tables, s: Sub): Authz {
    Authz(if s in t.userOrg && t.userOrg[s] in t.orgRoles then Some(t.userOrg[s]) else None, LevelOf(t, s), Granted(t, s))
  }

  /** Builds the granted set by walking the permission catalog. */
  method ComputeGranted(t: Tables, s: Sub, catalog: seq<Perm>) returns (granted: set<Perm>)
    requires forall p :: p in t.permissions <==> p in catalog
    ensures granted == Granted(t, s)
  {
    granted := {};
    for i := 0 to |catalog|
      invariant granted == set p | p in catalog[..i] && EffectOf(t, s, p).Grant?
    {
      if EffectOf(t, s, catalog[i]).Grant? {
        granted := granted + {catalog[i]};
      }
      assert catalog[..i + 1] == catalog[..i] + [catalog[i]];
    }
    assert catalog[..|catalog|] == catalog;
  }

  /** `a <= b` on levels, where an unassigned user ranks below every level. */
  predicate AtMost(a: Rank, b: Rank) {
    !MorePrivileged(b, a)
  }

  datatype AdminError =
    | PermissionDenied | NoSuchItem | NoChanges | TooManyChanges | RoleAboveLevel | InvalidRequest | UnknownAppRole
    | AppRoleAboveLevel | FieldError | SystemRole | RoleInUse | RoleIsDefault | SeedUnavailable | Unpublished(cause: PublishError)

  // ---------------------------------------------------------------- the requested changes

  datatype PermChange = SetEffect(effect: Effect) | InheritEffect | BadEffect

  datatype AppChange = Assign(role: Option<RoleId>) | InheritRole | BadValue

  /** The entries of a JSON object: each key once. */
  datatype UserChanges = UserChanges(orgRole: Option<Slug>, perms: seq<(Perm, PermChange)>, apps: seq<(Client, AppChange)>)

  datatype RoleChanges = RoleChanges(perms: seq<(Perm, PermChange)>, apps: seq<(Client, AppChange)>)

  predicate DistinctKeys<K(==), V>(entries: seq<(K, V)>) {
    forall i, j :: 0 <= i < j < |entries| ==> entries[i].0 != entries[j].0
  }

  /** What a user of an org role gets from a client unless overridden. */
  function OrgDefault(t: Tables, slug: Option<Slug>, client: Client): Option<RoleId> {
    if client !in t.catalogs then None
    else if slug.Some? && (slug.value, client) in t.orgDefaults then t.orgDefaults[(slug.value, client)]
    else t.catalogs[client].defaultRole
  }

  function AppLevel(t: Tables, client: Client, s: Sub): Rank {
    AppRoleLevel(t, client, EffectiveAppRole(t, s, client).role)
  }

  /** Only permissions the actor holds can be given or taken; one permission may always be. */
  function PermError(t: Tables, granted: set<Perm>, change: (Perm, PermChange), inheritable: bool): Option<AdminError> {
    if change.0 !in t.permissions || change.1.BadEffect? || (change.1.InheritEffect? && !inheritable) then Some(InvalidRequest)
    else if change.0 != DisableMfa && change.0 !in granted then Some(PermissionDenied)
    else None
  }

  function PermErrors(t: Tables, granted: set<Perm>, changes: seq<(Perm, PermChange)>, inheritable: bool): Option<AdminError> {
    if changes == [] then None
    else if PermError(t, granted, changes[0], inheritable).Some? then PermError(t, granted, changes[0], inheritable)
    else PermErrors(t, granted, changes[1..], inheritable)
  }

  /** Neither the role a target has nor the role it would get may outrank the actor's own in that application. */
  function UserAppError(t: Tables, actor: Sub, target: Sub, newSlug: Option<Slug>, change: (Client, AppChange)): Option<AdminError> {
    var (client, value) := change;
    if client !in t.catalogs then Some(NoSuchItem)
    else if value.BadValue? then Some(InvalidRequest)
    else if value.Assign? && value.role.Some? && !InCatalog(t, client, value.role) then Some(UnknownAppRole)
    else
      var actorLevel := AppLevel(t, client, actor);
      var resulting := if value.InheritRole? then OrgDefault(t, newSlug, client) else value.role;
      if MorePrivileged(AppLevel(t, client, target), actorLevel) then Some(AppRoleAboveLevel)
      else if MorePrivileged(AppRoleLevel(t, client, resulting), actorLevel) then Some(AppRoleAboveLevel)
      else None
  }

  function UserAppErrors(t: Tables, actor: Sub, target: Sub, newSlug: Option<Slug>, changes: seq<(Client, AppChange)>): Option<AdminError> {
    if changes == [] then None
    else if UserAppError(t, actor, target, newSlug, changes[0]).Some? then UserAppError(t, actor, target, newSlug, changes[0])
    else UserAppErrors(t, actor, target, newSlug, changes[1..])
  }

  predicate Mentions(changes: seq<(Client, AppChange)>, client: Client) {
    exists i :: 0 <= i < |changes| && changes[i].0 == client
  }

  /** A move to another org role must not lift any application role above the actor's. */
  predicate MoveAllowed(t: Tables, actor: Sub, target: Sub, newSlug: Option<Slug>, changes: seq<(Client, AppChange)>, client: Client) {
    || Mentions(changes, client) || (target, client) in t.overrides
    || OrgDefault(t, newSlug, client) == EffectiveAppRole(t, target, client).role
    || !MorePrivileged(AppRoleLevel(t, client, OrgDefault(t, newSlug, client)), AppLevel(t, client, actor))
  }

  /** Level checks come first: who may act, and on whom. */
  function ActorError(t: Tables, actor: Sub): Option<AdminError> {
    if actor in t.identities && t.identities[actor] == Identity(Active, false) then None else Some(PermissionDenied)
  }

  function CheckUser(t: Tables, actor: Sub, target: Sub, ch: UserChanges): Option<AdminError> {
    var me := ResolveAuthz(t, actor);
    var newSlug := if ch.orgRole.Some? then ch.orgRole else Lookup(t.userOrg, target);
    if ActorError(t, actor).Some? then ActorError(t, actor)
    else if target !in t.identities || t.identities[target].deleted || target == actor || AtMost(LevelOf(t, target), me.level) then Some(NoSuchItem)
    else if ch.orgRole.None? && ch.perms == [] && ch.apps == [] then Some(NoChanges)
    else if |ch.perms| > 100 || |ch.apps| > 50 then Some(TooManyChanges)
    else if (ch.orgRole.Some? || ch.perms != []) && EditUserPermissions !in me.granted then Some(PermissionDenied)
    else if ch.apps != [] && EditUserApps !in me.granted then Some(PermissionDenied)
    else if ch.orgRole.Some? && (ch.orgRole.value !in t.orgRoles || AtMost(Finite(t.orgRoles[ch.orgRole.value].level), me.level)) then Some(RoleAboveLevel)
    else if PermErrors(t, me.granted, ch.perms, true).Some? then PermErrors(t, me.granted, ch.perms, true)
    else if UserAppErrors(t, actor, target, newSlug, ch.apps).Some? then UserAppErrors(t, actor, target, newSlug, ch.apps)
    else if ch.orgRole.Some? && !(forall c :: c in t.catalogs ==> MoveAllowed(t, actor, target, newSlug, ch.apps, c)) then Some(AppRoleAboveLevel)
    else None
  }

  // ---------------------------------------------------------------- writes

  /** Upserts and deletes, in order: `None` deletes the key. */
  function WriteAll<K(==), V>(m: map<K, V>, writes: seq<(K, Option<V>)>): map<K, V> {
    if writes == [] then m else
    var last := writes[|writes| - 1];
    var before := WriteAll(m, writes[..|writes| - 1]);
    if last.1.Some? then before[last.0 := last.1.value] else before - {last.0}
  }

  function PermWrites(owner: nat, changes: seq<(Perm, PermChange)>): (w: seq<((nat, Perm), Option<Effect>)>) {
    seq(|changes|, i requires 0 <= i < |changes| =>
      ((owner, changes[i].0), if changes[i].1.SetEffect? then Some(changes[i].1.effect) else None))
  }

  function AppWrites(owner: nat, changes: seq<(Client, AppChange)>): (w: seq<((nat, Client), Option<Option<RoleId>>)>) {
    seq(|changes|, i requires 0 <= i < |changes| =>
      ((owner, changes[i].0), if changes[i].1.Assign? then Some(changes[i].1.role) else None))
  }

  function AssignOrgRole(t: Tables, s: Sub, slug: Option<Slug>): Tables {
    if slug.Some? then t.(userOrg := t.userOrg[s := slug.value]) else t
  }

  function UserTables(t: Tables, target: Sub, ch: UserChanges): Tables {
    AssignOrgRole(t, target, ch.orgRole).(userPerms := WriteAll(t.userPerms, PermWrites(target, ch.perms)),
                                          overrides := WriteAll(t.overrides, AppWrites(target, ch.apps)))
  }

  function Keys(changes: seq<(Client, AppChange)>): set<Client> {
    set i | 0 <= i < |changes| :: changes[i].0
  }

  /** Which clients a user change concerns: all managed ones after a move, else the named ones. */
  function UserClients(t: Tables, ch: UserChanges): seq<Client> {
    if ch.orgRole.Some? then Sorted(t.catalogs.Keys) else Sorted(Keys(ch.apps))
  }

  function Publishing(db: RoleDb, t: Tables, clients: seq<Client>, subjects: Option<set<Sub>>): Result<RoleDb, AdminError> {
    match PublishAll(db.(t := t), clients, Scope(subjects, false, {}))
    case Failure(e) => Failure(Unpublished(e))
    case Success(after) => Success(after)
  }

  function ApplyUserAccess(db: RoleDb, actor: Sub, target: Sub, ch: UserChanges): Result<RoleDb, AdminError> {
    match CheckUser(db.t, actor, target, ch)
    case Some(e) => Failure(e)
    case None => Publishing(db, UserTables(db.t, target, ch), UserClients(db.t, ch), Some({target}))
  }

  // ---------------------------------------------------------------- org roles

  /** A default may be given only below the actor's own role, and only in place of one that does not outrank it. */
  function RoleAppError(t: Tables, actor: Sub, slug: Slug, change: (Client, AppChange)): Option<AdminError> {
    var (client, value) := change;
    if client !in t.catalogs then Some(NoSuchItem)
    else if value.BadValue? then Some(InvalidRequest)
    else if value.Assign? && value.role.Some? && !InCatalog(t, client, value.role) then Some(UnknownAppRole)
    else
      var actorLevel := AppLevel(t, client, actor);
      var resulting := if value.InheritRole? then t.catalogs[client].defaultRole else value.role;
      if MorePrivileged(AppRoleLevel(t, client, OrgDefault(t, Some(slug), client)), actorLevel) then Some(AppRoleAboveLevel)
      else if AtMost(AppRoleLevel(t, client, resulting), actorLevel) then Some(AppRoleAboveLevel)
      else None
  }

  function RoleAppErrors(t: Tables, actor: Sub, slug: Slug, changes: seq<(Client, AppChange)>): Option<AdminError> {
    if changes == [] then None
    else if RoleAppError(t, actor, slug, changes[0]).Some? then RoleAppError(t, actor, slug, changes[0])
    else RoleAppErrors(t, actor, slug, changes[1..])
  }

  /** The error of a call on an existing org role by an actor who must outrank it. */
  function OutrankError(t: Tables, actor: Sub, slug: Slug): Option<AdminError> {
    if slug !in t.orgRoles then Some(NoSuchItem)
    else if AtMost(Finite(t.orgRoles[slug].level), LevelOf(t, actor)) then Some(RoleAboveLevel)
    else None
  }

  function CheckRole(t: Tables, actor: Sub, slug: Slug, ch: RoleChanges): Option<AdminError> {
    var me := ResolveAuthz(t, actor);
    if ActorError(t, actor).Some? then ActorError(t, actor)
    else if OutrankError(t, actor, slug).Some? then OutrankError(t, actor, slug)
    else if ch.perms == [] && ch.apps == [] then Some(NoChanges)
    else if |ch.perms| > 100 || |ch.apps| > 50 then Some(TooManyChanges)
    else if ch.perms != [] && EditRolePermissions !in me.granted then Some(PermissionDenied)
    else if ch.apps != [] && EditRoleApps !in me.granted then Some(PermissionDenied)
    else if PermErrors(t, me.granted, ch.perms, false).Some? then PermErrors(t, me.granted, ch.perms, false)
    else RoleAppErrors(t, actor, slug, ch.apps)
  }

  function RoleAccessTables(t: Tables, slug: Slug, ch: RoleChanges): Tables {
    t.(rolePerms := WriteAll(t.rolePerms, PermWrites(slug, ch.perms)), orgDefaults := WriteAll(t.orgDefaults, AppWrites(slug, ch.apps)))
  }

  function ApplyRoleAccess(db: RoleDb, actor: Sub, slug: Slug, ch: RoleChanges): Result<RoleDb, AdminError> {
    match CheckRole(db.t, actor, slug, ch)
    case Some(e) => Failure(e)
    case None => Publishing(db, RoleAccessTables(db.t, slug, ch), Sorted(Keys(ch.apps)), None)
  }

  /** `level` is absent when the request's level is not a whole number between 1 and 9999; `named` tells whether slug and label are well formed. */
  datatype NewRole = NewRole(slug: Slug, named: bool, title: nat, level: Option<int>)

  predicate LevelInRange(level: int) {
    1 <= level <= 9999
  }

  const STANDARD_USER: Slug := 0

  function DefaultOrgRole(t: Tables): Slug {
    if t.defaultOrgRole.Some? then t.defaultOrgRole.value else STANDARD_USER
  }

  function CheckCreate(t: Tables, actor: Sub, r: NewRole): Option<AdminError> {
    if ActorError(t, actor).Some? then ActorError(t, actor)
    else if CreateRole !in Granted(t, actor) then Some(PermissionDenied)
    else if !r.named || r.level.None? || !LevelInRange(r.level.value) || AtMost(Finite(r.level.value), LevelOf(t, actor)) then Some(FieldError)
    else if r.slug in t.orgRoles then Some(FieldError)
    else if DefaultOrgRole(t) !in t.orgRoles then Some(SeedUnavailable)
    else None
  }

  /** `INSERT ... SELECT to, key, value WHERE slug = from`. */
  function CopyRows<K(==), V>(m: map<(Slug, K), V>, from: Slug, to: Slug): map<(Slug, K), V> {
    var copied := set k | k in m && k.0 == from :: (to, k.1);
    map k | k in m.Keys + copied :: if k in copied then m[(from, k.1)] else m[k]
  }

  lemma CopiedRow<K, V>(m: map<(Slug, K), V>, from: Slug, to: Slug, k: (Slug, K))
    ensures Lookup(CopyRows(m, from, to), k) == if k.0 == to && (from, k.1) in m then Some(m[(from, k.1)]) else Lookup(m, k)
  {
    var copied := set k | k in m && k.0 == from :: (to, k.1);
    if k.0 == to && (from, k.1) in m {
      assert (to, (from, k.1).1) in copied;
    }
  }

  /** A new org role starts with the permissions and application defaults of the default org role. */
  function Seeded(t: Tables, slug: Slug, title: nat, level: int, seed: Slug): Tables {
    t.(orgRoles := t.orgRoles[slug := OrgRole(level, false, title)],
       rolePerms := CopyRows(t.rolePerms, seed, slug), orgDefaults := CopyRows(t.orgDefaults, seed, slug))
  }

  function CreateOrgRole(db: RoleDb, actor: Sub, r: NewRole): Result<RoleDb, AdminError> {
    match CheckCreate(db.t, actor, r)
    case Some(e) => Failure(e)
    case None => Success(db.(t := Seeded(db.t, r.slug, r.title, r.level.value, DefaultOrgRole(db.t))))
  }

  /** Absent fields are not touched; `Some(None)` is a supplied value that does not parse. */
  datatype RolePatch = RolePatch(title: Option<Option<nat>>, level: Option<Option<int>>)

  function CheckPatch(t: Tables, actor: Sub, slug: Slug, patch: RolePatch): Option<AdminError> {
    var me := ResolveAuthz(t, actor);
    if ActorError(t, actor).Some? then ActorError(t, actor)
    else if OutrankError(t, actor, slug).Some? then OutrankError(t, actor, slug)
    else if patch.title.Some? && RenameRole !in me.granted then Some(PermissionDenied)
    else if patch.title.Some? && patch.title.value.None? then Some(FieldError)
    else if patch.level.Some? && MoveRole !in me.granted then Some(PermissionDenied)
    else if patch.level.Some? && (patch.level.value.None? || !LevelInRange(patch.level.value.value)
                                  || AtMost(Finite(patch.level.value.value), me.level)) then Some(FieldError)
    else if patch.title.None? && patch.level.None? then Some(NoChanges)
    else None
  }

  function Patched(r: OrgRole, patch: RolePatch): OrgRole {
    r.(title := if patch.title.Some? && patch.title.value.Some? then patch.title.value.value else r.title,
       level := if patch.level.Some? && patch.level.value.Some? then patch.level.value.value else r.level)
  }

  function PatchOrgRole(db: RoleDb, actor: Sub, slug: Slug, patch: RolePatch): Result<RoleDb, AdminError> {
    match CheckPatch(db.t, actor, slug, patch)
    case Some(e) => Failure(e)
    case None => Success(db.(t := db.t.(orgRoles := db.t.orgRoles[slug := Patched(db.t.orgRoles[slug], patch)])))
  }

  function CheckDelete(t: Tables, actor: Sub, slug: Slug): Option<AdminError> {
    if ActorError(t, actor).Some? then ActorError(t, actor)
    else if RemoveRole !in Granted(t, actor) then Some(PermissionDenied)
    else if slug !in t.orgRoles then Some(NoSuchItem)
    else if t.orgRoles[slug].isSystem then Some(SystemRole)
    else if OutrankError(t, actor, slug).Some? then OutrankError(t, actor, slug)
    else if slug in t.userOrg.Values then Some(RoleInUse)
    else if DefaultOrgRole(t) == slug then Some(RoleIsDefault)
    else None
  }

  /** Deleting a role cascades to its permissions and defaults. */
  function Without(t: Tables, slug: Slug): Tables {
    t.(orgRoles := t.orgRoles - {slug},
       rolePerms := map k | k in t.rolePerms && k.0 != slug :: t.rolePerms[k],
       orgDefaults := map k | k in t.orgDefaults && k.0 != slug :: t.orgDefaults[k])
  }

  function DeleteOrgRole(db: RoleDb, actor: Sub, slug: Slug): Result<RoleDb, AdminError> {
    match CheckDelete(db.t, actor, slug)
    case Some(e) => Failure(e)
    case None => Success(db.(t := Without(db.t, slug)))
  }

  function SetDefaultOrgRole(db: RoleDb, actor: Sub, slug: Slug): Result<RoleDb, AdminError> {
    if ActorError(db.t, actor).Some? then Failure(ActorError(db.t, actor).value)
    else if SetDefaultRole !in Granted(db.t, actor) then Failure(PermissionDenied)
    else if OutrankError(db.t, actor, slug).Some? then Failure(OutrankError(db.t, actor, slug).value)
    else Success(db.(t := db.t.(defaultOrgRole := Some(slug))))
  }

  /** `taken` tells whether the username or the address belongs to another account. */
  function CreateOrgUser(db: RoleDb, actor: Sub, sub: Sub, slug: Slug, taken: bool): Result<RoleDb, AdminError> {
    if ActorError(db.t, actor).Some? then Failure(ActorError(db.t, actor).value)
    else if CreateUser !in Granted(db.t, actor) then Failure(PermissionDenied)
    else if OutrankError(db.t, actor, slug).Some? then Failure(FieldError)
    else if taken || sub in db.t.identities then Failure(FieldError)
    else Success(db.(t := db.t.(identities := db.t.identities[sub := Identity(Active, false)], userOrg := db.t.userOrg[sub := slug])))
  }

  // ---------------------------------------------------------------- calls

  datatype Call =
    | UserAccess(target: Sub, user: UserChanges)
    | RoleAccess(slug: Slug, role: RoleChanges)
    | NewOrgRole(r: NewRole)
    | EditOrgRole(slug: Slug, patch: RolePatch)
    | DropOrgRole(slug: Slug)
    | ChooseDefault(slug: Slug)
    | NewOrgUser(sub: Sub, slug: Slug, taken: bool)

  /** The keys of a request's JSON objects are distinct. */
  predicate ValidCall(call: Call) {
    && (call.UserAccess? ==> DistinctKeys(call.user.perms) && DistinctKeys(call.user.apps))
    && (call.RoleAccess? ==> DistinctKeys(call.role.perms) && DistinctKeys(call.role.apps))
  }

  function Perform(db: RoleDb, actor: Sub, call: Call): Result<RoleDb, AdminError> {
    match call
    case UserAccess(target, ch) => ApplyUserAccess(db, actor, target, ch)
    case RoleAccess(slug, ch) => ApplyRoleAccess(db, actor, slug, ch)
    case NewOrgRole(r) => CreateOrgRole(db, actor, r)
    case EditOrgRole(slug, patch) => PatchOrgRole(db, actor, slug, patch)
    case DropOrgRole(slug) => DeleteOrgRole(db, actor, slug)
    case ChooseDefault(slug) => SetDefaultOrgRole(db, actor, slug)
    case NewOrgUser(sub, slug, taken) => CreateOrgUser(db, actor, sub, slug, taken)
  }
}
