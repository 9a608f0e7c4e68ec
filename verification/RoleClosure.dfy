// Closure of role administration: whatever one actor does, in any number of calls,
// it neither changes its own standing nor lifts anybody above it.
module RoleClosure {
  import opened Common
  import opened RoleTables
  import opened RolePublish
  import opened RoleAdmin

  // ---------------------------------------------------------------- what a call does to the tables

  function Check(t: Tables, actor: Sub, call: Call): Option<AdminError> {
    match call
    case UserAccess(target, ch) => CheckUser(t, actor, target, ch)
    case RoleAccess(slug, ch) => CheckRole(t, actor, slug, ch)
    case NewOrgRole(r) => CheckCreate(t, actor, r)
    case EditOrgRole(slug, patch) => CheckPatch(t, actor, slug, patch)
    case DropOrgRole(slug) => CheckDelete(t, actor, slug)
    case ChooseDefault(slug) =>
      if ActorError(t, actor).Some? then ActorError(t, actor)
      else if SetDefaultRole !in Granted(t, actor) then Some(PermissionDenied) else OutrankError(t, actor, slug)
    case NewOrgUser(sub, slug, taken) =>
      if ActorError(t, actor).Some? then ActorError(t, actor)
      else if CreateUser !in Granted(t, actor) then Some(PermissionDenied)
      else if OutrankError(t, actor, slug).Some? || taken || sub in t.identities then Some(FieldError) else None
  }

  function After(t: Tables, actor: Sub, call: Call): Tables
    requires Check(t, actor, call).None?
  {
    match call
    case UserAccess(target, ch) => UserTables(t, target, ch)
    case RoleAccess(slug, ch) => RoleAccessTables(t, slug, ch)
    case NewOrgRole(r) => Seeded(t, r.slug, r.title, r.level.value, DefaultOrgRole(t))
    case EditOrgRole(slug, patch) => t.(orgRoles := t.orgRoles[slug := Patched(t.orgRoles[slug], patch)])
    case DropOrgRole(slug) => Without(t, slug)
    case ChooseDefault(slug) => t.(defaultOrgRole := Some(slug))
    case NewOrgUser(sub, slug, _) => t.(identities := t.identities[sub := Identity(Active, false)], userOrg := t.userOrg[sub := slug])
  }

  lemma PerformChecksAndWrites(db: RoleDb, actor: Sub, call: Call)
    ensures Perform(db, actor, call).Success? ==> Check(db.t, actor, call).None? && Perform(db, actor, call).value.t == After(db.t, actor, call)
    ensures Check(db.t, actor, call).Some? ==> Perform(db, actor, call) == Failure(Check(db.t, actor, call).value)
  {
    match call
    case UserAccess(target, ch) =>
      PublishAllKeepsTables(db.(t := UserTables(db.t, target, ch)), UserClients(db.t, ch), Scope(Some({target}), false, {}));
    case RoleAccess(slug, ch) =>
      PublishAllKeepsTables(db.(t := RoleAccessTables(db.t, slug, ch)), Sorted(Keys(ch.apps)), Scope(None, false, {}));
    case _ =>
  }

  // ---------------------------------------------------------------- writes to a table, key by key

  lemma {:induction false} Untouched<K, V>(m: map<K, V>, writes: seq<(K, Option<V>)>, k: K)
    requires forall i :: 0 <= i < |writes| ==> writes[i].0 != k
    ensures Lookup(WriteAll(m, writes), k) == Lookup(m, k)
  {
    if writes != [] {
      Untouched(m, writes[..|writes| - 1], k);
    }
  }

  lemma {:induction false} Written<K, V>(m: map<K, V>, writes: seq<(K, Option<V>)>, i: nat)
    requires i < |writes| && forall j :: 0 <= j < |writes| && j != i ==> writes[j].0 != writes[i].0
    ensures Lookup(WriteAll(m, writes), writes[i].0) == writes[i].1
  {
    if i < |writes| - 1 {
      Written(m, writes[..|writes| - 1], i);
    }
  }

  /** Key by key, what writing an object of changes does: the named keys of the owner take their new values, no other key moves. */
  ghost predicate AppWritten(before: map<(nat, Client), Option<RoleId>>, after: map<(nat, Client), Option<RoleId>>,
                             owner: nat, changes: seq<(Client, AppChange)>, k: (nat, Client)) {
    && (k.0 != owner || !Mentions(changes, k.1) ==> Lookup(after, k) == Lookup(before, k))
    && (k.0 == owner ==> forall i :: 0 <= i < |changes| && changes[i].0 == k.1 ==>
          Lookup(after, k) == if changes[i].1.Assign? then Some(changes[i].1.role) else None)
  }

  predicate MentionsPerm(changes: seq<(Perm, PermChange)>, p: Perm) {
    exists i :: 0 <= i < |changes| && changes[i].0 == p
  }

  ghost predicate PermWritten(before: map<(nat, Perm), Effect>, after: map<(nat, Perm), Effect>,
                              owner: nat, changes: seq<(Perm, PermChange)>, k: (nat, Perm)) {
    && (k.0 != owner || !MentionsPerm(changes, k.1) ==> Lookup(after, k) == Lookup(before, k))
    && (k.0 == owner ==> forall i :: 0 <= i < |changes| && changes[i].0 == k.1 ==>
          Lookup(after, k) == if changes[i].1.SetEffect? then Some(changes[i].1.effect) else None)
  }

  lemma AppsAreWritten(m: map<(nat, Client), Option<RoleId>>, owner: nat, changes: seq<(Client, AppChange)>, k: (nat, Client))
    requires DistinctKeys(changes)
    ensures AppWritten(m, WriteAll(m, AppWrites(owner, changes)), owner, changes, k)
  {
    var writes := AppWrites(owner, changes);
    if k.0 == owner && Mentions(changes, k.1) {
      var i :| 0 <= i < |changes| && changes[i].0 == k.1;
      Written(m, writes, i);
    } else {
      Untouched(m, writes, k);
    }
  }

  lemma PermsAreWritten(m: map<(nat, Perm), Effect>, owner: nat, changes: seq<(Perm, PermChange)>, k: (nat, Perm))
    requires DistinctKeys(changes)
    ensures PermWritten(m, WriteAll(m, PermWrites(owner, changes)), owner, changes, k)
  {
    var writes := PermWrites(owner, changes);
    if k.0 == owner && MentionsPerm(changes, k.1) {
      var i :| 0 <= i < |changes| && changes[i].0 == k.1;
      Written(m, writes, i);
    } else {
      Untouched(m, writes, k);
    }
  }

  /** The tables after an accepted user change. */
  ghost predicate UserWritten(t: Tables, u: Tables, target: Sub, ch: UserChanges) {
    && u.identities == t.identities && u.orgRoles == t.orgRoles && u.permissions == t.permissions && u.rolePerms == t.rolePerms
    && u.orgDefaults == t.orgDefaults && u.catalogs == t.catalogs && u.appRoles == t.appRoles
    && u.clients == t.clients && u.defaultOrgRole == t.defaultOrgRole
    && u.userOrg == (if ch.orgRole.Some? then t.userOrg[target := ch.orgRole.value] else t.userOrg)
    && (forall k: (nat, Client) :: AppWritten(t.overrides, u.overrides, target, ch.apps, k))
    && (forall k: (nat, Perm) :: PermWritten(t.userPerms, u.userPerms, target, ch.perms, k))
  }

  lemma UserIsWritten(t: Tables, target: Sub, ch: UserChanges)
    requires DistinctKeys(ch.perms) && DistinctKeys(ch.apps)
    ensures UserWritten(t, UserTables(t, target, ch), target, ch)
  {
    var u := UserTables(t, target, ch);
    forall k: (nat, Client) ensures AppWritten(t.overrides, u.overrides, target, ch.apps, k) {
      AppsAreWritten(t.overrides, target, ch.apps, k);
    }
    forall k: (nat, Perm) ensures PermWritten(t.userPerms, u.userPerms, target, ch.perms, k) {
      PermsAreWritten(t.userPerms, target, ch.perms, k);
    }
  }

  /** The tables after an accepted change of an org role. */
  ghost predicate RoleWritten(t: Tables, u: Tables, slug: Slug, ch: RoleChanges) {
    && u.identities == t.identities && u.orgRoles == t.orgRoles && u.permissions == t.permissions && u.userOrg == t.userOrg
    && u.userPerms == t.userPerms && u.overrides == t.overrides && u.catalogs == t.catalogs && u.appRoles == t.appRoles
    && u.clients == t.clients && u.defaultOrgRole == t.defaultOrgRole
    && (forall k: (nat, Client) :: AppWritten(t.orgDefaults, u.orgDefaults, slug, ch.apps, k))
    && (forall k: (nat, Perm) :: PermWritten(t.rolePerms, u.rolePerms, slug, ch.perms, k))
  }

  lemma RoleIsWritten(t: Tables, slug: Slug, ch: RoleChanges)
    requires DistinctKeys(ch.perms) && DistinctKeys(ch.apps)
    ensures RoleWritten(t, RoleAccessTables(t, slug, ch), slug, ch)
  {
    var u := RoleAccessTables(t, slug, ch);
    forall k: (nat, Client) ensures AppWritten(t.orgDefaults, u.orgDefaults, slug, ch.apps, k) {
      AppsAreWritten(t.orgDefaults, slug, ch.apps, k);
    }
    forall k: (nat, Perm) ensures PermWritten(t.rolePerms, u.rolePerms, slug, ch.perms, k) {
      PermsAreWritten(t.rolePerms, slug, ch.perms, k);
    }
  }

  lemma {:induction false} PermErrorsNone(t: Tables, granted: set<Perm>, changes: seq<(Perm, PermChange)>, inheritable: bool, i: nat)
    requires PermErrors(t, granted, changes, inheritable).None? && i < |changes|
    ensures PermError(t, granted, changes[i], inheritable).None?
  {
    if i > 0 {
      PermErrorsNone(t, granted, changes[1..], inheritable, i - 1);
    }
  }

  lemma {:induction false} UserAppErrorsNone(t: Tables, actor: Sub, target: Sub, slug: Option<Slug>, changes: seq<(Client, AppChange)>, i: nat)
    requires UserAppErrors(t, actor, target, slug, changes).None? && i < |changes|
    ensures UserAppError(t, actor, target, slug, changes[i]).None?
  {
    if i > 0 {
      UserAppErrorsNone(t, actor, target, slug, changes[1..], i - 1);
    }
  }

  lemma {:induction false} RoleAppErrorsNone(t: Tables, actor: Sub, slug: Slug, changes: seq<(Client, AppChange)>, i: nat)
    requires RoleAppErrors(t, actor, slug, changes).None? && i < |changes|
    ensures RoleAppError(t, actor, slug, changes[i]).None?
  {
    if i > 0 {
      RoleAppErrorsNone(t, actor, slug, changes[1..], i - 1);
    }
  }

  // ---------------------------------------------------------------- foreign keys

  /** What the schema's references guarantee: memberships, defaults and overrides name existing rows of managed clients. */
  ghost predicate ForeignKeys(t: Tables) {
    && (forall s :: s in t.userOrg ==> s in t.identities && t.userOrg[s] in t.orgRoles)
    && (forall k :: k in t.overrides ==> k.0 in t.identities && k.1 in t.catalogs)
    && (forall k :: k in t.orgDefaults ==> k.0 in t.orgRoles && k.1 in t.catalogs)
    && (forall k :: k in t.rolePerms ==> k.0 in t.orgRoles)
    && (forall k :: k in t.userPerms ==> k.0 in t.identities)
  }

  // ---------------------------------------------------------------- closure

  /** The actor's own standing. */
  ghost predicate ActorKept(t: Tables, u: Tables, a: Sub) {
    && Lookup(u.userOrg, a) == Lookup(t.userOrg, a)
    && LevelOf(u, a) == LevelOf(t, a)
    && Granted(u, a) == Granted(t, a)
    && forall c: Client :: EffectiveAppRole(u, a, c) == EffectiveAppRole(t, a, c)
  }

  /** A changed application role is no more privileged than the actor's. */
  predicate AppRoleKept(t: Tables, u: Tables, a: Sub, s: Sub, c: Client) {
    || EffectiveAppRole(u, s, c).role == EffectiveAppRole(t, s, c).role
    || !MorePrivileged(AppLevel(u, c, s), AppLevel(t, c, a))
  }

  /** A changed org level is strictly below the actor's. */
  predicate LevelKept(t: Tables, u: Tables, a: Sub, s: Sub) {
    LevelOf(u, s) == LevelOf(t, s) || MorePrivileged(LevelOf(t, a), LevelOf(u, s))
  }

  ghost predicate Closed(t: Tables, u: Tables, a: Sub) {
    && ActorKept(t, u, a)
    && u.catalogs == t.catalogs && u.appRoles == t.appRoles && t.identities.Keys <= u.identities.Keys
    && (forall s: Sub, c: Client :: s in t.identities ==> AppRoleKept(t, u, a, s, c))
    && (forall s: Sub :: s in t.identities ==> LevelKept(t, u, a, s))
  }

  /** Everything that resolution and authorization read of one user, except levels. */
  ghost predicate SameInputs(t: Tables, u: Tables, s: Sub) {
    && u.permissions == t.permissions && u.catalogs == t.catalogs && Lookup(u.userOrg, s) == Lookup(t.userOrg, s)
    && (forall p: Perm :: Lookup(u.userPerms, (s, p)) == Lookup(t.userPerms, (s, p)))
    && (forall c: Client :: Lookup(u.overrides, (s, c)) == Lookup(t.overrides, (s, c)))
    && (s in t.userOrg ==> SameRoleInputs(t, u, t.userOrg[s]))
  }

  ghost predicate SameRoleInputs(t: Tables, u: Tables, slug: Slug) {
    && (forall p: Perm :: Lookup(u.rolePerms, (slug, p)) == Lookup(t.rolePerms, (slug, p)))
    && (forall c: Client :: Lookup(u.orgDefaults, (slug, c)) == Lookup(t.orgDefaults, (slug, c)))
  }

  lemma SameInputsSameRole(t: Tables, u: Tables, s: Sub, c: Client)
    requires SameInputs(t, u, s)
    ensures EffectiveAppRole(u, s, c) == EffectiveAppRole(t, s, c)
  {
    assert Lookup(u.overrides, (s, c)) == Lookup(t.overrides, (s, c));
    if s in t.userOrg {
      assert Lookup(u.orgDefaults, (t.userOrg[s], c)) == Lookup(t.orgDefaults, (t.userOrg[s], c));
    }
  }

  lemma SameInputsSameEffect(t: Tables, u: Tables, s: Sub, p: Perm)
    requires SameInputs(t, u, s)
    ensures EffectOf(u, s, p) == EffectOf(t, s, p)
  {
    assert Lookup(u.userPerms, (s, p)) == Lookup(t.userPerms, (s, p));
    if s in t.userOrg {
      assert Lookup(u.rolePerms, (t.userOrg[s], p)) == Lookup(t.rolePerms, (t.userOrg[s], p));
    }
  }

  lemma SameInputsSameStanding(t: Tables, u: Tables, s: Sub)
    requires SameInputs(t, u, s)
    ensures Granted(u, s) == Granted(t, s)
    ensures forall c: Client :: EffectiveAppRole(u, s, c) == EffectiveAppRole(t, s, c)
  {
    forall p: Perm ensures EffectOf(u, s, p) == EffectOf(t, s, p) {
      SameInputsSameEffect(t, u, s, p);
    }
    forall c: Client ensures EffectiveAppRole(u, s, c) == EffectiveAppRole(t, s, c) {
      SameInputsSameRole(t, u, s, c);
    }
  }

  /** What an accepted call must show of every existing user, and of the actor. */
  lemma ClosedFromInputs(t: Tables, u: Tables, actor: Sub)
    requires SameInputs(t, u, actor) && LevelOf(u, actor) == LevelOf(t, actor)
    requires u.catalogs == t.catalogs && u.appRoles == t.appRoles && t.identities.Keys <= u.identities.Keys
    requires forall s: Sub, c: Client :: s in t.identities ==> SameInputs(t, u, s) || AppRoleKept(t, u, actor, s, c)
    requires forall s: Sub :: s in t.identities ==> LevelKept(t, u, actor, s)
    ensures Closed(t, u, actor)
  {
    SameInputsSameStanding(t, u, actor);
    forall s: Sub, c: Client | s in t.identities ensures AppRoleKept(t, u, actor, s, c) {
      if SameInputs(t, u, s) {
        SameInputsSameRole(t, u, s, c);
      }
    }
  }

  /** Without an override a user of a managed client gets the default of the org role. */
  lemma InheritedRole(t: Tables, s: Sub, c: Client)
    ensures (s, c) !in t.overrides && c in t.catalogs ==> EffectiveAppRole(t, s, c).role == OrgDefault(t, Lookup(t.userOrg, s), c)
  {
  }

  // ---------------------------------------------------------------- changing a user

  /** Nobody but the target is affected. */
  lemma UserAccessLocal(t: Tables, u: Tables, target: Sub, ch: UserChanges, s: Sub)
    requires UserWritten(t, u, target, ch) && s != target
    ensures SameInputs(t, u, s) && LevelOf(u, s) == LevelOf(t, s)
  {
    forall p: Perm ensures Lookup(u.userPerms, (s, p)) == Lookup(t.userPerms, (s, p)) {
      assert PermWritten(t.userPerms, u.userPerms, target, ch.perms, (s, p));
    }
    forall c: Client ensures Lookup(u.overrides, (s, c)) == Lookup(t.overrides, (s, c)) {
      assert AppWritten(t.overrides, u.overrides, target, ch.apps, (s, c));
    }
  }

  function NewSlug(t: Tables, target: Sub, ch: UserChanges): Option<Slug> {
    if ch.orgRole.Some? then ch.orgRole else Lookup(t.userOrg, target)
  }

  /** The target's role in a client the request names. */
  lemma NamedRole(t: Tables, u: Tables, target: Sub, ch: UserChanges, i: nat)
    requires UserWritten(t, u, target, ch) && i < |ch.apps| && ch.apps[i].0 in t.catalogs && !ch.apps[i].1.BadValue?
    ensures EffectiveAppRole(u, target, ch.apps[i].0).role ==
              if ch.apps[i].1.Assign? then ch.apps[i].1.role else OrgDefault(t, NewSlug(t, target, ch), ch.apps[i].0)
  {
    var c := ch.apps[i].0;
    assert AppWritten(t.overrides, u.overrides, target, ch.apps, (target, c));
    InheritedRole(u, target, c);
  }

  /** The target's role in a client the request does not name. */
  lemma UnnamedRole(t: Tables, u: Tables, target: Sub, ch: UserChanges, c: Client)
    requires UserWritten(t, u, target, ch) && !Mentions(ch.apps, c) && c in t.catalogs
    ensures var r := EffectiveAppRole(u, target, c).role;
            || r == EffectiveAppRole(t, target, c).role
            || ((target, c) !in t.overrides && ch.orgRole.Some? && r == OrgDefault(t, NewSlug(t, target, ch), c))
  {
    assert AppWritten(t.overrides, u.overrides, target, ch.apps, (target, c));
    InheritedRole(u, target, c);
  }

  /** Nobody has a role in a client that reports no catalog. */
  lemma UnmanagedRole(t: Tables, u: Tables, target: Sub, ch: UserChanges, c: Client)
    requires ForeignKeys(t) && UserWritten(t, u, target, ch) && c !in t.catalogs && !Mentions(ch.apps, c)
    ensures EffectiveAppRole(u, target, c).role.None?
  {
    assert AppWritten(t.overrides, u.overrides, target, ch.apps, (target, c));
    assert (target, c) !in t.overrides && forall slug: Slug :: (slug, c) !in t.orgDefaults;
  }

  lemma AcceptedApp(t: Tables, actor: Sub, target: Sub, ch: UserChanges, i: nat)
    requires CheckUser(t, actor, target, ch).None? && i < |ch.apps|
    ensures UserAppError(t, actor, target, NewSlug(t, target, ch), ch.apps[i]).None?
  {
    UserAppErrorsNone(t, actor, target, NewSlug(t, target, ch), ch.apps, i);
  }

  lemma AcceptedMove(t: Tables, actor: Sub, target: Sub, ch: UserChanges, c: Client)
    requires CheckUser(t, actor, target, ch).None? && ch.orgRole.Some? && c in t.catalogs
    ensures MoveAllowed(t, actor, target, NewSlug(t, target, ch), ch.apps, c)
  {
  }

  lemma UserAccessTarget(t: Tables, u: Tables, actor: Sub, target: Sub, ch: UserChanges, c: Client)
    requires ForeignKeys(t) && UserWritten(t, u, target, ch) && CheckUser(t, actor, target, ch).None?
    ensures AppRoleKept(t, u, actor, target, c)
  {
    if Mentions(ch.apps, c) {
      NamedRoleKept(t, u, actor, target, ch, c);
    } else if c in t.catalogs {
      UnnamedRole(t, u, target, ch, c);
      if ch.orgRole.Some? {
        AcceptedMove(t, actor, target, ch, c);
      }
    } else {
      UnmanagedRole(t, u, target, ch, c);
    }
  }

  lemma NamedRoleKept(t: Tables, u: Tables, actor: Sub, target: Sub, ch: UserChanges, c: Client)
    requires UserWritten(t, u, target, ch) && CheckUser(t, actor, target, ch).None? && Mentions(ch.apps, c)
    ensures AppRoleKept(t, u, actor, target, c)
  {
    var i :| 0 <= i < |ch.apps| && ch.apps[i].0 == c;
    AcceptedApp(t, actor, target, ch, i);
    NamedRole(t, u, target, ch, i);
  }

  lemma TargetLevel(t: Tables, u: Tables, actor: Sub, target: Sub, ch: UserChanges)
    requires UserWritten(t, u, target, ch) && CheckUser(t, actor, target, ch).None?
    ensures target != actor && LevelKept(t, u, actor, target)
  {
  }

  lemma UserAccessCloses(t: Tables, u: Tables, actor: Sub, target: Sub, ch: UserChanges)
    requires ForeignKeys(t) && UserWritten(t, u, target, ch) && CheckUser(t, actor, target, ch).None?
    ensures Closed(t, u, actor)
  {
    TargetLevel(t, u, actor, target, ch);
    UserAccessLocal(t, u, target, ch, actor);
    forall s: Sub, c: Client | s in t.identities ensures SameInputs(t, u, s) || AppRoleKept(t, u, actor, s, c) {
      if s == target { UserAccessTarget(t, u, actor, target, ch, c); } else { UserAccessLocal(t, u, target, ch, s); }
    }
    forall s: Sub | s in t.identities ensures LevelKept(t, u, actor, s) {
      if s != target { UserAccessLocal(t, u, target, ch, s); }
    }
    ClosedFromInputs(t, u, actor);
  }

  // ---------------------------------------------------------------- changing an org role

  lemma RoleAccessOutside(t: Tables, u: Tables, slug: Slug, ch: RoleChanges, s: Sub)
    requires RoleWritten(t, u, slug, ch) && Lookup(t.userOrg, s) != Some(slug)
    ensures SameInputs(t, u, s)
  {
    if s in t.userOrg {
      var r := t.userOrg[s];
      forall p: Perm ensures Lookup(u.rolePerms, (r, p)) == Lookup(t.rolePerms, (r, p)) {
        assert PermWritten(t.rolePerms, u.rolePerms, slug, ch.perms, (r, p));
      }
      forall c: Client ensures Lookup(u.orgDefaults, (r, c)) == Lookup(t.orgDefaults, (r, c)) {
        assert AppWritten(t.orgDefaults, u.orgDefaults, slug, ch.apps, (r, c));
      }
    }
  }

  lemma AcceptedDefault(t: Tables, actor: Sub, slug: Slug, ch: RoleChanges, i: nat)
    requires CheckRole(t, actor, slug, ch).None? && i < |ch.apps|
    ensures RoleAppError(t, actor, slug, ch.apps[i]).None?
  {
    RoleAppErrorsNone(t, actor, slug, ch.apps, i);
  }

  lemma RoleAccessMember(t: Tables, u: Tables, actor: Sub, slug: Slug, ch: RoleChanges, s: Sub, c: Client)
    requires RoleWritten(t, u, slug, ch) && CheckRole(t, actor, slug, ch).None? && Lookup(t.userOrg, s) == Some(slug)
    ensures AppRoleKept(t, u, actor, s, c)
  {
    assert AppWritten(t.orgDefaults, u.orgDefaults, slug, ch.apps, (slug, c));
    if Mentions(ch.apps, c) && (s, c) !in t.overrides {
      var i :| 0 <= i < |ch.apps| && ch.apps[i].0 == c;
      AcceptedDefault(t, actor, slug, ch, i);
      InheritedRole(u, s, c);
    }
  }

  lemma RoleAccessCloses(t: Tables, u: Tables, actor: Sub, slug: Slug, ch: RoleChanges)
    requires RoleWritten(t, u, slug, ch) && CheckRole(t, actor, slug, ch).None?
    ensures Closed(t, u, actor)
  {
    assert Lookup(t.userOrg, actor) != Some(slug);
    RoleAccessOutside(t, u, slug, ch, actor);
    forall s: Sub, c: Client | s in t.identities ensures SameInputs(t, u, s) || AppRoleKept(t, u, actor, s, c) {
      if Lookup(t.userOrg, s) == Some(slug) { RoleAccessMember(t, u, actor, slug, ch, s, c); } else { RoleAccessOutside(t, u, slug, ch, s); }
    }
    ClosedFromInputs(t, u, actor);
  }

  // ---------------------------------------------------------------- creating, editing and deleting

  /** Only rows of one org role differ. */
  ghost predicate RoleEdited(t: Tables, u: Tables, slug: Slug) {
    && u.identities == t.identities && u.permissions == t.permissions && u.userOrg == t.userOrg
    && u.userPerms == t.userPerms && u.overrides == t.overrides && u.catalogs == t.catalogs && u.appRoles == t.appRoles
    && forall r: Slug :: r != slug ==> Lookup(u.orgRoles, r) == Lookup(t.orgRoles, r) && SameRoleInputs(t, u, r)
  }

  lemma SeedEditsOne(t: Tables, r: NewRole, seed: Slug)
    requires r.level.Some?
    ensures RoleEdited(t, Seeded(t, r.slug, r.title, r.level.value, seed), r.slug)
  {
    forall slug: Slug, p: Perm ensures slug != r.slug ==> Lookup(CopyRows(t.rolePerms, seed, r.slug), (slug, p)) == Lookup(t.rolePerms, (slug, p)) {
      CopiedRow(t.rolePerms, seed, r.slug, (slug, p));
    }
    forall slug: Slug, c: Client ensures slug != r.slug ==> Lookup(CopyRows(t.orgDefaults, seed, r.slug), (slug, c)) == Lookup(t.orgDefaults, (slug, c)) {
      CopiedRow(t.orgDefaults, seed, r.slug, (slug, c));
    }
  }

  lemma DropEditsOne(t: Tables, slug: Slug)
    ensures RoleEdited(t, Without(t, slug), slug)
  {
  }

  lemma NobodyHolds(t: Tables, slug: Slug)
    requires slug !in t.userOrg.Values
    ensures forall s :: s in t.userOrg ==> t.userOrg[s] != slug
  {
    forall s | s in t.userOrg ensures t.userOrg[s] != slug {
      assert t.userOrg[s] in t.userOrg.Values;
    }
  }

  lemma EmptyRoleLocal(t: Tables, u: Tables, slug: Slug, s: Sub)
    requires RoleEdited(t, u, slug) && Lookup(t.userOrg, s) != Some(slug)
    ensures SameInputs(t, u, s) && LevelOf(u, s) == LevelOf(t, s)
  {
    if s in t.userOrg {
      assert Lookup(u.orgRoles, t.userOrg[s]) == Lookup(t.orgRoles, t.userOrg[s]);
    }
  }

  /** A change to a role that nobody holds affects nobody. */
  lemma EmptyRoleCloses(t: Tables, u: Tables, actor: Sub, slug: Slug)
    requires RoleEdited(t, u, slug) && forall s :: s in t.userOrg ==> t.userOrg[s] != slug
    ensures Closed(t, u, actor)
  {
    forall s: Sub ensures SameInputs(t, u, s) && LevelOf(u, s) == LevelOf(t, s) {
      EmptyRoleLocal(t, u, slug, s);
    }
    ClosedFromInputs(t, u, actor);
  }

  lemma LevelEditCloses(t: Tables, actor: Sub, slug: Slug, patch: RolePatch)
    requires CheckPatch(t, actor, slug, patch).None?
    ensures Closed(t, After(t, actor, EditOrgRole(slug, patch)), actor)
  {
    var u := After(t, actor, EditOrgRole(slug, patch));
    forall s: Sub ensures SameInputs(t, u, s) {}
    ClosedFromInputs(t, u, actor);
  }

  lemma DefaultChoiceCloses(t: Tables, actor: Sub, slug: Slug)
    requires Check(t, actor, ChooseDefault(slug)).None?
    ensures Closed(t, After(t, actor, ChooseDefault(slug)), actor)
  {
    var u := After(t, actor, ChooseDefault(slug));
    forall s: Sub ensures SameInputs(t, u, s) {}
    ClosedFromInputs(t, u, actor);
  }

  lemma NewUserCloses(t: Tables, actor: Sub, sub: Sub, slug: Slug, taken: bool)
    requires ForeignKeys(t) && Check(t, actor, NewOrgUser(sub, slug, taken)).None?
    ensures Closed(t, After(t, actor, NewOrgUser(sub, slug, taken)), actor)
  {
    var u := After(t, actor, NewOrgUser(sub, slug, taken));
    forall s: Sub | s in t.identities ensures SameInputs(t, u, s) {}
    ClosedFromInputs(t, u, actor);
  }

  /** Every accepted call is closed. */
  lemma CallCloses(t: Tables, actor: Sub, call: Call)
    requires ForeignKeys(t) && ValidCall(call) && Check(t, actor, call).None?
    ensures Closed(t, After(t, actor, call), actor)
  {
    match call
    case UserAccess(target, ch) =>
      UserIsWritten(t, target, ch);
      UserAccessCloses(t, UserTables(t, target, ch), actor, target, ch);
    case RoleAccess(slug, ch) =>
      RoleIsWritten(t, slug, ch);
      RoleAccessCloses(t, RoleAccessTables(t, slug, ch), actor, slug, ch);
    case NewOrgRole(r) =>
      SeedEditsOne(t, r, DefaultOrgRole(t));
      EmptyRoleCloses(t, Seeded(t, r.slug, r.title, r.level.value, DefaultOrgRole(t)), actor, r.slug);
    case EditOrgRole(slug, patch) => LevelEditCloses(t, actor, slug, patch);
    case DropOrgRole(slug) =>
      DropEditsOne(t, slug);
      NobodyHolds(t, slug);
      EmptyRoleCloses(t, Without(t, slug), actor, slug);
    case ChooseDefault(slug) => DefaultChoiceCloses(t, actor, slug);
    case NewOrgUser(sub, slug, taken) => NewUserCloses(t, actor, sub, slug, taken);
  }

  // ---------------------------------------------------------------- foreign keys hold in every state

  lemma UserAccessKeys(t: Tables, u: Tables, actor: Sub, target: Sub, ch: UserChanges)
    requires ForeignKeys(t) && UserWritten(t, u, target, ch) && CheckUser(t, actor, target, ch).None?
    ensures ForeignKeys(u)
  {
    forall k | k in u.overrides ensures k.0 in u.identities && k.1 in u.catalogs {
      assert AppWritten(t.overrides, u.overrides, target, ch.apps, k);
      if k.0 == target && Mentions(ch.apps, k.1) {
        var i :| 0 <= i < |ch.apps| && ch.apps[i].0 == k.1;
        AcceptedApp(t, actor, target, ch, i);
      }
    }
    forall k | k in u.userPerms ensures k.0 in u.identities {
      assert PermWritten(t.userPerms, u.userPerms, target, ch.perms, k);
    }
  }

  lemma RoleAccessKeys(t: Tables, u: Tables, actor: Sub, slug: Slug, ch: RoleChanges)
    requires ForeignKeys(t) && RoleWritten(t, u, slug, ch) && CheckRole(t, actor, slug, ch).None?
    ensures ForeignKeys(u)
  {
    forall k | k in u.orgDefaults ensures k.0 in u.orgRoles && k.1 in u.catalogs {
      assert AppWritten(t.orgDefaults, u.orgDefaults, slug, ch.apps, k);
      if k.0 == slug && Mentions(ch.apps, k.1) {
        var i :| 0 <= i < |ch.apps| && ch.apps[i].0 == k.1;
        AcceptedDefault(t, actor, slug, ch, i);
      }
    }
    forall k | k in u.rolePerms ensures k.0 in u.orgRoles {
      assert PermWritten(t.rolePerms, u.rolePerms, slug, ch.perms, k);
    }
  }

  lemma DropRoleKeys(t: Tables, actor: Sub, slug: Slug)
    requires ForeignKeys(t) && CheckDelete(t, actor, slug).None?
    ensures ForeignKeys(Without(t, slug))
  {
    var u := Without(t, slug);
    forall s | s in u.userOrg ensures s in u.identities && u.userOrg[s] in u.orgRoles {
      assert t.userOrg[s] in t.userOrg.Values;
    }
  }

  lemma SeedKeys(t: Tables, actor: Sub, r: NewRole)
    requires ForeignKeys(t) && CheckCreate(t, actor, r).None?
    ensures ForeignKeys(After(t, actor, NewOrgRole(r)))
  {
    var u := After(t, actor, NewOrgRole(r));
    forall k | k in u.orgDefaults ensures k.0 in u.orgRoles && k.1 in u.catalogs {
      CopiedRow(t.orgDefaults, DefaultOrgRole(t), r.slug, k);
    }
    forall k | k in u.rolePerms ensures k.0 in u.orgRoles {
      CopiedRow(t.rolePerms, DefaultOrgRole(t), r.slug, k);
    }
  }

  lemma CallKeepsKeys(t: Tables, actor: Sub, call: Call)
    requires ForeignKeys(t) && ValidCall(call) && Check(t, actor, call).None?
    ensures ForeignKeys(After(t, actor, call))
  {
    match call
    case UserAccess(target, ch) =>
      UserIsWritten(t, target, ch);
      UserAccessKeys(t, UserTables(t, target, ch), actor, target, ch);
    case RoleAccess(slug, ch) =>
      RoleIsWritten(t, slug, ch);
      RoleAccessKeys(t, RoleAccessTables(t, slug, ch), actor, slug, ch);
    case NewOrgRole(r) => SeedKeys(t, actor, r);
    case DropOrgRole(slug) => DropRoleKeys(t, actor, slug);
    case _ =>
  }

  // ---------------------------------------------------------------- permissions

  /** Permissions move only by the hand of one who holds them, or by a move to another org role. */
  ghost predicate PermissionKept(t: Tables, u: Tables, actor: Sub, call: Call, s: Sub, p: Perm) {
    || EffectOf(u, s, p) == EffectOf(t, s, p)
    || p == DisableMfa || p in Granted(t, actor)
    || (call.UserAccess? && s == call.target && call.user.orgRole.Some?
        && EffectOf(u, s, p) == EffectOf(t.(userOrg := t.userOrg[s := call.user.orgRole.value]), s, p))
  }

  lemma UserPermissionKept(t: Tables, u: Tables, actor: Sub, target: Sub, ch: UserChanges, p: Perm)
    requires UserWritten(t, u, target, ch) && CheckUser(t, actor, target, ch).None?
    ensures PermissionKept(t, u, actor, UserAccess(target, ch), target, p)
  {
    assert PermWritten(t.userPerms, u.userPerms, target, ch.perms, (target, p));
    if MentionsPerm(ch.perms, p) {
      var i :| 0 <= i < |ch.perms| && ch.perms[i].0 == p;
      PermErrorsNone(t, ResolveAuthz(t, actor).granted, ch.perms, true, i);
    }
  }

  lemma RolePermissionKept(t: Tables, u: Tables, actor: Sub, slug: Slug, ch: RoleChanges, s: Sub, p: Perm)
    requires RoleWritten(t, u, slug, ch) && CheckRole(t, actor, slug, ch).None?
    ensures PermissionKept(t, u, actor, RoleAccess(slug, ch), s, p)
  {
    if Lookup(t.userOrg, s) == Some(slug) {
      assert PermWritten(t.rolePerms, u.rolePerms, slug, ch.perms, (slug, p));
      if MentionsPerm(ch.perms, p) {
        var i :| 0 <= i < |ch.perms| && ch.perms[i].0 == p;
        PermErrorsNone(t, ResolveAuthz(t, actor).granted, ch.perms, false, i);
      }
    } else {
      RoleAccessOutside(t, u, slug, ch, s);
      SameInputsSameEffect(t, u, s, p);
    }
  }

  lemma CallKeepsPermissions(t: Tables, actor: Sub, call: Call, s: Sub, p: Perm)
    requires ForeignKeys(t) && ValidCall(call) && Check(t, actor, call).None? && s in t.identities
    ensures PermissionKept(t, After(t, actor, call), actor, call, s, p)
  {
    var u := After(t, actor, call);
    match call
    case UserAccess(target, ch) =>
      UserIsWritten(t, target, ch);
      if s == target {
        UserPermissionKept(t, u, actor, target, ch, p);
      } else {
        UserAccessLocal(t, u, target, ch, s);
        SameInputsSameEffect(t, u, s, p);
      }
    case RoleAccess(slug, ch) =>
      RoleIsWritten(t, slug, ch);
      RolePermissionKept(t, u, actor, slug, ch, s, p);
    case NewOrgRole(r) =>
      assert s in t.userOrg ==> t.userOrg[s] in t.orgRoles;
      SeedEditsOne(t, r, DefaultOrgRole(t));
      EmptyRoleLocal(t, u, r.slug, s);
      SameInputsSameEffect(t, u, s, p);
    case DropOrgRole(slug) =>
      NobodyHolds(t, slug);
      DropEditsOne(t, slug);
      EmptyRoleLocal(t, u, slug, s);
      SameInputsSameEffect(t, u, s, p);
    case _ =>
      assert SameInputs(t, u, s);
      SameInputsSameEffect(t, u, s, p);
  }

  // ---------------------------------------------------------------- authority

  /** What each request asks for, by name. */
  function Needed(call: Call): set<Perm> {
    match call
    case UserAccess(_, ch) =>
      (if ch.orgRole.Some? || ch.perms != [] then {EditUserPermissions} else {}) + (if ch.apps != [] then {EditUserApps} else {})
    case RoleAccess(_, ch) => (if ch.perms != [] then {EditRolePermissions} else {}) + (if ch.apps != [] then {EditRoleApps} else {})
    case NewOrgRole(_) => {CreateRole}
    case EditOrgRole(_, patch) => (if patch.title.Some? then {RenameRole} else {}) + (if patch.level.Some? then {MoveRole} else {})
    case DropOrgRole(_) => {RemoveRole}
    case ChooseDefault(_) => {SetDefaultRole}
    case NewOrgUser(_, _, _) => {CreateUser}
  }

  /** The levels that a request touches or hands out. */
  function Touched(t: Tables, call: Call): set<Rank> {
    match call
    case UserAccess(target, ch) =>
      {LevelOf(t, target)} + (if ch.orgRole.Some? && ch.orgRole.value in t.orgRoles then {Finite(t.orgRoles[ch.orgRole.value].level)} else {})
    case RoleAccess(slug, _) => RoleRank(t, slug)
    case NewOrgRole(r) => if r.level.Some? then {Finite(r.level.value)} else {}
    case EditOrgRole(slug, patch) =>
      RoleRank(t, slug) + (if patch.level.Some? && patch.level.value.Some? then {Finite(patch.level.value.value)} else {})
    case DropOrgRole(slug) => RoleRank(t, slug)
    case ChooseDefault(slug) => RoleRank(t, slug)
    case NewOrgUser(_, slug, _) => RoleRank(t, slug)
  }

  function RoleRank(t: Tables, slug: Slug): set<Rank> {
    if slug in t.orgRoles then {Finite(t.orgRoles[slug].level)} else {}
  }

  /** Whoever gets a call accepted is active, holds what it needs, and outranks everything it touches or hands out. */
  lemma AcceptedCallsAreAuthorized(t: Tables, actor: Sub, call: Call)
    requires Check(t, actor, call).None?
    ensures actor in t.identities && t.identities[actor] == Identity(Active, false)
    ensures Needed(call) <= Granted(t, actor)
    ensures forall level :: level in Touched(t, call) ==> MorePrivileged(LevelOf(t, actor), level)
  {
  }

  // ---------------------------------------------------------------- whole runs

  lemma ClosedTransitive(t: Tables, u: Tables, w: Tables, a: Sub)
    requires Closed(t, u, a) && Closed(u, w, a)
    ensures Closed(t, w, a)
  {
    forall s: Sub, c: Client | s in t.identities ensures AppRoleKept(t, w, a, s, c) {
      assert AppRoleKept(t, u, a, s, c) && AppRoleKept(u, w, a, s, c);
      assert EffectiveAppRole(u, a, c) == EffectiveAppRole(t, a, c);
    }
    forall s: Sub | s in t.identities ensures LevelKept(t, w, a, s) {
      assert LevelKept(t, u, a, s) && LevelKept(u, w, a, s);
    }
  }

  /** Calls by one actor, each its own transaction: a rejected one leaves no trace. */
  function PerformAll(db: RoleDb, actor: Sub, calls: seq<Call>): RoleDb {
    if calls == [] then db else
    var before := PerformAll(db, actor, calls[..|calls| - 1]);
    var r := Perform(before, actor, calls[|calls| - 1]);
    if r.Success? then r.value else before
  }

  /** No sequence of calls by one actor changes its own standing or lifts an existing user above it. */
  lemma {:induction false} SingleActorClosure(db: RoleDb, actor: Sub, calls: seq<Call>)
    requires ForeignKeys(db.t) && forall call :: call in calls ==> ValidCall(call)
    ensures Closed(db.t, PerformAll(db, actor, calls).t, actor) && ForeignKeys(PerformAll(db, actor, calls).t)
  {
    if calls != [] {
      var init, call := calls[..|calls| - 1], calls[|calls| - 1];
      SingleActorClosure(db, actor, init);
      var before := PerformAll(db, actor, init);
      PerformChecksAndWrites(before, actor, call);
      if Perform(before, actor, call).Success? {
        CallCloses(before.t, actor, call);
        CallKeepsKeys(before.t, actor, call);
        ClosedTransitive(db.t, before.t, After(before.t, actor, call), actor);
      }
    }
  }
}
