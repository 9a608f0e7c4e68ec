// Which administrative calls are accepted, and what each accepted call writes.
module RoleAdminEffects {
  import opened Common
  import opened RoleTables
  import opened RolePublish
  import opened RoleAdmin
  import opened RoleClosure

  // ---------------------------------------------------------------- the actor

  /** A permission is held by a personal grant, or by the org role's grant without a personal effect. */
  lemma GrantIsExact(t: Tables, s: Sub, p: Perm)
    ensures p in Granted(t, s) <==>
              && p in t.permissions
              && if (s, p) in t.userPerms then t.userPerms[(s, p)] == Grant
                 else s in t.userOrg && (t.userOrg[s], p) in t.rolePerms && t.rolePerms[(t.userOrg[s], p)] == Grant
  {
  }

  /** Level of a user: that of its org role; without one, below every level. */
  predicate Outranks(t: Tables, actor: Sub, level: Rank) {
    && actor in t.userOrg && t.userOrg[actor] in t.orgRoles
    && (level.Infinite? || t.orgRoles[t.userOrg[actor]].level < level.level)
  }

  lemma OutranksIsExact(t: Tables, actor: Sub, level: Rank)
    ensures Outranks(t, actor, level) <==> MorePrivileged(LevelOf(t, actor), level)
    ensures Outranks(t, actor, level) <==> !AtMost(level, LevelOf(t, actor))
  {
  }

  predicate MayAct(t: Tables, actor: Sub) {
    actor in t.identities && t.identities[actor] == Identity(Active, false)
  }

  /** An org role that exists and that the actor outranks. */
  predicate Below(t: Tables, actor: Sub, slug: Slug) {
    slug in t.orgRoles && Outranks(t, actor, Finite(t.orgRoles[slug].level))
  }

  // ---------------------------------------------------------------- entries

  predicate PermAllowed(t: Tables, actor: Sub, change: (Perm, PermChange), inheritable: bool) {
    && change.0 in t.permissions && !change.1.BadEffect? && (change.1.InheritEffect? ==> inheritable)
    && (change.0 == DisableMfa || change.0 in Granted(t, actor))
  }

  lemma {:induction false} PermsAreCheckedExactly(t: Tables, actor: Sub, changes: seq<(Perm, PermChange)>, inheritable: bool)
    ensures PermErrors(t, Granted(t, actor), changes, inheritable).None? <==> forall i :: 0 <= i < |changes| ==> PermAllowed(t, actor, changes[i], inheritable)
  {
    if changes != [] {
      PermsAreCheckedExactly(t, actor, changes[1..], inheritable);
      assert PermError(t, Granted(t, actor), changes[0], inheritable).None? <==> PermAllowed(t, actor, changes[0], inheritable);
      assert forall i :: 0 <= i < |changes[1..]| ==> changes[1..][i] == changes[i + 1];
      if (forall i :: 0 <= i < |changes[1..]| ==> PermAllowed(t, actor, changes[1..][i], inheritable)) && PermAllowed(t, actor, changes[0], inheritable) {
        forall i | 0 <= i < |changes| ensures PermAllowed(t, actor, changes[i], inheritable) {
          assert i > 0 ==> changes[i] == changes[1..][i - 1];
        }
      }
    }
  }

  /** What an org role's holder gets from a client without an override. */
  function Inherited(t: Tables, slug: Option<Slug>, client: Client): Option<RoleId> {
    if client !in t.catalogs then None
    else if slug.Some? && (slug.value, client) in t.orgDefaults then t.orgDefaults[(slug.value, client)]
    else t.catalogs[client].defaultRole
  }

  /** In this client the role is not above the actor's own. */
  predicate NotAbove(t: Tables, actor: Sub, client: Client, role: Option<RoleId>) {
    !MorePrivileged(AppRoleLevel(t, client, role), AppRoleLevel(t, client, EffectiveAppRole(t, actor, client).role))
  }

  /** In this client the role is strictly below the actor's own. */
  predicate StrictlyBelow(t: Tables, actor: Sub, client: Client, role: Option<RoleId>) {
    MorePrivileged(AppRoleLevel(t, client, EffectiveAppRole(t, actor, client).role), AppRoleLevel(t, client, role))
  }

  predicate Assignable(t: Tables, client: Client, value: AppChange) {
    && client in t.catalogs && !value.BadValue?
    && (value.Assign? && value.role.Some? ==> client in t.appRoles && value.role.value in t.appRoles[client])
  }

  predicate UserAppAllowed(t: Tables, actor: Sub, target: Sub, slug: Option<Slug>, change: (Client, AppChange)) {
    && Assignable(t, change.0, change.1)
    && NotAbove(t, actor, change.0, EffectiveAppRole(t, target, change.0).role)
    && NotAbove(t, actor, change.0, if change.1.Assign? then change.1.role else Inherited(t, slug, change.0))
  }

  predicate RoleAppAllowed(t: Tables, actor: Sub, slug: Slug, change: (Client, AppChange)) {
    && Assignable(t, change.0, change.1)
    && NotAbove(t, actor, change.0, Inherited(t, Some(slug), change.0))
    && StrictlyBelow(t, actor, change.0, if change.1.Assign? then change.1.role else t.catalogs[change.0].defaultRole)
  }

  lemma {:induction false} UserAppsAreCheckedExactly(t: Tables, actor: Sub, target: Sub, slug: Option<Slug>, changes: seq<(Client, AppChange)>)
    ensures UserAppErrors(t, actor, target, slug, changes).None? <==> forall i :: 0 <= i < |changes| ==> UserAppAllowed(t, actor, target, slug, changes[i])
  {
    if changes != [] {
      UserAppsAreCheckedExactly(t, actor, target, slug, changes[1..]);
      UserAppIsCheckedExactly(t, actor, target, slug, changes[0]);
      assert forall i :: 0 <= i < |changes[1..]| ==> changes[1..][i] == changes[i + 1];
      if (forall i :: 0 <= i < |changes[1..]| ==> UserAppAllowed(t, actor, target, slug, changes[1..][i])) && UserAppAllowed(t, actor, target, slug, changes[0]) {
        forall i | 0 <= i < |changes| ensures UserAppAllowed(t, actor, target, slug, changes[i]) {
          assert i > 0 ==> changes[i] == changes[1..][i - 1];
        }
      }
    }
  }

  lemma UserAppIsCheckedExactly(t: Tables, actor: Sub, target: Sub, slug: Option<Slug>, change: (Client, AppChange))
    ensures UserAppError(t, actor, target, slug, change).None? <==> UserAppAllowed(t, actor, target, slug, change)
  {
  }

  lemma RoleAppIsCheckedExactly(t: Tables, actor: Sub, slug: Slug, change: (Client, AppChange))
    ensures RoleAppError(t, actor, slug, change).None? <==> RoleAppAllowed(t, actor, slug, change)
  {
  }

  lemma {:induction false} RoleAppsAreCheckedExactly(t: Tables, actor: Sub, slug: Slug, changes: seq<(Client, AppChange)>)
    ensures RoleAppErrors(t, actor, slug, changes).None? <==> forall i :: 0 <= i < |changes| ==> RoleAppAllowed(t, actor, slug, changes[i])
  {
    if changes != [] {
      RoleAppsAreCheckedExactly(t, actor, slug, changes[1..]);
      RoleAppIsCheckedExactly(t, actor, slug, changes[0]);
      assert forall i :: 0 <= i < |changes[1..]| ==> changes[1..][i] == changes[i + 1];
      if (forall i :: 0 <= i < |changes[1..]| ==> RoleAppAllowed(t, actor, slug, changes[1..][i])) && RoleAppAllowed(t, actor, slug, changes[0]) {
        forall i | 0 <= i < |changes| ensures RoleAppAllowed(t, actor, slug, changes[i]) {
          assert i > 0 ==> changes[i] == changes[1..][i - 1];
        }
      }
    }
  }

  // ---------------------------------------------------------------- acceptance

  /** The applications that a move to another org role would change without being named: none may rise above the actor. */
  predicate MoveIsAllowed(t: Tables, actor: Sub, target: Sub, slug: Option<Slug>, changes: seq<(Client, AppChange)>) {
    forall c :: c in t.catalogs && (target, c) !in t.overrides && !(exists i :: 0 <= i < |changes| && changes[i].0 == c) ==>
      Inherited(t, slug, c) == EffectiveAppRole(t, target, c).role || NotAbove(t, actor, c, Inherited(t, slug, c))
  }

  predicate UserCallAllowed(t: Tables, actor: Sub, target: Sub, ch: UserChanges) {
    var slug := if ch.orgRole.Some? then ch.orgRole else if target in t.userOrg then Some(t.userOrg[target]) else None;
    && MayAct(t, actor) && target != actor && target in t.identities && !t.identities[target].deleted && Outranks(t, actor, LevelOf(t, target))
    && (ch.orgRole.Some? || ch.perms != [] || ch.apps != []) && |ch.perms| <= 100 && |ch.apps| <= 50
    && (ch.orgRole.Some? || ch.perms != [] ==> EditUserPermissions in Granted(t, actor))
    && (ch.apps != [] ==> EditUserApps in Granted(t, actor))
    && (ch.orgRole.Some? ==> Below(t, actor, ch.orgRole.value))
    && (forall i :: 0 <= i < |ch.perms| ==> PermAllowed(t, actor, ch.perms[i], true))
    && (forall i :: 0 <= i < |ch.apps| ==> UserAppAllowed(t, actor, target, slug, ch.apps[i]))
    && (ch.orgRole.Some? ==> MoveIsAllowed(t, actor, target, slug, ch.apps))
  }

  lemma MovesAreCheckedExactly(t: Tables, actor: Sub, target: Sub, slug: Option<Slug>, changes: seq<(Client, AppChange)>)
    ensures MoveIsAllowed(t, actor, target, slug, changes) <==> forall c :: c in t.catalogs ==> MoveAllowed(t, actor, target, slug, changes, c)
  {
    forall c | c in t.catalogs
      ensures MoveAllowed(t, actor, target, slug, changes, c) <==>
                ((target, c) !in t.overrides && !(exists i :: 0 <= i < |changes| && changes[i].0 == c) ==>
                   Inherited(t, slug, c) == EffectiveAppRole(t, target, c).role || NotAbove(t, actor, c, Inherited(t, slug, c)))
    {
    }
  }

  /** A user change is accepted exactly when everything it asks for is allowed. */
  lemma UserCallIsCheckedExactly(t: Tables, actor: Sub, target: Sub, ch: UserChanges)
    ensures CheckUser(t, actor, target, ch).None? <==> UserCallAllowed(t, actor, target, ch)
  {
    var slug := if ch.orgRole.Some? then ch.orgRole else Lookup(t.userOrg, target);
    PermsAreCheckedExactly(t, actor, ch.perms, true);
    UserAppsAreCheckedExactly(t, actor, target, slug, ch.apps);
    MovesAreCheckedExactly(t, actor, target, slug, ch.apps);
    OutranksIsExact(t, actor, LevelOf(t, target));
    if ch.orgRole.Some? && ch.orgRole.value in t.orgRoles {
      OutranksIsExact(t, actor, Finite(t.orgRoles[ch.orgRole.value].level));
    }
  }

  predicate RoleCallAllowed(t: Tables, actor: Sub, slug: Slug, ch: RoleChanges) {
    && MayAct(t, actor) && Below(t, actor, slug)
    && (ch.perms != [] || ch.apps != []) && |ch.perms| <= 100 && |ch.apps| <= 50
    && (ch.perms != [] ==> EditRolePermissions in Granted(t, actor))
    && (ch.apps != [] ==> EditRoleApps in Granted(t, actor))
    && (forall i :: 0 <= i < |ch.perms| ==> PermAllowed(t, actor, ch.perms[i], false))
    && (forall i :: 0 <= i < |ch.apps| ==> RoleAppAllowed(t, actor, slug, ch.apps[i]))
  }

  lemma RoleCallIsCheckedExactly(t: Tables, actor: Sub, slug: Slug, ch: RoleChanges)
    ensures CheckRole(t, actor, slug, ch).None? <==> RoleCallAllowed(t, actor, slug, ch)
  {
    PermsAreCheckedExactly(t, actor, ch.perms, false);
    RoleAppsAreCheckedExactly(t, actor, slug, ch.apps);
    if slug in t.orgRoles {
      OutranksIsExact(t, actor, Finite(t.orgRoles[slug].level));
    }
  }

  /** New users and new defaults go to the configured org role, else to the standard one. */
  predicate IsDefaultRole(t: Tables, slug: Slug) {
    if t.defaultOrgRole.Some? then t.defaultOrgRole.value == slug else slug == STANDARD_USER
  }

  /** The other calls: accepted exactly as follows. */
  lemma LifecycleIsCheckedExactly(t: Tables, actor: Sub, call: Call)
    ensures call.NewOrgRole? ==>
              (Check(t, actor, call).None? <==>
                 && MayAct(t, actor) && CreateRole in Granted(t, actor) && call.r.named && call.r.level.Some? && 1 <= call.r.level.value <= 9999
                 && Outranks(t, actor, Finite(call.r.level.value)) && call.r.slug !in t.orgRoles
                 && exists slug :: slug in t.orgRoles && IsDefaultRole(t, slug))
    ensures call.EditOrgRole? ==>
              (Check(t, actor, call).None? <==>
                 && MayAct(t, actor) && Below(t, actor, call.slug) && (call.patch.title.Some? || call.patch.level.Some?)
                 && (call.patch.title.Some? ==> RenameRole in Granted(t, actor) && call.patch.title.value.Some?)
                 && (call.patch.level.Some? ==>
                       && MoveRole in Granted(t, actor) && call.patch.level.value.Some?
                       && 1 <= call.patch.level.value.value <= 9999 && Outranks(t, actor, Finite(call.patch.level.value.value))))
    ensures call.DropOrgRole? ==>
              (Check(t, actor, call).None? <==>
                 && MayAct(t, actor) && RemoveRole in Granted(t, actor) && Below(t, actor, call.slug) && !t.orgRoles[call.slug].isSystem
                 && (forall s :: s in t.userOrg ==> t.userOrg[s] != call.slug) && !IsDefaultRole(t, call.slug))
    ensures call.ChooseDefault? ==>
              (Check(t, actor, call).None? <==> MayAct(t, actor) && SetDefaultRole in Granted(t, actor) && Below(t, actor, call.slug))
    ensures call.NewOrgUser? ==>
              (Check(t, actor, call).None? <==>
                 MayAct(t, actor) && CreateUser in Granted(t, actor) && Below(t, actor, call.slug) && !call.taken && call.sub !in t.identities)
  {
    match call
    case NewOrgRole(r) => if r.level.Some? { OutranksIsExact(t, actor, Finite(r.level.value)); }
    case EditOrgRole(slug, patch) =>
      if patch.level.Some? && patch.level.value.Some? { OutranksIsExact(t, actor, Finite(patch.level.value.value)); }
      if slug in t.orgRoles { OutranksIsExact(t, actor, Finite(t.orgRoles[slug].level)); }
    case DropOrgRole(slug) =>
      if slug in t.orgRoles { OutranksIsExact(t, actor, Finite(t.orgRoles[slug].level)); }
      assert slug in t.userOrg.Values <==> exists s :: s in t.userOrg && t.userOrg[s] == slug;
    case ChooseDefault(slug) => if slug in t.orgRoles { OutranksIsExact(t, actor, Finite(t.orgRoles[slug].level)); }
    case NewOrgUser(_, slug, _) => if slug in t.orgRoles { OutranksIsExact(t, actor, Finite(t.orgRoles[slug].level)); }
    case _ =>
  }

  // ---------------------------------------------------------------- what a refusal says

  /** The reasons of a refused user change, first things first: who acts, on whom, with what. */
  lemma UserRefusalsAreNamed(t: Tables, actor: Sub, target: Sub, ch: UserChanges)
    ensures !MayAct(t, actor) ==> CheckUser(t, actor, target, ch) == Some(PermissionDenied)
    ensures MayAct(t, actor) && !(target != actor && target in t.identities && !t.identities[target].deleted && Outranks(t, actor, LevelOf(t, target))) ==>
              CheckUser(t, actor, target, ch) == Some(NoSuchItem)
    ensures MayAct(t, actor) && target != actor && target in t.identities && !t.identities[target].deleted && Outranks(t, actor, LevelOf(t, target)) ==>
              && (ch.orgRole.None? && ch.perms == [] && ch.apps == [] ==> CheckUser(t, actor, target, ch) == Some(NoChanges))
              && (|ch.perms| > 100 || |ch.apps| > 50 ==> CheckUser(t, actor, target, ch) == Some(TooManyChanges))
              && (1 <= |ch.perms| <= 100 && |ch.apps| <= 50 && EditUserPermissions !in Granted(t, actor) ==>
                    CheckUser(t, actor, target, ch) == Some(PermissionDenied))
              && (ch.orgRole.Some? && ch.perms == [] && ch.apps == [] && EditUserPermissions in Granted(t, actor) && !Below(t, actor, ch.orgRole.value) ==>
                    CheckUser(t, actor, target, ch) == Some(RoleAboveLevel))
  {
    OutranksIsExact(t, actor, LevelOf(t, target));
    if ch.orgRole.Some? && ch.orgRole.value in t.orgRoles {
      OutranksIsExact(t, actor, Finite(t.orgRoles[ch.orgRole.value].level));
    }
  }

  /** The reason of one refused application entry. */
  lemma AppRefusalsAreNamed(t: Tables, actor: Sub, target: Sub, slug: Option<Slug>, role: Slug, change: (Client, AppChange))
    ensures change.0 !in t.catalogs ==>
              UserAppError(t, actor, target, slug, change) == Some(NoSuchItem) == RoleAppError(t, actor, role, change)
    ensures change.0 in t.catalogs && change.1.BadValue? ==>
              UserAppError(t, actor, target, slug, change) == Some(InvalidRequest) == RoleAppError(t, actor, role, change)
    ensures change.0 in t.catalogs && !change.1.BadValue? && !Assignable(t, change.0, change.1) ==>
              UserAppError(t, actor, target, slug, change) == Some(UnknownAppRole) == RoleAppError(t, actor, role, change)
    ensures Assignable(t, change.0, change.1) && !UserAppAllowed(t, actor, target, slug, change) ==>
              UserAppError(t, actor, target, slug, change) == Some(AppRoleAboveLevel)
    ensures Assignable(t, change.0, change.1) && !RoleAppAllowed(t, actor, role, change) ==>
              RoleAppError(t, actor, role, change) == Some(AppRoleAboveLevel)
  {
  }

  /** The reasons of the other refusals. */
  lemma LifecycleRefusalsAreNamed(t: Tables, actor: Sub, call: Call)
    requires !call.UserAccess? && !call.RoleAccess?
    ensures !MayAct(t, actor) ==> Check(t, actor, call) == Some(PermissionDenied)
    ensures MayAct(t, actor) && call.DropOrgRole? && RemoveRole in Granted(t, actor) ==>
              && (call.slug !in t.orgRoles ==> Check(t, actor, call) == Some(NoSuchItem))
              && (call.slug in t.orgRoles && t.orgRoles[call.slug].isSystem ==> Check(t, actor, call) == Some(SystemRole))
              && (call.slug in t.orgRoles && !t.orgRoles[call.slug].isSystem && !Below(t, actor, call.slug) ==> Check(t, actor, call) == Some(RoleAboveLevel))
              && (Below(t, actor, call.slug) && !t.orgRoles[call.slug].isSystem && (exists s :: s in t.userOrg && t.userOrg[s] == call.slug) ==>
                    Check(t, actor, call) == Some(RoleInUse))
              && (Below(t, actor, call.slug) && !t.orgRoles[call.slug].isSystem && !(exists s :: s in t.userOrg && t.userOrg[s] == call.slug) ==>
                    IsDefaultRole(t, call.slug) ==> Check(t, actor, call) == Some(RoleIsDefault))
    ensures MayAct(t, actor) && (call.EditOrgRole? || (call.ChooseDefault? && SetDefaultRole in Granted(t, actor))) ==>
              && (call.slug !in t.orgRoles ==> Check(t, actor, call) == Some(NoSuchItem))
              && (call.slug in t.orgRoles && !Below(t, actor, call.slug) ==> Check(t, actor, call) == Some(RoleAboveLevel))
  {
    if call.DropOrgRole? || call.EditOrgRole? || call.ChooseDefault? {
      if call.slug in t.orgRoles {
        OutranksIsExact(t, actor, Finite(t.orgRoles[call.slug].level));
      }
      assert call.slug in t.userOrg.Values <==> exists s :: s in t.userOrg && t.userOrg[s] == call.slug;
    }
  }

  // ---------------------------------------------------------------- what an accepted call writes

  /** Rows of one org role are copied to a new one. */
  ghost predicate Copied<K(!new), V>(before: map<(Slug, K), V>, after: map<(Slug, K), V>, from: Slug, to: Slug) {
    forall k: (Slug, K) :: Lookup(after, k) == if k.0 == to && (from, k.1) in before then Some(before[(from, k.1)]) else Lookup(before, k)
  }

  /** Rows of one org role are dropped. */
  ghost predicate Dropped<K(!new), V>(before: map<(Slug, K), V>, after: map<(Slug, K), V>, slug: Slug) {
    forall k: (Slug, K) :: Lookup(after, k) == if k.0 == slug then None else Lookup(before, k)
  }

  lemma CreationIsExact(t: Tables, actor: Sub, r: NewRole, seed: Slug)
    requires Check(t, actor, NewOrgRole(r)).None? && IsDefaultRole(t, seed)
    ensures var u := After(t, actor, NewOrgRole(r));
            && u == t.(orgRoles := t.orgRoles[r.slug := OrgRole(r.level.value, false, r.title)], rolePerms := u.rolePerms, orgDefaults := u.orgDefaults)
            && Copied(t.rolePerms, u.rolePerms, seed, r.slug) && Copied(t.orgDefaults, u.orgDefaults, seed, r.slug)
  {
    forall k: (Slug, Perm) ensures Lookup(CopyRows(t.rolePerms, seed, r.slug), k) ==
      if k.0 == r.slug && (seed, k.1) in t.rolePerms then Some(t.rolePerms[(seed, k.1)]) else Lookup(t.rolePerms, k)
    {
      CopiedRow(t.rolePerms, seed, r.slug, k);
    }
    forall k: (Slug, Client) ensures Lookup(CopyRows(t.orgDefaults, seed, r.slug), k) ==
      if k.0 == r.slug && (seed, k.1) in t.orgDefaults then Some(t.orgDefaults[(seed, k.1)]) else Lookup(t.orgDefaults, k)
    {
      CopiedRow(t.orgDefaults, seed, r.slug, k);
    }
  }

  lemma DeletionIsExact(t: Tables, actor: Sub, slug: Slug)
    requires Check(t, actor, DropOrgRole(slug)).None?
    ensures var u := After(t, actor, DropOrgRole(slug));
            && u == t.(orgRoles := t.orgRoles - {slug}, rolePerms := u.rolePerms, orgDefaults := u.orgDefaults)
            && Dropped(t.rolePerms, u.rolePerms, slug) && Dropped(t.orgDefaults, u.orgDefaults, slug)
  {
  }

  /** Supplied fields are set, the others stay. */
  lemma EditIsExact(t: Tables, actor: Sub, slug: Slug, patch: RolePatch)
    requires Check(t, actor, EditOrgRole(slug, patch)).None?
    ensures var u, row := After(t, actor, EditOrgRole(slug, patch)), t.orgRoles[slug];
            && (forall r :: r != slug ==> Lookup(u.orgRoles, r) == Lookup(t.orgRoles, r))
            && u == t.(orgRoles := u.orgRoles) && slug in u.orgRoles && u.orgRoles[slug].isSystem == row.isSystem
            && (patch.title.Some? ==> Some(u.orgRoles[slug].title) == patch.title.value) && (patch.title.None? ==> u.orgRoles[slug].title == row.title)
            && (patch.level.Some? ==> Some(u.orgRoles[slug].level) == patch.level.value) && (patch.level.None? ==> u.orgRoles[slug].level == row.level)
  {
  }

  lemma ChoiceAndUserAreExact(t: Tables, actor: Sub, slug: Slug, sub: Sub, taken: bool)
    ensures Check(t, actor, ChooseDefault(slug)).None? ==> After(t, actor, ChooseDefault(slug)) == t.(defaultOrgRole := Some(slug))
    ensures Check(t, actor, NewOrgUser(sub, slug, taken)).None? ==>
              After(t, actor, NewOrgUser(sub, slug, taken)) ==
                t.(identities := t.identities[sub := Identity(Active, false)], userOrg := t.userOrg[sub := slug])
  {
  }

  /** Creating, editing, deleting and choosing org roles and creating users touch the tables alone: nothing is published. */
  lemma LifecycleIsSilent(db: RoleDb, actor: Sub, call: Call)
    requires !call.UserAccess? && !call.RoleAccess?
    ensures var r := Perform(db, actor, call);
            && (Check(db.t, actor, call).Some? ==> r == Failure(Check(db.t, actor, call).value))
            && (Check(db.t, actor, call).None? ==> r == Success(db.(t := After(db.t, actor, call))))
  {
  }

  /** A move publishes every managed client, any other user change the named ones; always for the target alone. */
  lemma UserChangeIsPublished(db: RoleDb, actor: Sub, target: Sub, ch: UserChanges)
    ensures var clients := UserClients(db.t, ch);
            && (forall c :: c in clients <==> if ch.orgRole.Some? then c in db.t.catalogs else exists i :: 0 <= i < |ch.apps| && ch.apps[i].0 == c)
            && (forall i, j :: 0 <= i < j < |clients| ==> clients[i] < clients[j])
            && (CheckUser(db.t, actor, target, ch).None? ==>
                  var published := PublishAll(db.(t := UserTables(db.t, target, ch)), clients, Scope(Some({target}), false, {}));
                  && (published.Success? ==> Perform(db, actor, UserAccess(target, ch)) == Success(published.value))
                  && (published.Failure? ==> Perform(db, actor, UserAccess(target, ch)) == Failure(Unpublished(published.error))))
  {
  }

  /** A change of an org role publishes the named clients, for everybody. */
  lemma RoleChangeIsPublished(db: RoleDb, actor: Sub, slug: Slug, ch: RoleChanges)
    ensures var clients := Sorted(Keys(ch.apps));
            && (forall c :: c in clients <==> exists i :: 0 <= i < |ch.apps| && ch.apps[i].0 == c)
            && (CheckRole(db.t, actor, slug, ch).None? ==>
                  var published := PublishAll(db.(t := RoleAccessTables(db.t, slug, ch)), clients, Scope(None, false, {}));
                  && (published.Success? ==> Perform(db, actor, RoleAccess(slug, ch)) == Success(published.value))
                  && (published.Failure? ==> Perform(db, actor, RoleAccess(slug, ch)) == Failure(Unpublished(published.error))))
  {
  }
}
