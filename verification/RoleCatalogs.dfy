// A reported catalog in normal form, its place in the order of reports and what
// applying it does to the role tables.
module RoleCatalogs {
  import opened Common
  import opened RoleTables

  const MAX_ROLES: nat := 500

  datatype CatalogError = InvalidRoles | InvalidRoleRow | DuplicateRoleId | InvalidDefaultRole | InvalidVersion
                        | RevisionRequired | EpochConflict | RevisionConflict | OrderAmbiguous

  // ---------------------------------------------------------------- normal form

  /** A default role as reported: absent, null, a number, or something else. */
  datatype RawDefault = Missing | Null | Given(id: RoleId) | NotANumber

  datatype RawVersion = NoVersion | Versioned(version: Version) | BadVersion

  function IdsOf(roles: seq<CatalogRole>): set<RoleId> {
    set i | 0 <= i < |roles| :: roles[i].id
  }

  predicate StrictlySorted(roles: seq<CatalogRole>) {
    forall i, j :: 0 <= i < j < |roles| ==> roles[i].id < roles[j].id
  }

  function InsertById(roles: seq<CatalogRole>, r: CatalogRole): seq<CatalogRole> {
    if roles == [] || r.id < roles[0].id then [r] + roles else [roles[0]] + InsertById(roles[1..], r)
  }

  /** Reads rows in order: a malformed row or a repeated id rejects the report. */
  function NormalizeRoles(rows: seq<Option<CatalogRole>>, sorted: seq<CatalogRole>): Result<seq<CatalogRole>, CatalogError> {
    if rows == [] then Success(sorted)
    else if rows[0].None? then Failure(InvalidRoleRow)
    else if rows[0].value.id in IdsOf(sorted) then Failure(DuplicateRoleId)
    else NormalizeRoles(rows[1..], InsertById(sorted, rows[0].value))
  }

  function Normalize(rows: seq<Option<CatalogRole>>, d: RawDefault, siteName: Option<nat>, v: RawVersion): Result<RoleCatalog, CatalogError> {
    if |rows| > MAX_ROLES then Failure(InvalidRoles) else
    match NormalizeRoles(rows, [])
    case Failure(e) => Failure(e)
    case Success(roles) =>
      if d.NotANumber? then Failure(InvalidDefaultRole)
      else if v.BadVersion? || (v.Versioned? && !(0 < v.version.revision <= MAX_BIGINT)) then Failure(InvalidVersion)
      else Success(RoleCatalog(roles, if d.Given? && d.id in IdsOf(roles) then Some(d.id) else None, siteName,
                               if v.Versioned? then Some(v.version) else None))
  }

  /** Roles in strictly increasing id order, a default that is listed, a positive revision. */
  predicate WellFormed(c: RoleCatalog) {
    && StrictlySorted(c.roles)
    && (c.defaultRole.Some? ==> c.defaultRole.value in IdsOf(c.roles))
    && (c.version.Some? ==> c.version.value.revision > 0)
  }

  lemma {:induction false} InsertKeepsSorted(roles: seq<CatalogRole>, r: CatalogRole)
    requires StrictlySorted(roles) && r.id !in IdsOf(roles)
    ensures StrictlySorted(InsertById(roles, r))
    ensures forall x :: x in InsertById(roles, r) <==> x in roles || x == r
    ensures forall id :: id in IdsOf(InsertById(roles, r)) <==> id in IdsOf(roles) || id == r.id
  {
    var out := InsertById(roles, r);
    if roles != [] {
      assert roles[0].id in IdsOf(roles);
      if r.id >= roles[0].id {
        var t := roles[1..];
        forall id ensures id in IdsOf(roles) <==> id == roles[0].id || id in IdsOf(t) {
          if id in IdsOf(t) {
            var i :| 0 <= i < |t| && t[i].id == id;
            assert roles[i + 1].id == id;
          }
          if id in IdsOf(roles) && id != roles[0].id {
            var i :| 0 <= i < |roles| && roles[i].id == id;
            assert t[i - 1].id == id;
          }
        }
        InsertKeepsSorted(t, r);
        var rest := InsertById(t, r);
        forall i | 0 <= i < |rest| ensures roles[0].id < rest[i].id {
          assert rest[i] in rest;
        }
        IdsOfCons(roles[0], rest);
      } else {
        IdsOfCons(r, roles);
      }
    } else {
      IdsOfCons(r, roles);
    }
  }

  lemma IdsOfCons(r: CatalogRole, rest: seq<CatalogRole>)
    ensures forall id :: id in IdsOf([r] + rest) <==> id == r.id || id in IdsOf(rest)
    ensures forall x :: x in [r] + rest <==> x == r || x in rest
  {
    var all := [r] + rest;
    assert all[0] == r;
    forall id ensures id in IdsOf(all) <==> id == r.id || id in IdsOf(rest) {
      if id in IdsOf(rest) {
        var i :| 0 <= i < |rest| && rest[i].id == id;
        assert all[i + 1].id == id;
      }
      if id in IdsOf(all) && id != r.id {
        var i :| 0 <= i < |all| && all[i].id == id;
        assert rest[i - 1].id == id;
      }
    }
  }

  lemma {:induction false} NormalizedRoles(rows: seq<Option<CatalogRole>>, sorted: seq<CatalogRole>)
    requires StrictlySorted(sorted)
    ensures NormalizeRoles(rows, sorted).Success? ==>
              var out := NormalizeRoles(rows, sorted).value;
              && StrictlySorted(out)
              && forall x :: x in out <==> x in sorted || Some(x) in rows
    decreases rows
  {
    if rows != [] && rows[0].Some? && rows[0].value.id !in IdsOf(sorted) {
      InsertKeepsSorted(sorted, rows[0].value);
      NormalizedRoles(rows[1..], InsertById(sorted, rows[0].value));
      assert forall x :: x in rows <==> x == rows[0] || x in rows[1..];
    }
  }

  lemma {:induction false} SortedIsUnique(a: seq<CatalogRole>, b: seq<CatalogRole>)
    requires StrictlySorted(a) && StrictlySorted(b)
    requires forall x :: x in a <==> x in b
    ensures a == b
  {
    assert a != [] ==> a[0] in b;
    assert b != [] ==> b[0] in a;
    if a != [] && b != [] {
      assert a[0] in b && b[0] in a;
      var i :| 0 <= i < |b| && b[i] == a[0];
      var j :| 0 <= j < |a| && a[j] == b[0];
      assert a[0] == b[0];
      forall x ensures x in a[1..] <==> x in b[1..] {
        assert x in a <==> x == a[0] || x in a[1..];
        assert x in b <==> x == b[0] || x in b[1..];
        if x in a[1..] {
          var k :| 0 <= k < |a[1..]| && a[1..][k] == x;
          assert a[k + 1] == x;
        }
        if x in b[1..] {
          var k :| 0 <= k < |b[1..]| && b[1..][k] == x;
          assert b[k + 1] == x;
        }
      }
      SortedIsUnique(a[1..], b[1..]);
    }
  }

  /** Accepted reports are well formed, list exactly the reported rows, and do not depend on their order. */
  lemma NormalFormIsCanonical(rows: seq<Option<CatalogRole>>, other: seq<Option<CatalogRole>>, d: RawDefault, siteName: Option<nat>, v: RawVersion)
    requires Normalize(rows, d, siteName, v).Success?
    ensures var c := Normalize(rows, d, siteName, v).value;
            && WellFormed(c)
            && (forall x :: x in c.roles <==> Some(x) in rows)
            && (Normalize(other, d, siteName, v).Success? && (forall x :: x in other <==> x in rows) ==> Normalize(other, d, siteName, v).value == c)
  {
    NormalizedRoles(rows, []);
    NormalizedRoles(other, []);
    if Normalize(other, d, siteName, v).Success? && forall x :: x in other <==> x in rows {
      SortedIsUnique(Normalize(rows, d, siteName, v).value.roles, Normalize(other, d, siteName, v).value.roles);
    }
  }

  // ---------------------------------------------------------------- the order of reports

  datatype Order = Apply | Same | Old

  function ContentOf(c: RoleCatalog): Content {
    Content(c.roles, c.defaultRole, c.siteName)
  }

  function CatalogOrder(state: SyncState, c: RoleCatalog, iat: nat, hasCatalog: bool): Result<Order, CatalogError> {
    var same := state.digest == Some(ContentOf(c));
    if state.version.Some? then
      if c.version.None? then Failure(RevisionRequired)
      else if c.version.value.epoch != state.version.value.epoch then Failure(EpochConflict)
      else if c.version.value.revision < state.version.value.revision then Success(Old)
      else if c.version.value.revision == state.version.value.revision then
        if same then Success(Same) else Failure(RevisionConflict)
      else Success(Apply)
    else if c.version.Some? || !hasCatalog then Success(Apply)
    else if iat < state.iat then Success(Old)
    else if iat == state.iat then if same then Success(Same) else Failure(OrderAmbiguous)
    else Success(Apply)
  }

  // ---------------------------------------------------------------- applying a report

  /** The rows of a list of roles, keyed by id. */
  function TableOf(roles: seq<CatalogRole>): map<RoleId, AppRole> {
    if roles == [] then map[] else TableOf(roles[..|roles| - 1])[roles[|roles| - 1].id := roles[|roles| - 1].role]
  }

  /** A table listed in id order. */
  function ListOf(table: map<RoleId, AppRole>): (r: seq<CatalogRole>)
    ensures StrictlySorted(r)
    ensures forall x :: x in r <==> x.id in table && table[x.id] == x.role
  {
    var ids := Sorted(table.Keys);
    RowsListTable(table, ids);
    Rows(table, ids)
  }

  function Rows(table: map<RoleId, AppRole>, ids: seq<RoleId>): (r: seq<CatalogRole>)
    requires forall id :: id in ids ==> id in table
    ensures |r| == |ids| && forall i :: 0 <= i < |ids| ==> ids[i] in table && r[i] == CatalogRole(ids[i], table[ids[i]])
  {
    seq(|ids|, i requires 0 <= i < |ids| => assert ids[i] in ids; CatalogRole(ids[i], table[ids[i]]))
  }

  lemma RowsListTable(table: map<RoleId, AppRole>, ids: seq<RoleId>)
    requires forall id :: id in ids <==> id in table
    ensures forall x :: x in Rows(table, ids) <==> x.id in table && table[x.id] == x.role
  {
    var r := Rows(table, ids);
    forall x: CatalogRole | x.id in table && table[x.id] == x.role ensures x in r {
      var i :| 0 <= i < |ids| && ids[i] == x.id;
      assert r[i] == x;
    }
  }

  lemma {:induction false} TableOfRoles(roles: seq<CatalogRole>)
    requires StrictlySorted(roles)
    ensures forall id :: id in TableOf(roles) <==> id in IdsOf(roles)
    ensures forall i :: 0 <= i < |roles| ==> roles[i].id in TableOf(roles) && TableOf(roles)[roles[i].id] == roles[i].role
  {
    if roles != [] {
      var init := roles[..|roles| - 1];
      TableOfRoles(init);
      IdsOfSnoc(init, roles[|init|]);
      assert init + [roles[|init|]] == roles;
    }
  }

  lemma IdsOfSnoc(init: seq<CatalogRole>, r: CatalogRole)
    ensures forall id :: id in IdsOf(init + [r]) <==> id in IdsOf(init) || id == r.id
  {
    var roles := init + [r];
    assert roles[|init|] == r;
    forall id | id in IdsOf(init) ensures id in IdsOf(roles) {
      var i :| 0 <= i < |init| && init[i].id == id;
      assert roles[i].id == id;
    }
    forall id | id in IdsOf(roles) && id != r.id ensures id in IdsOf(init) {
      var i :| 0 <= i < |roles| && roles[i].id == id;
      assert init[i].id == id;
    }
  }

  /** Storing a sorted list and listing it again gives it back. */
  lemma StoreAndList(roles: seq<CatalogRole>)
    requires StrictlySorted(roles)
    ensures ListOf(TableOf(roles)) == roles
  {
    TableOfRoles(roles);
    forall x ensures x in ListOf(TableOf(roles)) <==> x in roles {
      if x in ListOf(TableOf(roles)) {
        var i :| 0 <= i < |roles| && roles[i].id == x.id;
        assert roles[i] in roles;
      }
    }
    SortedIsUnique(ListOf(TableOf(roles)), roles);
  }

  /** Stored references to a role: personal overrides by subject, or org defaults by slug. */
  type Refs = map<(nat, Client), Option<RoleId>>

  type Table = map<RoleId, AppRole>

  /** A default role, if any, is listed in the table. */
  predicate Listed(news: Table, d: Option<RoleId>) {
    d.Some? ==> d.value in news
  }

  /** Where references to a removed role go: to a less privileged default, otherwise to explicit denial. */
  function MoveTo(news: Table, d: Option<RoleId>, removed: AppRole): Option<RoleId>
    requires Listed(news, d)
  {
    if d.Some? && removed.level < news[d.value].level then d else None
  }

  /** One simultaneous substitution of all removed roles. */
  function Redirect(olds: Table, news: Table, d: Option<RoleId>, role: Option<RoleId>): Option<RoleId>
    requires Listed(news, d)
  {
    if role.Some? && role.value in olds && role.value !in news then MoveTo(news, d, olds[role.value]) else role
  }

  function RedirectAll(refs: Refs, client: Client, olds: Table, news: Table, d: Option<RoleId>): Refs
    requires Listed(news, d)
  {
    map k | k in refs :: if k.1 == client then Redirect(olds, news, d, refs[k]) else refs[k]
  }

  /** `UPDATE ... SET app_role_id = moveTo WHERE client_id = client AND app_role_id = removed`. */
  function UpdateRefs(refs: Refs, client: Client, removed: RoleId, moveTo: Option<RoleId>): Refs {
    map k | k in refs :: if k.1 == client && refs[k] == Some(removed) then moveTo else refs[k]
  }

  /** The most privileged role; the smaller id wins a tie. */
  function Better(a: CatalogRole, b: CatalogRole): CatalogRole {
    if b.role.level < a.role.level || (b.role.level == a.role.level && b.id < a.id) then b else a
  }

  function Top(roles: seq<CatalogRole>): CatalogRole
    requires roles != []
  {
    if |roles| == 1 then roles[0] else Better(Top(roles[..|roles| - 1]), roles[|roles| - 1])
  }

  lemma {:induction false} TopIsBest(roles: seq<CatalogRole>)
    requires roles != []
    ensures Top(roles) in roles
    ensures forall r :: r in roles ==> Top(roles).role.level < r.role.level || (Top(roles).role.level == r.role.level && Top(roles).id <= r.id)
  {
    if |roles| > 1 {
      var init := roles[..|roles| - 1];
      TopIsBest(init);
      assert forall r :: r in roles <==> r in init || r == roles[|roles| - 1];
    }
  }

  function StoreCatalog(t: Tables, client: Client, news: Table, d: Option<RoleId>, siteName: Option<nat>, iat: nat): Tables
    requires Listed(news, d)
  {
    var olds := RolesOf(t, client);
    t.(overrides := RedirectAll(t.overrides, client, olds, news, d),
       orgDefaults := RedirectAll(t.orgDefaults, client, olds, news, d),
       appRoles := t.appRoles[client := news],
       catalogs := t.catalogs[client := CatalogRow(d, iat)],
       clients := if siteName.Some? && client in t.clients then t.clients[client := t.clients[client].(name := siteName.value)] else t.clients)
  }

  predicate IsRoot(t: Tables, slug: Slug) {
    slug in t.orgRoles && t.orgRoles[slug].level == 0
  }

  /** Level-0 org roles default to the top role of every report. */
  function RootDefaults(t: Tables, client: Client, top: Option<RoleId>): Tables {
    if top.None? then t else
    t.(orgDefaults := t.orgDefaults + map slug | slug in t.orgRoles && IsRoot(t, slug) :: (slug, client) := top)
  }

  /** Members of level-0 roles whose stored default is about to change and who have no override. */
  function RootSubjects(t: Tables, client: Client, top: Option<RoleId>): set<Sub> {
    set s | s in t.userOrg && top.Some? && IsRoot(t, t.userOrg[s]) && (s, client) !in t.overrides &&
            Lookup(t.orgDefaults, (t.userOrg[s], client)) != Some(top)
  }

  /** What a report means for the role tables: its roles, its default and its most privileged role. */
  function CatalogTables(t: Tables, client: Client, news: Table, d: Option<RoleId>, siteName: Option<nat>, top: Option<RoleId>, iat: nat): Tables
    requires Listed(news, d)
  {
    RootDefaults(StoreCatalog(t, client, news, d, siteName, iat), client, top)
  }

  lemma WellFormedLists(c: RoleCatalog)
    requires WellFormed(c)
    ensures Listed(TableOf(c.roles), c.defaultRole)
    ensures TopId(c.roles).Some? ==> TopId(c.roles).value in TableOf(c.roles)
  {
    TableOfRoles(c.roles);
    if c.roles != [] {
      TopIsBest(c.roles);
      assert Top(c.roles).id in IdsOf(c.roles) by {
        var i :| 0 <= i < |c.roles| && c.roles[i] == Top(c.roles);
      }
    }
  }

  function TopId(roles: seq<CatalogRole>): Option<RoleId> {
    if roles == [] then None else Some(Top(roles).id)
  }

  // ---------------------------------------------------------------- what applying a report keeps

  /** The stored references after a report, one at a time. */
  lemma ReferencesAfter(t: Tables, client: Client, news: Table, d: Option<RoleId>, siteName: Option<nat>, top: Option<RoleId>, iat: nat, k: (nat, Client))
    requires Listed(news, d)
    ensures var after := CatalogTables(t, client, news, d, siteName, top, iat);
            var olds := RolesOf(t, client);
            && Lookup(after.overrides, k) ==
                 (if k in t.overrides then Some(if k.1 == client then Redirect(olds, news, d, t.overrides[k]) else t.overrides[k]) else None)
            && Lookup(after.orgDefaults, k) ==
                 (if k.1 == client && top.Some? && IsRoot(t, k.0) then Some(top)
                  else if k in t.orgDefaults then Some(if k.1 == client then Redirect(olds, news, d, t.orgDefaults[k]) else t.orgDefaults[k]) else None)
  {
  }

  /** A redirected reference lands on a strictly less privileged role of the new catalog, or on denial. */
  lemma RedirectDemotes(t: Tables, client: Client, news: Table, d: Option<RoleId>, siteName: Option<nat>, top: Option<RoleId>, iat: nat, role: Option<RoleId>)
    requires Listed(news, d) && NullOrListed(t, client, role)
    ensures var after := CatalogTables(t, client, news, d, siteName, top, iat);
            var moved := Redirect(RolesOf(t, client), news, d, role);
            && NullOrListed(after, client, moved)
            && (moved != role ==> MorePrivileged(AppRoleLevel(t, client, role), AppRoleLevel(after, client, moved)))
  {
    assert RolesOf(CatalogTables(t, client, news, d, siteName, top, iat), client) == news;
  }

  lemma OtherCatalogs(t: Tables, client: Client, news: Table, d: Option<RoleId>, siteName: Option<nat>, top: Option<RoleId>, iat: nat, other: Client)
    requires Listed(news, d) && other != client
    ensures var after := CatalogTables(t, client, news, d, siteName, top, iat);
            && RolesOf(after, other) == RolesOf(t, other)
            && Lookup(after.catalogs, other) == Lookup(t.catalogs, other)
            && after.userOrg == t.userOrg && after.identities == t.identities && after.orgRoles == t.orgRoles
  {
  }

  lemma RedirectIsListed(olds: Table, news: Table, d: Option<RoleId>, role: Option<RoleId>)
    requires Listed(news, d) && Listed(olds, role)
    ensures Listed(news, Redirect(olds, news, d, role))
  {
  }

  lemma ReferenceStaysListed(t: Tables, client: Client, news: Table, d: Option<RoleId>, siteName: Option<nat>, top: Option<RoleId>, iat: nat, k: (nat, Client))
    requires Listed(news, d) && Listed(news, top)
    requires k in t.overrides ==> NullOrListed(t, k.1, t.overrides[k])
    requires k in t.orgDefaults ==> NullOrListed(t, k.1, t.orgDefaults[k])
    ensures var after := CatalogTables(t, client, news, d, siteName, top, iat);
            && (k in after.overrides ==> NullOrListed(after, k.1, after.overrides[k]))
            && (k in after.orgDefaults ==> NullOrListed(after, k.1, after.orgDefaults[k]))
  {
    ReferencesAfter(t, client, news, d, siteName, top, iat, k);
    var olds, after := RolesOf(t, k.1), CatalogTables(t, client, news, d, siteName, top, iat);
    if k.1 == client {
      assert RolesOf(after, client) == news;
      if k in t.overrides { RedirectIsListed(olds, news, d, t.overrides[k]); }
      if k in t.orgDefaults { RedirectIsListed(olds, news, d, t.orgDefaults[k]); }
    } else {
      OtherCatalogs(t, client, news, d, siteName, top, iat, k.1);
    }
  }

  /** No reference dangles after a report is applied. */
  lemma CatalogKeepsReferences(t: Tables, client: Client, news: Table, d: Option<RoleId>, siteName: Option<nat>, top: Option<RoleId>, iat: nat)
    requires Listed(news, d) && Listed(news, top) && NoDangling(t)
    ensures NoDangling(CatalogTables(t, client, news, d, siteName, top, iat))
  {
    var after := CatalogTables(t, client, news, d, siteName, top, iat);
    forall k | k in after.overrides ensures NullOrListed(after, k.1, after.overrides[k]) {
      ReferenceStaysListed(t, client, news, d, siteName, top, iat, k);
    }
    forall k | k in after.orgDefaults ensures NullOrListed(after, k.1, after.orgDefaults[k]) {
      ReferenceStaysListed(t, client, news, d, siteName, top, iat, k);
    }
    forall e | e in after.catalogs ensures NullOrListed(after, e, after.catalogs[e].defaultRole) {
      if e == client {
        assert RolesOf(after, client) == news;
      } else {
        OtherCatalogs(t, client, news, d, siteName, top, iat, e);
      }
    }
  }

  /** A report changes nothing about any other client. */
  lemma CatalogKeepsOthers(t: Tables, client: Client, news: Table, d: Option<RoleId>, siteName: Option<nat>, top: Option<RoleId>, iat: nat, other: Client, s: Sub)
    requires Listed(news, d) && other != client
    ensures SameResolution(CatalogTables(t, client, news, d, siteName, top, iat), t, other, s)
  {
    OtherCatalogs(t, client, news, d, siteName, top, iat, other);
    ReferencesAfter(t, client, news, d, siteName, top, iat, (s, other));
    if s in t.userOrg {
      ReferencesAfter(t, client, news, d, siteName, top, iat, (t.userOrg[s], other));
    }
  }

  /** A personal override outranks the root default: only its own redirection can change it, and a denial stays a denial. */
  lemma OverrideOutranksRoot(t: Tables, client: Client, news: Table, d: Option<RoleId>, siteName: Option<nat>, top: Option<RoleId>, iat: nat, s: Sub)
    requires Listed(news, d) && (s, client) in t.overrides
    ensures var after := CatalogTables(t, client, news, d, siteName, top, iat);
            && EffectiveAppRole(after, s, client).role == Redirect(RolesOf(t, client), news, d, t.overrides[(s, client)])
            && (t.overrides[(s, client)].None? ==> EffectiveAppRole(after, s, client).role.None?)
  {
    ReferencesAfter(t, client, news, d, siteName, top, iat, (s, client));
  }

  /** A member of a level-0 role without an override gets the top role of the report. */
  lemma RootGetsTop(t: Tables, client: Client, news: Table, d: Option<RoleId>, siteName: Option<nat>, top: Option<RoleId>, iat: nat, s: Sub)
    requires Listed(news, d) && top.Some?
    requires s in t.userOrg && IsRoot(t, t.userOrg[s]) && (s, client) !in t.overrides
    ensures EffectiveAppRole(CatalogTables(t, client, news, d, siteName, top, iat), s, client) == Effective(top, FromOrg)
  {
    ReferencesAfter(t, client, news, d, siteName, top, iat, (s, client));
    ReferencesAfter(t, client, news, d, siteName, top, iat, (t.userOrg[s], client));
  }

  // ---------------------------------------------------------------- the sequential loop

  /** The substitution restricted to the removed roles that the loop has reached. */
  function PartlyRedirected(refs: Refs, client: Client, olds: Table, news: Table, d: Option<RoleId>, done: set<RoleId>): Refs
    requires Listed(news, d)
  {
    map k | k in refs :: if k.1 == client && refs[k].Some? && refs[k].value in done then Redirect(olds, news, d, refs[k]) else refs[k]
  }

  /** One UPDATE of the loop extends the substitution by one role and touches no reference already moved. */
  lemma UpdateExtends(refs: Refs, client: Client, olds: Table, news: Table, d: Option<RoleId>, done: set<RoleId>, removed: RoleId)
    requires Listed(news, d) && removed in olds && removed !in news
    requires forall r :: r in done ==> r in olds && r !in news
    ensures UpdateRefs(PartlyRedirected(refs, client, olds, news, d, done), client, removed, MoveTo(news, d, olds[removed]))
         == PartlyRedirected(refs, client, olds, news, d, done + {removed})
  {
  }

  lemma FullyRedirected(refs: Refs, client: Client, olds: Table, news: Table, d: Option<RoleId>, done: set<RoleId>)
    requires Listed(news, d)
    requires forall r :: r in olds && r !in news ==> r in done
    ensures PartlyRedirected(refs, client, olds, news, d, done) == RedirectAll(refs, client, olds, news, d)
  {
  }

  lemma NothingRedirected(refs: Refs, client: Client, olds: Table, news: Table, d: Option<RoleId>)
    requires Listed(news, d)
    ensures PartlyRedirected(refs, client, olds, news, d, {}) == refs
  {
  }

  /** The loop over the removed roles, one UPDATE of each table at a time. */
  method RedirectRemoved(overrides: Refs, orgDefaults: Refs, client: Client, oldRoles: seq<CatalogRole>, news: Table, d: Option<RoleId>)
    returns (o: Refs, g: Refs)
    requires Listed(news, d) && StrictlySorted(oldRoles)
    ensures o == RedirectAll(overrides, client, TableOf(oldRoles), news, d)
    ensures g == RedirectAll(orgDefaults, client, TableOf(oldRoles), news, d)
  {
    ghost var olds := TableOf(oldRoles);
    ghost var done := {};
    TableOfRoles(oldRoles);
    NothingRedirected(overrides, client, olds, news, d);
    NothingRedirected(orgDefaults, client, olds, news, d);
    o, g := overrides, orgDefaults;
    for i := 0 to |oldRoles|
      invariant forall r :: r in done ==> r in olds && r !in news
      invariant forall k :: 0 <= k < i && oldRoles[k].id !in news ==> oldRoles[k].id in done
      invariant o == PartlyRedirected(overrides, client, olds, news, d, done)
      invariant g == PartlyRedirected(orgDefaults, client, olds, news, d, done)
    {
      var removed := oldRoles[i];
      if removed.id !in news {
        UpdateExtends(overrides, client, olds, news, d, done, removed.id);
        UpdateExtends(orgDefaults, client, olds, news, d, done, removed.id);
        var moveTo := if d.Some? && removed.role.level < news[d.value].level then d else None;
        o := UpdateRefs(o, client, removed.id, moveTo);
        g := UpdateRefs(g, client, removed.id, moveTo);
        done := done + {removed.id};
      }
    }
    forall r | r in olds && r !in news ensures r in done {
      var i :| 0 <= i < |oldRoles| && oldRoles[i].id == r;
    }
    FullyRedirected(overrides, client, olds, news, d, done);
    FullyRedirected(orgDefaults, client, olds, news, d, done);
  }

  /** Upserts every reported role, then deletes the rows that the report does not list. */
  method ReplaceRows(olds: Table, roles: seq<CatalogRole>) returns (rows: Table)
    requires StrictlySorted(roles)
    ensures rows == TableOf(roles)
  {
    rows := olds;
    for i := 0 to |roles|
      invariant rows == olds + TableOf(roles[..i])
    {
      assert roles[..i + 1][..i] == roles[..i];
      rows := rows[roles[i].id := roles[i].role];
    }
    assert roles[..|roles|] == roles;
    KeepListed(olds, roles);
    rows := Keep(rows, IdsOf(roles));
  }

  /** `DELETE ... WHERE NOT (role_id = ANY(ids))` */
  function Keep(rows: Table, ids: set<RoleId>): Table {
    map id | id in rows && id in ids :: rows[id]
  }

  lemma KeepListed(olds: Table, roles: seq<CatalogRole>)
    requires StrictlySorted(roles)
    ensures Keep(olds + TableOf(roles), IdsOf(roles)) == TableOf(roles)
  {
    TableOfRoles(roles);
    var news, ids := TableOf(roles), IdsOf(roles);
    assert forall id :: id in news <==> id in ids;
    assert Keep(olds + news, ids) == news;
  }

  /** The reduction over the reported roles. */
  method FindTop(roles: seq<CatalogRole>) returns (top: Option<CatalogRole>)
    ensures top == if roles == [] then None else Some(Top(roles))
  {
    top := None;
    for i := 0 to |roles|
      invariant top == if i == 0 then None else Some(Top(roles[..i]))
    {
      assert roles[..i + 1][..i] == roles[..i];
      if top.None? || roles[i].role.level < top.value.role.level
         || (roles[i].role.level == top.value.role.level && roles[i].id < top.value.id) {
        top := Some(roles[i]);
      }
    }
    assert roles[..|roles|] == roles;
  }
}
