// What a catalog report does to the tables, from the reported and the stored roles
// alone, and when reports, events and batches are taken, refused or ignored.
module RoleReportEffects {
  import opened Common
  import opened RoleTables
  import opened RolePublish
  import opened RoleCatalogs
  import opened RoleSync
  import opened RoleSyncTheorems

  // ---------------------------------------------------------------- normal form

  predicate DistinctRows(rows: seq<Option<CatalogRole>>) {
    forall i, j :: 0 <= i < j < |rows| && rows[i].Some? && rows[j].Some? ==> rows[i].value.id != rows[j].value.id
  }

  lemma {:induction false} RowsAreAcceptedExactly(rows: seq<Option<CatalogRole>>, sorted: seq<CatalogRole>)
    requires StrictlySorted(sorted)
    ensures NormalizeRoles(rows, sorted).Success? <==>
              && (forall i :: 0 <= i < |rows| ==> rows[i].Some? && rows[i].value.id !in IdsOf(sorted))
              && DistinctRows(rows)
    decreases |rows|
  {
    if rows != [] && rows[0].Some? && rows[0].value.id !in IdsOf(sorted) {
      var rest, grown := rows[1..], InsertById(sorted, rows[0].value);
      InsertKeepsSorted(sorted, rows[0].value);
      RowsAreAcceptedExactly(rest, grown);
      RestOfRows(rows, sorted, grown);
    }
  }

  lemma RestOfRows(rows: seq<Option<CatalogRole>>, sorted: seq<CatalogRole>, grown: seq<CatalogRole>)
    requires rows != [] && rows[0].Some? && rows[0].value.id !in IdsOf(sorted)
    requires forall id :: id in IdsOf(grown) <==> id in IdsOf(sorted) || id == rows[0].value.id
    ensures (&& (forall i :: 0 <= i < |rows[1..]| ==> rows[1..][i].Some? && rows[1..][i].value.id !in IdsOf(grown))
             && DistinctRows(rows[1..]))
        <==> (&& (forall i :: 0 <= i < |rows| ==> rows[i].Some? && rows[i].value.id !in IdsOf(sorted))
              && DistinctRows(rows))
  {
    var rest := rows[1..];
    assert forall i :: 0 <= i < |rest| ==> rest[i] == rows[i + 1];
    if (forall i :: 0 <= i < |rest| ==> rest[i].Some? && rest[i].value.id !in IdsOf(grown)) && DistinctRows(rest) {
      forall i | 0 <= i < |rows| ensures rows[i].Some? && rows[i].value.id !in IdsOf(sorted) {
        assert i > 0 ==> rows[i] == rest[i - 1];
      }
      forall i, j | 0 <= i < j < |rows| && rows[i].Some? && rows[j].Some? ensures rows[i].value.id != rows[j].value.id {
        assert rows[j] == rest[j - 1] && (i > 0 ==> rows[i] == rest[i - 1]);
      }
    }
  }

  /** A report is accepted exactly with at most 500 well-formed rows of distinct ids, a numeric or absent default and a proper version. */
  lemma ReportIsAcceptedExactly(rows: seq<Option<CatalogRole>>, d: RawDefault, siteName: Option<nat>, v: RawVersion)
    ensures Normalize(rows, d, siteName, v).Success? <==>
              && |rows| <= 500 && (forall i :: 0 <= i < |rows| ==> rows[i].Some?) && DistinctRows(rows)
              && d != NotANumber && v != BadVersion
              && (v.Versioned? ==> 1 <= v.version.revision <= 9223372036854775807)
  {
    RowsAreAcceptedExactly(rows, []);
  }

  /** Its default is kept exactly if a row lists it; name and version are kept. */
  lemma ReportKeepsItsFields(rows: seq<Option<CatalogRole>>, d: RawDefault, siteName: Option<nat>, v: RawVersion)
    requires Normalize(rows, d, siteName, v).Success?
    ensures var c := Normalize(rows, d, siteName, v).value;
            && (c.defaultRole.Some? <==> d.Given? && exists r :: Some(r) in rows && r.id == d.id)
            && (c.defaultRole.Some? ==> c.defaultRole.value == d.id)
            && c.siteName == siteName
            && c.version == (if v.Versioned? then Some(v.version) else None)
  {
    var c := Normalize(rows, d, siteName, v).value;
    NormalizedRoles(rows, []);
    if d.Given? {
      if r :| Some(r) in rows && r.id == d.id {
        assert r in c.roles;
        var i :| 0 <= i < |c.roles| && c.roles[i] == r;
      }
      if d.id in IdsOf(c.roles) {
        var i :| 0 <= i < |c.roles| && c.roles[i].id == d.id;
        assert c.roles[i] in c.roles;
      }
    }
  }

  // ---------------------------------------------------------------- the order of reports

  /** A revisioned client: the epoch must match, a higher revision is applied, the same one must be the same, a lower one is stale. */
  lemma RevisionedOrderIsExact(db: RoleDb, client: Client, iat: nat, c: RoleCatalog)
    requires client in db.sync && db.sync[client].version.Some?
    ensures var held, order := db.sync[client].version.value, Decide(db, client, iat, c);
            && (c.version.None? ==> order == Failure(RevisionRequired))
            && (c.version.Some? && c.version.value.epoch != held.epoch ==> order == Failure(EpochConflict))
            && (c.version.Some? && c.version.value.epoch == held.epoch ==>
                  var told := c.version.value.revision;
                  && (told > held.revision ==> order == Success(Apply))
                  && (told < held.revision ==> order == Success(Old))
                  && (told == held.revision ==>
                        order == if db.sync[client].digest == Some(Content(c.roles, c.defaultRole, c.siteName)) then Success(Same) else Failure(RevisionConflict)))
  {
  }

  /** What a legacy client is compared with: its digest, or its stored rows if it has none yet. */
  predicate SameAsStored(db: RoleDb, client: Client, c: RoleCatalog)
    requires client in db.sync
  {
    if db.sync[client].digest.Some? then db.sync[client].digest.value == Content(c.roles, c.defaultRole, c.siteName)
    else
      && client in db.t.catalogs && c.defaultRole == db.t.catalogs[client].defaultRole
      && c.roles == ListOf(RolesOf(db.t, client))
      && (c.siteName.Some? ==> client in db.t.clients && c.siteName.value == db.t.clients[client].name)
  }

  /** A legacy client: a first report and a first revision are applied; otherwise the envelope's time decides. */
  lemma LegacyOrderIsExact(db: RoleDb, client: Client, iat: nat, c: RoleCatalog)
    requires client in db.sync && db.sync[client].version.None?
    ensures var order := Decide(db, client, iat, c);
            && (c.version.Some? || client !in db.t.catalogs ==> order == Success(Apply))
            && (c.version.None? && client in db.t.catalogs ==>
                  && (iat > db.sync[client].iat ==> order == Success(Apply))
                  && (iat < db.sync[client].iat ==> order == Success(Old))
                  && (iat == db.sync[client].iat ==> order == if SameAsStored(db, client, c) then Success(Same) else Failure(OrderAmbiguous)))
  {
  }

  // ---------------------------------------------------------------- an applied report

  /** A report is applied when it is newer, and also when it is the same but every subject must still be told once. */
  predicate Takes(db: RoleDb, client: Client, c: RoleCatalog, order: Order)
    requires client in db.sync
  {
    order.Apply? || (order.Same? && (db.sync[client].digest.None? || (db.sync[client].version.None? && c.version.Some?)))
  }

  /** Decided, not taken: nothing changes. */
  lemma IgnoredReportChangesNothing(db: RoleDb, client: Client, iat: nat, c: RoleCatalog)
    requires client in db.sync && WellFormed(c)
    ensures var order, r := Decide(db, client, iat, c), ApplyCatalog(db, client, iat, c);
            && (order.Failure? ==> r == Failure(Rejected(order.error)))
            && (order.Success? && !Takes(db, client, c, order.value) ==> r == Success((db, order.value)))
            && (order.Success? && r.Success? ==> r.value.1 == order.value)
  {
  }

  predicate Lists(c: RoleCatalog, id: RoleId) {
    exists r :: r in c.roles && r.id == id
  }

  /** The report's default, if its level number is larger than the given one. */
  predicate DefaultBelow(c: RoleCatalog, level: int) {
    exists r :: r in c.roles && c.defaultRole == Some(r.id) && level < r.role.level
  }

  /** A reference to a role that stays, to none, or to an unknown one is kept; one to a removed role becomes the default if that is less privileged, else null. */
  predicate Moved(olds: map<RoleId, AppRole>, c: RoleCatalog, before: Option<RoleId>, after: Option<RoleId>) {
    if before.None? || Lists(c, before.value) || before.value !in olds then after == before
    else if DefaultBelow(c, olds[before.value].level) then after == c.defaultRole
    else after == None
  }

  lemma TableLists(c: RoleCatalog)
    requires WellFormed(c)
    ensures Listed(TableOf(c.roles), c.defaultRole)
    ensures forall id :: id in TableOf(c.roles) <==> Lists(c, id)
    ensures forall r :: r in c.roles ==> r.id in TableOf(c.roles) && TableOf(c.roles)[r.id] == r.role
  {
    TableOfRoles(c.roles);
    WellFormedLists(c);
    forall id ensures id in TableOf(c.roles) <==> Lists(c, id) {
      if id in TableOf(c.roles) {
        var i :| 0 <= i < |c.roles| && c.roles[i].id == id;
        assert c.roles[i] in c.roles;
      }
      if Lists(c, id) {
        var r :| r in c.roles && r.id == id;
        var i :| 0 <= i < |c.roles| && c.roles[i] == r;
      }
    }
    forall r | r in c.roles ensures r.id in TableOf(c.roles) && TableOf(c.roles)[r.id] == r.role {
      var i :| 0 <= i < |c.roles| && c.roles[i] == r;
    }
  }

  lemma RedirectMoves(olds: map<RoleId, AppRole>, c: RoleCatalog, role: Option<RoleId>)
    requires WellFormed(c) && Listed(TableOf(c.roles), c.defaultRole)
    ensures Moved(olds, c, role, Redirect(olds, TableOf(c.roles), c.defaultRole, role))
  {
    TableLists(c);
    if c.defaultRole.Some? {
      var r :| r in c.roles && r.id == c.defaultRole.value;
      assert TableOf(c.roles)[c.defaultRole.value] == r.role;
      assert forall q :: q in c.roles && q.id == r.id ==> q.role == r.role;
    }
  }

  lemma AppliedIsStored(db: RoleDb, client: Client, iat: nat, c: RoleCatalog)
    requires client in db.sync && WellFormed(c) && ApplyCatalog(db, client, iat, c).Success?
    requires Takes(db, client, c, ApplyCatalog(db, client, iat, c).value.1)
    ensures var after := ApplyCatalog(db, client, iat, c).value.0;
            && after.t == Stored(db, client, iat, c).t && client in after.sync
            && after.sync[client].version == c.version && after.sync[client].digest == Some(Content(c.roles, c.defaultRole, c.siteName))
            && after.sync[client].iat == iat && after.sync[client].epoch == db.sync[client].epoch
            && forall d :: d in db.sync && d != client ==> d in after.sync && after.sync[d] == db.sync[d]
  {
  }

  /** Every personal override of the client after a report. */
  lemma ReportMovesOverrides(db: RoleDb, client: Client, iat: nat, c: RoleCatalog, k: (nat, Client))
    requires client in db.sync && WellFormed(c) && ApplyCatalog(db, client, iat, c).Success?
    requires Takes(db, client, c, ApplyCatalog(db, client, iat, c).value.1)
    ensures var after := ApplyCatalog(db, client, iat, c).value.0.t;
            && (k in after.overrides <==> k in db.t.overrides)
            && (k in db.t.overrides && k.1 != client ==> after.overrides[k] == db.t.overrides[k])
            && (k in db.t.overrides && k.1 == client ==> Moved(RolesOf(db.t, client), c, db.t.overrides[k], after.overrides[k]))
  {
    AppliedIsStored(db, client, iat, c);
    WellFormedLists(c);
    ReferencesAfter(db.t, client, TableOf(c.roles), c.defaultRole, c.siteName, TopId(c.roles), iat, k);
    if k in db.t.overrides {
      RedirectMoves(RolesOf(db.t, client), c, db.t.overrides[k]);
    }
  }

  /** The most privileged reported role: least level, then least id. */
  predicate IsTop(c: RoleCatalog, role: Option<RoleId>) {
    exists r :: r in c.roles && role == Some(r.id) &&
      forall q :: q in c.roles ==> r.role.level < q.role.level || (r.role.level == q.role.level && r.id <= q.id)
  }

  predicate RootSlug(t: Tables, slug: Slug) {
    slug in t.orgRoles && t.orgRoles[slug].level == 0
  }

  /** Every org default of the client after a report: level-0 roles get the top role, the others are moved as overrides are. */
  lemma ReportMovesOrgDefaults(db: RoleDb, client: Client, iat: nat, c: RoleCatalog, k: (nat, Client))
    requires client in db.sync && WellFormed(c) && ApplyCatalog(db, client, iat, c).Success?
    requires Takes(db, client, c, ApplyCatalog(db, client, iat, c).value.1)
    ensures var after := ApplyCatalog(db, client, iat, c).value.0.t;
            && (k.1 != client ==> Lookup(after.orgDefaults, k) == Lookup(db.t.orgDefaults, k))
            && (k.1 == client && c.roles != [] && RootSlug(db.t, k.0) ==> k in after.orgDefaults && IsTop(c, after.orgDefaults[k]))
            && (k.1 == client && !(c.roles != [] && RootSlug(db.t, k.0)) ==>
                  && (k in after.orgDefaults <==> k in db.t.orgDefaults)
                  && (k in db.t.orgDefaults ==> Moved(RolesOf(db.t, client), c, db.t.orgDefaults[k], after.orgDefaults[k])))
  {
    AppliedIsStored(db, client, iat, c);
    WellFormedLists(c);
    ReferencesAfter(db.t, client, TableOf(c.roles), c.defaultRole, c.siteName, TopId(c.roles), iat, k);
    if k in db.t.orgDefaults {
      RedirectMoves(RolesOf(db.t, client), c, db.t.orgDefaults[k]);
    }
    if c.roles != [] {
      TopIsBest(c.roles);
      assert IsTop(c, Some(Top(c.roles).id));
    }
  }

  /** The catalog itself: exactly the reported roles, default and time; the client's name if one was reported; nothing else. */
  lemma ReportReplacesTheCatalog(db: RoleDb, client: Client, iat: nat, c: RoleCatalog)
    requires client in db.sync && WellFormed(c) && ApplyCatalog(db, client, iat, c).Success?
    requires Takes(db, client, c, ApplyCatalog(db, client, iat, c).value.1)
    ensures var after := ApplyCatalog(db, client, iat, c).value.0.t;
            && (forall id :: id in RolesOf(after, client) <==> Lists(c, id))
            && (forall r :: r in c.roles ==> r.id in RolesOf(after, client) && RolesOf(after, client)[r.id] == r.role)
            && after.catalogs == db.t.catalogs[client := CatalogRow(c.defaultRole, iat)]
            && (forall d :: d != client ==> RolesOf(after, d) == RolesOf(db.t, d))
            && after.clients == (if c.siteName.Some? && client in db.t.clients
                                 then db.t.clients[client := db.t.clients[client].(name := c.siteName.value)] else db.t.clients)
            && after.identities == db.t.identities && after.orgRoles == db.t.orgRoles && after.userOrg == db.t.userOrg
            && after.permissions == db.t.permissions && after.rolePerms == db.t.rolePerms && after.userPerms == db.t.userPerms
            && after.defaultOrgRole == db.t.defaultOrgRole
  {
    AppliedIsStored(db, client, iat, c);
    TableLists(c);
    var after := ApplyCatalog(db, client, iat, c).value.0.t;
    assert RolesOf(after, client) == TableOf(c.roles);
  }

  // ---------------------------------------------------------------- whom a report tells

  /** Members of level-0 org roles without an override whose role's default the report is about to set or change. */
  ghost predicate Bootstrapped(db: RoleDb, client: Client, iat: nat, c: RoleCatalog, s: Sub)
    requires client in db.sync && WellFormed(c)
  {
    && c.roles != [] && s in db.t.userOrg && RootSlug(db.t, db.t.userOrg[s]) && (s, client) !in db.t.overrides
    && !(exists top: RoleId :: IsTop(c, Some(top)) && (db.t.userOrg[s], client) in db.t.orgDefaults
           && Moved(RolesOf(db.t, client), c, db.t.orgDefaults[(db.t.userOrg[s], client)], Some(top)))
  }

  lemma TopOf(c: RoleCatalog, role: RoleId)
    requires WellFormed(c) && c.roles != []
    ensures IsTop(c, Some(role)) <==> TopId(c.roles) == Some(role)
  {
    WellFormedLists(c);
    TopIsBest(c.roles);
    assert IsTop(c, Some(Top(c.roles).id));
  }

  lemma StoredDefault(db: RoleDb, client: Client, iat: nat, c: RoleCatalog, k: (nat, Client))
    requires client in db.sync && WellFormed(c) && k.1 == client && Listed(TableOf(c.roles), c.defaultRole)
    ensures var stored := StoreCatalog(db.t, client, TableOf(c.roles), c.defaultRole, c.siteName, iat).orgDefaults;
            && (k in stored <==> k in db.t.orgDefaults)
            && (k in stored ==> Moved(RolesOf(db.t, client), c, db.t.orgDefaults[k], stored[k]))
  {
    if k in db.t.orgDefaults {
      RedirectMoves(RolesOf(db.t, client), c, db.t.orgDefaults[k]);
    }
  }

  /** Everybody is told on the first reconciliation and on the adoption of revisions; otherwise bootstrapped members are told even if nothing changed. */
  lemma ReportTells(db: RoleDb, client: Client, iat: nat, c: RoleCatalog, s: Sub)
    requires client in db.sync && WellFormed(c)
    ensures var scope := StoreScope(db, client, iat, c);
            && scope.subjects == None
            && (scope.force <==> db.sync[client].digest.None? || (db.sync[client].version.None? && c.version.Some?))
            && (s in scope.forced <==> Bootstrapped(db, client, iat, c, s))
  {
    WellFormedLists(c);
    if s in db.t.userOrg && c.roles != [] {
      StoredDefault(db, client, iat, c, (db.t.userOrg[s], client));
      var top := TopId(c.roles).value;
      TopOf(c, top);
      forall x: RoleId ensures IsTop(c, Some(x)) <==> x == top {
        TopOf(c, x);
      }
    }
  }

  // ---------------------------------------------------------------- events and batches

  /** Only a receipt without a digest, or a legacy report under a report's receipt, is replaced. */
  predicate MayReplace(e: Incoming, receipt: Option<Body>) {
    receipt.None? || (e.body.RolesSync? && e.body.catalog.version.None? && receipt.value.RolesSync?)
  }

  /** Events other than reports: acknowledged once, and a conflict for anything else under their id. */
  lemma OtherEventIsExact(db: RoleDb, client: Client, iat: nat, e: Incoming)
    requires e.body.Other?
    ensures var r, k := ProcessEvent(db, client, iat, e), (client, e.id);
            && (k in db.inbox && db.inbox[k] == Some(e.body) ==> r == Success(db))
            && (k in db.inbox && db.inbox[k].Some? && db.inbox[k] != Some(e.body) ==> r == Failure(IdentityConflict))
            && (k !in db.inbox || db.inbox[k].None? ==> r == Success(db.(inbox := db.inbox[k := Some(e.body)])))
  {
  }

  /** Reports: the epoch first, then the receipt, then their place in the order. */
  lemma ReportEventIsExact(db: RoleDb, client: Client, iat: nat, e: Incoming)
    requires e.body.RolesSync? && Valid(e) && client in db.sync
    ensures var r, k, c, state := ProcessEvent(db, client, iat, e), (client, e.id), e.body.catalog, db.sync[client];
            var misfit := state.version.Some? && (c.version.None? || c.version.value.epoch != state.version.value.epoch);
            && (misfit ==> r == Failure(Rejected(if c.version.None? then RevisionRequired else EpochConflict)))
            && (!misfit && k in db.inbox && db.inbox[k] == Some(e.body) && state.digest.Some? ==> r == Success(db))
            && (!misfit && k in db.inbox && !(db.inbox[k] == Some(e.body) && state.digest.Some?) && !MayReplace(e, db.inbox[k]) ==> r == Failure(IdentityConflict))
            && (!misfit && (k in db.inbox ==> !(db.inbox[k] == Some(e.body) && state.digest.Some?) && MayReplace(e, db.inbox[k])) ==>
                  var applied := ApplyCatalog(db, client, iat, c);
                  && (applied.Failure? ==> r == Failure(applied.error))
                  && (applied.Success? && k in db.inbox && db.inbox[k].None? && applied.value.1 == Old ==> r == Success(applied.value.0))
                  && (applied.Success? && !(k in db.inbox && db.inbox[k].None? && applied.value.1 == Old) ==>
                        r == Success(applied.value.0.(inbox := applied.value.0.inbox[k := Some(e.body)]))))
  {
  }

  /** The clock of an accepted envelope: issued at most 310 s ago and at most 10 s ahead, not expired for more than 10 s. */
  predicate InDate(envelope: Envelope, now: int) {
    && 0 <= envelope.iat < envelope.exp
    && now - 310 <= envelope.iat <= now + 10 && now - 10 < envelope.exp
  }

  /** A batch needs a current envelope at its start, before each event and at its end, and an enabled client. */
  lemma BatchesAreInDate(db: RoleDb, client: Client, envelope: Envelope, events: seq<Incoming>, readings: seq<int>)
    requires AllValid(events) && |readings| == |events| + 2
    ensures var r := ProcessBatch(db, client, envelope, events, readings);
            && (r.Success? ==> (forall now :: now in readings ==> InDate(envelope, now)) && client in db.t.clients && db.t.clients[client].enabled)
            && (!InDate(envelope, readings[0]) ==> r == Failure(InvalidToken))
            && (InDate(envelope, readings[0]) && !(client in db.t.clients && db.t.clients[client].enabled) ==> r == Failure(UnknownClient))
  {
    if ProcessBatch(db, client, envelope, events, readings).Success? {
      EventsAreInDate(db, client, envelope, events, readings[1..]);
      forall now | now in readings ensures InDate(envelope, now) {
        var i :| 0 <= i < |readings| && readings[i] == now;
        assert i > 0 ==> readings[1..][i - 1] == now;
      }
    }
  }

  lemma {:induction false} EventsAreInDate(db: RoleDb, client: Client, envelope: Envelope, events: seq<Incoming>, readings: seq<int>)
    requires AllValid(events) && |readings| == |events| + 1 && ProcessEvents(db, client, envelope, events, readings).Success?
    ensures forall now :: now in readings ==> InDate(envelope, now)
    decreases |events|
  {
    if events != [] {
      assert events[0] in events && forall e :: e in events[1..] ==> e in events;
      EventsAreInDate(ProcessEvent(db, client, envelope.iat, events[0]).value, client, envelope, events[1..], readings[1..]);
    }
    forall now | now in readings ensures InDate(envelope, now) {
      var i :| 0 <= i < |readings| && readings[i] == now;
      assert i > 0 ==> readings[1..][i - 1] == now;
    }
  }

  /** A batch in date whose events are all taken in turn is taken, and the first refusal is the batch's. */
  lemma {:induction false} EventsFollowInTurn(db: RoleDb, client: Client, envelope: Envelope, events: seq<Incoming>, readings: seq<int>)
    requires AllValid(events) && |readings| == |events| + 1 && events != [] && InDate(envelope, readings[0])
    ensures var first := (assert events[0] in events; ProcessEvent(db, client, envelope.iat, events[0]));
            && (first.Failure? ==> ProcessEvents(db, client, envelope, events, readings) == Failure(first.error))
            && (first.Success? ==>
                  && AllValid(events[1..])
                  && ProcessEvents(db, client, envelope, events, readings) == ProcessEvents(first.value, client, envelope, events[1..], readings[1..]))
  {
    assert events[0] in events && forall e :: e in events[1..] ==> e in events;
  }
}
