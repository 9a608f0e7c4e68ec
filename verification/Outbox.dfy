// The durable event outbox: its two tables, the transactions that change them
// and the pure decisions a delivery worker takes between transactions.
module Outbox {
  import opened Common

  // Identifiers are only ever compared, so a UUID and a client id are numbers.
  type Uuid = nat
  type ClientId = nat

  const BATCH_MAX: nat := 100
  const EVENT_BYTES_MAX: nat := 65536
  const MAX_ATTEMPTS: nat := 50
  const LEASE_MS: nat := 30000
  const MAX_BIGINT: nat := 9223372036854775807

  /** `bytes` is the UTF-8 length of the serialized event object. */
  datatype Wire = Wire(kind: string, payload: nat, bytes: nat)

  datatype Status = Pending | Delivered | Dead

  datatype Row = Row(id: Uuid, client: ClientId, wire: Wire, version: nat, status: Status, attempts: nat, due: int)

  datatype Lease = Lease(token: Uuid, until: int)

  datatype Destination = Destination(lease: Option<Lease>, due: int, failures: nat)

  datatype Endpoint = Endpoint(uri: Option<nat>, disabled: bool)

  /** `rows` is in sequence order: a sequence number is drawn under the destination lock. */
  datatype Db = Db(rows: seq<Row>, dests: map<ClientId, Destination>, clients: map<ClientId, Endpoint>)

  /** One transaction reads two clocks: its start (`now()`) and the present (`clock_timestamp()`). */
  datatype Clock = Clock(start: int, wall: int)

  datatype Settlement = Deliver | Retry(delay: int) | Kill

  datatype PendingRow = PendingRow(row: Row, due: bool)

  datatype Claim = Claim(client: ClientId, token: Uuid, uri: Option<nat>, disabled: bool, failures: nat, events: seq<PendingRow>)

  // ---------------------------------------------------------------- views of the row table

  datatype View = All | Live | Done

  predicate InView(r: Row, c: ClientId, v: View) {
    r.client == c && (v.All? || (v.Live? <==> r.status.Pending?))
  }

  /** The rows of one destination, in sequence order: all of them, the pending ones or the settled ones. */
  function Select(rows: seq<Row>, c: ClientId, v: View): seq<Row> {
    if rows == [] then [] else Pick(rows[0], c, v) + Select(rows[1..], c, v)
  }

  function Pick(r: Row, c: ClientId, v: View): seq<Row> {
    if InView(r, c, v) then [r] else []
  }

  function Queue(db: Db, c: ClientId): seq<Row> {
    Select(db.rows, c, Live)
  }

  function Ids(rows: seq<Row>): set<Uuid> {
    set i | 0 <= i < |rows| :: rows[i].id
  }

  ghost predicate UniqueIds(rows: seq<Row>) {
    forall i, j :: 0 <= i < j < |rows| ==> rows[i].id != rows[j].id
  }

  // ---------------------------------------------------------------- enqueueing

  datatype Outbound = Malformed | Event(id: Uuid, wire: Wire, version: nat)

  datatype OutboxError = InvalidEvent | EventTooLarge | EventIdConflict

  /** The byte length of the JSON array that carries a batch. */
  function ArrayBytes(batch: seq<Wire>): nat {
    2 + SumBytes(batch) + (if batch == [] then 0 else |batch| - 1)
  }

  function SumBytes(batch: seq<Wire>): nat {
    if batch == [] then 0 else SumBytes(batch[..|batch| - 1]) + batch[|batch| - 1].bytes
  }

  function Normalize(e: Outbound): Option<OutboxError> {
    if e.Malformed? || !(0 < |e.wire.kind| <= 200) || e.version > MAX_BIGINT then Some(InvalidEvent)
    else if ArrayBytes([e.wire]) > EVENT_BYTES_MAX then Some(EventTooLarge)
    else None
  }

  /** The first error among the events, if any: every event is checked before the first write. */
  function NormalizeAll(events: seq<Outbound>): Option<OutboxError> {
    if events == [] then None
    else if Normalize(events[0]).Some? then Normalize(events[0])
    else NormalizeAll(events[1..])
  }

  function FreshRow(c: ClientId, e: Outbound, start: int): Row
    requires e.Event?
  {
    Row(e.id, c, e.wire, e.version, Pending, 0, start)
  }

  /** Whether a stored row is the same event for the same destination. */
  predicate SameEvent(r: Row, c: ClientId, e: Outbound) {
    e.Event? && r.id == e.id && r.client == c && r.wire == e.wire && r.version == e.version
  }

  function InsertRows(rows: seq<Row>, c: ClientId, events: seq<Outbound>, start: int): Option<seq<Row>>
    requires forall e :: e in events ==> e.Event?
    decreases |events|
  {
    if events == [] then Some(rows)
    else if events[0].id !in Ids(rows) then InsertRows(rows + [FreshRow(c, events[0], start)], c, events[1..], start)
    else if exists r :: r in rows && SameEvent(r, c, events[0]) then InsertRows(rows, c, events[1..], start)
    else None
  }

  function LockDestination(dests: map<ClientId, Destination>, c: ClientId, start: int): map<ClientId, Destination> {
    if c in dests then dests else dests[c := Destination(None, start, 0)]
  }

  lemma NormalizedEvents(events: seq<Outbound>)
    requires NormalizeAll(events).None?
    ensures forall e :: e in events ==> e.Event? && ArrayBytes([e.wire]) <= EVENT_BYTES_MAX
  {
  }

  /** Insert a list of events as one transaction: all of them, or none. */
  function Insert(db: Db, c: ClientId, events: seq<Outbound>, start: int): Result<Db, OutboxError> {
    match NormalizeAll(events)
    case Some(err) => Failure(err)
    case None =>
      NormalizedEvents(events);
      if events == [] then Success(db) else
      match InsertRows(db.rows, c, events, start)
      case None => Failure(EventIdConflict)
      case Some(rows) => Success(db.(rows := rows, dests := LockDestination(db.dests, c, start)))
  }

  // ---------------------------------------------------------------- leases and settlements

  predicate Expired(d: Destination, wall: int) {
    d.lease.None? || d.lease.value.until <= wall
  }

  predicate HoldsLease(db: Db, c: ClientId, token: Uuid) {
    c in db.dests && db.dests[c].lease.Some? && db.dests[c].lease.value.token == token
  }

  predicate LiveLease(db: Db, c: ClientId, token: Uuid, wall: int) {
    HoldsLease(db, c, token) && db.dests[c].lease.value.until > wall
  }

  /** Give the lease back: the destination becomes due with its oldest pending row. */
  function Release(db: Db, c: ClientId, token: Uuid, failures: nat, start: int): Db {
    if !HoldsLease(db, c, token) then db else
    var q := Queue(db, c);
    db.(dests := db.dests[c := Destination(None, if q == [] then start else q[0].due, failures)])
  }

  function Snapshot(q: seq<Row>, start: int): seq<PendingRow> {
    seq(Min(|q|, BATCH_MAX), i requires 0 <= i < |q| => PendingRow(q[i], q[i].due <= start))
  }

  function Lock(db: Db, c: ClientId, token: Uuid, wall: int): Db
    requires c in db.dests
  {
    db.(dests := db.dests[c := db.dests[c].(lease := Some(Lease(token, wall + LEASE_MS)))])
  }

  function TryClaim(db: Db, c: ClientId, token: Uuid, clock: Clock): (Db, Option<Claim>) {
    if c !in db.dests || db.dests[c].due > clock.start || !Expired(db.dests[c], clock.wall) then (db, None) else
    var d := db.dests[c];
    var locked := Lock(db, c, token, clock.wall);
    var q := Queue(db, c);
    if q == [] || q[0].due > clock.start then (Release(locked, c, token, d.failures, clock.start), None) else
    var uri := if c in db.clients then db.clients[c].uri else None;
    var disabled := c !in db.clients || db.clients[c].disabled;
    (locked, Some(Claim(c, token, uri, disabled, d.failures, Snapshot(q, clock.start))))
  }

  predicate CanRenew(db: Db, claim: Claim, wall: int) {
    && LiveLease(db, claim.client, claim.token, wall)
    && claim.client in db.clients
    && !db.clients[claim.client].disabled
    && claim.uri.Some? && db.clients[claim.client].uri == claim.uri
  }

  function TryRenew(db: Db, claim: Claim, wall: int): (Db, bool) {
    if CanRenew(db, claim, wall) then (Lock(db, claim.client, claim.token, wall), true) else (db, false)
  }

  function SettleRow(r: Row, c: ClientId, ids: set<Uuid>, o: Settlement, start: int): Row {
    if r.client != c || r.id !in ids || !r.status.Pending? then r else
    match o
    case Deliver => r.(status := Delivered)
    case Kill => r.(status := Dead)
    case Retry(delay) => r.(attempts := r.attempts + 1, due := start + delay,
                            status := if r.attempts + 1 >= MAX_ATTEMPTS then Dead else Pending)
  }

  function SettleRows(rows: seq<Row>, c: ClientId, ids: set<Uuid>, o: Settlement, start: int): (s: seq<Row>)
    ensures |s| == |rows|
    ensures forall i :: 0 <= i < |rows| ==> s[i] == SettleRow(rows[i], c, ids, o, start)
  {
    seq(|rows|, i requires 0 <= i < |rows| => SettleRow(rows[i], c, ids, o, start))
  }

  function NextFailures(claim: Claim, o: Settlement): nat {
    if o.Retry? then Min(claim.failures + 1, MAX_ATTEMPTS) else 0
  }

  function TrySettle(db: Db, claim: Claim, ids: set<Uuid>, o: Settlement, clock: Clock): (Db, bool) {
    if !LiveLease(db, claim.client, claim.token, clock.wall) then (db, false) else
    var settled := db.(rows := SettleRows(db.rows, claim.client, ids, o, clock.start));
    (Release(settled, claim.client, claim.token, NextFailures(claim, o), clock.start), true)
  }

  // ---------------------------------------------------------------- what a worker decides on its own

  function Wires(rows: seq<PendingRow>): (w: seq<Wire>)
    ensures |w| == |rows|
  {
    seq(|rows|, i requires 0 <= i < |rows| => rows[i].row.wire)
  }

  function BatchLimit(rows: seq<PendingRow>): nat {
    Min(|rows|, if rows != [] && rows[0].row.attempts > 0 then 1 else BATCH_MAX)
  }

  /** A row extends a batch of the rows before it when it is due and the array still fits. */
  predicate Extends(rows: seq<PendingRow>, n: nat)
    requires n < |rows|
  {
    rows[n].due && ArrayBytes(Wires(rows[..n + 1])) <= EVENT_BYTES_MAX
  }

  /** The batch is the longest prefix, within the limit, in which every row extends its predecessors. */
  ghost predicate IsBatch(rows: seq<PendingRow>, n: nat) {
    && n <= BatchLimit(rows)
    && (forall i :: 0 <= i < n ==> Extends(rows, i))
    && (n < BatchLimit(rows) ==> !Extends(rows, n))
  }

  function BatchFrom(rows: seq<PendingRow>, n: nat): (m: nat)
    requires n <= BatchLimit(rows)
    requires forall i :: 0 <= i < n ==> Extends(rows, i)
    ensures IsBatch(rows, m)
    decreases |rows| - n
  {
    if n < BatchLimit(rows) && Extends(rows, n) then BatchFrom(rows, n + 1) else n
  }

  function BatchSize(rows: seq<PendingRow>): (n: nat)
    ensures IsBatch(rows, n)
  {
    BatchFrom(rows, 0)
  }

  function BatchIds(rows: seq<PendingRow>, n: nat): set<Uuid>
    requires n <= |rows|
  {
    set i | 0 <= i < n :: rows[i].row.id
  }

  /** The exponential part of the retry delay plus a jitter below fifteen seconds. */
  function BackoffMs(failures: nat, jitter: nat): (ms: nat)
    requires jitter < 15000
    ensures 60000 <= ms < 3615000
  {
    PowersOfTwo();
    Min(60000 * Pow2(Min(Max(0, failures - 1), 6)), 3600000) + jitter
  }

  function Pow2(n: nat): nat { if n == 0 then 1 else 2 * Pow2(n - 1) }

  lemma PowersOfTwo()
    ensures Pow2(0) == 1 && Pow2(1) == 2 && Pow2(2) == 4 && Pow2(3) == 8 && Pow2(4) == 16
    ensures Pow2(5) == 32 && Pow2(6) == 64
  {
  }

  /** Waiting doubles with every failure until the one-hour cap. */
  lemma BackoffDoubles(failures: nat)
    ensures BackoffMs(failures + 1, 0) ==
            if failures == 0 then 60000 else Min(2 * BackoffMs(failures, 0), 3600000)
  {
    PowersOfTwo();
  }
}
