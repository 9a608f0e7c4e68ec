// Signing-key rotation: the key table and the three transactions that change it.
module KeyRotation {
  import opened Common

  type Kid = nat

  /** Database time in milliseconds. */
  type Time = int

  const PREPUBLICATION: Time := 300_000

  datatype KeyStatus = Next | Current | Retired

  datatype KeyRow = KeyRow(status: KeyStatus, rotation: Option<nat>, publishedAt: Option<Time>, activateAfter: Option<Time>,
                           activatedAt: Option<Time>, retiredAt: Option<Time>)

  type Rows = map<Kid, KeyRow>

  /** A transaction with the key material it would insert. Any process may run any of them; a reconciliation may name a stale key. */
  datatype Txn = Bootstrap(key: Kid) | Schedule(first: Kid, key: Kid, rotation: nat) | Reconcile(kid: Kid)

  /** The clock readings of one transaction: of its read, then of its statements. */
  datatype Readings = Readings(observed: Time, first: Time, second: Time)

  predicate Ordered(c: Readings) {
    c.observed <= c.first <= c.second
  }

  predicate HasCurrent(rows: Rows) {
    exists k :: k in rows && rows[k].status.Current?
  }

  predicate HasNext(rows: Rows) {
    exists k :: k in rows && rows[k].status.Next?
  }

  // ---------------------------------------------------------------- what every read demands

  predicate AtMostOne(rows: Rows) {
    && (forall a, b :: a in rows && b in rows && rows[a].status.Current? && rows[b].status.Current? ==> a == b)
    && (forall a, b :: a in rows && b in rows && rows[a].status.Next? && rows[b].status.Next? ==> a == b)
  }

  predicate RowReadable(r: KeyRow) {
    && r.publishedAt.Some? == r.activateAfter.Some?
    && (r.publishedAt.Some? ==> r.activateAfter.value - r.publishedAt.value >= PREPUBLICATION)
    && (r.status.Next? ==> r.rotation.Some? && r.activatedAt.None? && r.retiredAt.None?)
  }

  predicate Readable(rows: Rows) {
    AtMostOne(rows) && forall k :: k in rows && !rows[k].status.Retired? ==> RowReadable(rows[k])
  }

  // ---------------------------------------------------------------- the transactions

  /** Only an empty table is a fresh installation. */
  function BootstrapRows(rows: Rows, key: Kid, c: Readings): Option<Rows> {
    if HasCurrent(rows) then Some(rows)
    else if rows != map[] then None
    else Some(map[key := KeyRow(Current, None, None, None, Some(c.first), None)])
  }

  function ScheduleRows(rows: Rows, first: Kid, key: Kid, rotation: nat, c: Readings): Option<Rows> {
    match BootstrapRows(rows, first, c)
    case None => None
    case Some(ready) =>
      if HasNext(rows) then Some(ready)
      else if key in ready then None
      else Some(ready[key := KeyRow(Next, Some(rotation), None, None, None, None)])
  }

  function RetireCurrent(rows: Rows, at: Time): Rows {
    map k | k in rows :: if rows[k].status.Current? then rows[k].(status := Retired, retiredAt := Some(at)) else rows[k]
  }

  /** Marks a key that an earlier commit published, or activates it once its waiting time is over. */
  function ReconcileRows(rows: Rows, kid: Kid, c: Readings): Option<Rows> {
    if !HasCurrent(rows) then None
    else if kid !in rows || !rows[kid].status.Next? then Some(rows)
    else if rows[kid].publishedAt.None? then
      Some(rows[kid := rows[kid].(publishedAt := Some(c.first), activateAfter := Some(c.first + PREPUBLICATION))])
    else if rows[kid].activateAfter.None? || c.observed < rows[kid].activateAfter.value then Some(rows)
    else Some(RetireCurrent(rows, c.first)[kid := rows[kid].(status := Current, activatedAt := Some(c.second))])
  }

  /** A failed transaction rolls back: `None`. */
  function Execute(rows: Rows, txn: Txn, c: Readings): Option<Rows> {
    if !Readable(rows) then None else
    match txn
    case Bootstrap(key) => BootstrapRows(rows, key, c)
    case Schedule(first, key, rotation) => ScheduleRows(rows, first, key, rotation, c)
    case Reconcile(kid) => ReconcileRows(rows, kid, c)
  }

  // ---------------------------------------------------------------- invariant

  /** The life of one key: published, then current for a while, then retired; the first key of all is never pending. */
  predicate RowOk(r: KeyRow) {
    && RowReadable(r)
    && (r.status.Next? <==> r.activatedAt.None?)
    && (r.status.Retired? <==> r.retiredAt.Some?)
    && (r.activatedAt.Some? && r.publishedAt.Some? ==> r.activatedAt.value >= r.activateAfter.value)
    && (r.publishedAt.None? && !r.status.Next? ==> r.rotation.None?)
  }

  ghost predicate Inv(rows: Rows) {
    && AtMostOne(rows)
    && (rows != map[] ==> HasCurrent(rows))
    && (forall k :: k in rows ==> RowOk(rows[k]))
  }

  /** How a row may move in one transaction. */
  predicate Ages(before: KeyRow, after: KeyRow) {
    || after == before
    || (before.status.Next? && before.publishedAt.None? && after.status.Next? && after.publishedAt.Some?)
    || (before.status.Next? && before.publishedAt.Some? && after == before.(status := Current, activatedAt := after.activatedAt))
    || (before.status.Current? && after == before.(status := Retired, retiredAt := after.retiredAt))
  }

  lemma BootstrapKeeps(rows: Rows, key: Kid, c: Readings)
    requires Inv(rows)
    ensures BootstrapRows(rows, key, c).Some? && Inv(BootstrapRows(rows, key, c).value) && HasCurrent(BootstrapRows(rows, key, c).value)
  {
    var after := BootstrapRows(rows, key, c).value;
    if rows == map[] {
      assert after[key].status.Current?;
    }
  }

  lemma ScheduleKeeps(rows: Rows, first: Kid, key: Kid, rotation: nat, c: Readings)
    requires Inv(rows) && ScheduleRows(rows, first, key, rotation, c).Some?
    ensures var after := ScheduleRows(rows, first, key, rotation, c).value;
            Inv(after) && HasCurrent(after) && HasNext(after) && (HasNext(rows) ==> after == rows)
  {
    BootstrapKeeps(rows, first, c);
    var ready, after := BootstrapRows(rows, first, c).value, ScheduleRows(rows, first, key, rotation, c).value;
    var k :| k in ready && ready[k].status.Current?;
    if !HasNext(rows) {
      assert after[key].status.Next?;
      assert k in after && after[k].status.Current?;
    }
  }

  lemma ActivationKeeps(rows: Rows, kid: Kid, c: Readings)
    requires Inv(rows) && Ordered(c) && kid in rows && rows[kid].status.Next? && rows[kid].publishedAt.Some? && c.observed >= rows[kid].activateAfter.value
    ensures var after := RetireCurrent(rows, c.first)[kid := rows[kid].(status := Current, activatedAt := Some(c.second))];
            Inv(after) && HasCurrent(after)
  {
    var after := RetireCurrent(rows, c.first)[kid := rows[kid].(status := Current, activatedAt := Some(c.second))];
    assert after[kid].status.Current?;
  }

  /** Every transaction keeps the table in order; once there is a key there is exactly one current key and at most one next key. */
  lemma ExecuteKeepsInv(rows: Rows, txn: Txn, c: Readings)
    requires Inv(rows) && Ordered(c)
    ensures Readable(rows)
    ensures Execute(rows, txn, c).Some? ==> Inv(Execute(rows, txn, c).value) && HasCurrent(Execute(rows, txn, c).value)
  {
    match txn
    case Bootstrap(key) => BootstrapKeeps(rows, key, c);
    case Schedule(first, key, rotation) =>
      if ScheduleRows(rows, first, key, rotation, c).Some? {
        ScheduleKeeps(rows, first, key, rotation, c);
      }
    case Reconcile(kid) =>
      if HasCurrent(rows) {
        if kid in rows && rows[kid].status.Next? && rows[kid].publishedAt.Some? && c.observed >= rows[kid].activateAfter.value {
          ActivationKeeps(rows, kid, c);
        }
        var k :| k in rows && rows[k].status.Current?;
        if ReconcileRows(rows, kid, c).Some? && kid in rows && rows[kid].status.Next? && rows[kid].publishedAt.None? {
          assert k in ReconcileRows(rows, kid, c).value && ReconcileRows(rows, kid, c).value[k].status.Current?;
        }
      }
  }

  /** No row is ever removed, and each moves only forward. */
  lemma RowsOnlyAge(rows: Rows, txn: Txn, c: Readings, k: Kid)
    requires Inv(rows) && Ordered(c) && Execute(rows, txn, c).Some? && k in rows
    ensures k in Execute(rows, txn, c).value && Ages(rows[k], Execute(rows, txn, c).value[k])
  {
    assert HasCurrent(rows);
  }

  /** New rows are either the first key of an empty table or pending and unmarked. */
  lemma NewRowsArePending(rows: Rows, txn: Txn, c: Readings, k: Kid)
    requires Inv(rows) && Execute(rows, txn, c).Some? && k in Execute(rows, txn, c).value && k !in rows
    ensures var after := Execute(rows, txn, c).value[k];
            (rows == map[] && after.status.Current?) || (after.status.Next? && after.publishedAt.None?)
  {
  }

  /** A reconciliation that names no pending key changes nothing, and any reconciliation activates only the key it names. */
  lemma ReconcileActivatesOnlyItsKey(rows: Rows, kid: Kid, c: Readings, k: Kid)
    requires Inv(rows) && Ordered(c) && Execute(rows, Reconcile(kid), c).Some?
    ensures var after := Execute(rows, Reconcile(kid), c).value;
            && (kid !in rows || !rows[kid].status.Next? ==> after == rows)
            && (k in after && after[k].status.Current? && !(k in rows && rows[k].status.Current?) ==>
                  && k == kid && k in rows && rows[k].status.Next? && rows[k].publishedAt.Some?
                  && rows[k].publishedAt.value + PREPUBLICATION <= c.observed)
  {
  }

  /** Scheduling while a key is pending adds no key. */
  lemma RepeatedScheduleAddsNothing(rows: Rows, first: Kid, key: Kid, rotation: nat, c: Readings)
    requires Inv(rows) && HasNext(rows)
    ensures Execute(rows, Schedule(first, key, rotation), c) == Some(rows)
  {
    assert rows != map[];
  }

  // ---------------------------------------------------------------- interleaved runs

  /** One transaction of some process; `lost` when its commit never happens. */
  datatype Attempt = Attempt(txn: Txn, clock: Readings, lost: bool)

  function After(rows: Rows, a: Attempt): Rows {
    if a.lost || Execute(rows, a.txn, a.clock).None? then rows else Execute(rows, a.txn, a.clock).value
  }

  function RunAll(rows: Rows, attempts: seq<Attempt>): Rows {
    if attempts == [] then rows else After(RunAll(rows, attempts[..|attempts| - 1]), attempts[|attempts| - 1])
  }

  predicate AllOrdered(attempts: seq<Attempt>) {
    forall a :: a in attempts ==> Ordered(a.clock)
  }

  lemma {:induction false} RunKeepsInv(rows: Rows, attempts: seq<Attempt>)
    requires Inv(rows) && AllOrdered(attempts)
    ensures Inv(RunAll(rows, attempts))
  {
    if attempts != [] {
      var init, last := attempts[..|attempts| - 1], attempts[|attempts| - 1];
      RunKeepsInv(rows, init);
      ExecuteKeepsInv(RunAll(rows, init), last.txn, last.clock);
    }
  }

  /** After any interleaving on an installation that has a key: exactly one current key, at most one next key. */
  lemma ExactlyOneCurrent(rows: Rows, attempts: seq<Attempt>)
    requires Inv(rows) && rows != map[] && AllOrdered(attempts)
    ensures var after := RunAll(rows, attempts);
            && (exists k :: k in after && after[k].status.Current? && forall j :: j in after && after[j].status.Current? ==> j == k)
            && (forall a, b :: a in after && b in after && after[a].status.Next? && after[b].status.Next? ==> a == b)
  {
    RunKeepsInv(rows, attempts);
    var k :| k in rows;
    KeysStay(rows, attempts, k);
  }

  lemma {:induction false} KeysStay(rows: Rows, attempts: seq<Attempt>, k: Kid)
    requires Inv(rows) && AllOrdered(attempts) && k in rows
    ensures k in RunAll(rows, attempts)
    ensures rows[k].status.Retired? ==> RunAll(rows, attempts)[k] == rows[k]
    ensures rows[k].status.Current? ==> !RunAll(rows, attempts)[k].status.Next?
  {
    if attempts != [] {
      var init, last := attempts[..|attempts| - 1], attempts[|attempts| - 1];
      KeysStay(rows, init, k);
      RunKeepsInv(rows, init);
      if !last.lost && Execute(RunAll(rows, init), last.txn, last.clock).Some? {
        RowsOnlyAge(RunAll(rows, init), last.txn, last.clock, k);
      }
    }
  }

  /** Retirement is final: whatever runs, a retired row never changes again. */
  lemma RetirementIsFinal(rows: Rows, attempts: seq<Attempt>, k: Kid)
    requires Inv(rows) && AllOrdered(attempts) && k in rows && rows[k].status.Retired?
    ensures k in RunAll(rows, attempts) && RunAll(rows, attempts)[k] == rows[k]
  {
    KeysStay(rows, attempts, k);
  }

  predicate Scheduling(a: Attempt) {
    a.txn.Schedule? || a.txn.Bootstrap?
  }

  /** While a key is pending no number of scheduling calls, by any processes, changes the table. */
  lemma {:induction false} PendingAbsorbsSchedules(rows: Rows, attempts: seq<Attempt>)
    requires Inv(rows) && HasNext(rows) && forall a :: a in attempts ==> Scheduling(a)
    ensures RunAll(rows, attempts) == rows
  {
    if attempts != [] {
      var init, last := attempts[..|attempts| - 1], attempts[|attempts| - 1];
      PendingAbsorbsSchedules(rows, init);
      assert last in attempts && Scheduling(last);
      assert rows != map[];
    }
  }
}
