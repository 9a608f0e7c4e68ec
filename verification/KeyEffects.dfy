// What each rotation transaction and each answer of the key-set cache does, row by row.
module KeyEffects {
  import opened Common
  import opened KeyRotation
  import opened KeyHistory
  import opened KeyService

  /** A first key is created exactly in an empty table; a table with keys but no current one is refused. */
  lemma BootstrapIsExact(rows: Rows, key: Kid, c: Readings)
    ensures BootstrapRows(rows, key, c).Some? <==> HasCurrent(rows) || rows == map[]
    ensures HasCurrent(rows) ==> BootstrapRows(rows, key, c) == Some(rows)
    ensures rows == map[] ==> BootstrapRows(rows, key, c) == Some(map[key := KeyRow(Current, None, None, None, Some(c.first), None)])
  {
  }

  /** Scheduling adds one unmarked pending key to a table without one. */
  lemma ScheduleIsExact(rows: Rows, first: Kid, key: Kid, rotation: nat, c: Readings)
    requires HasCurrent(rows)
    ensures HasNext(rows) ==> ScheduleRows(rows, first, key, rotation, c) == Some(rows)
    ensures !HasNext(rows) && key in rows ==> ScheduleRows(rows, first, key, rotation, c).None?
    ensures !HasNext(rows) && key !in rows ==>
              ScheduleRows(rows, first, key, rotation, c) == Some(rows[key := KeyRow(Next, Some(rotation), None, None, None, None)])
  {
  }

  /** A reconciliation needs a current key; it touches a table only through the pending key it names. */
  lemma ReconcileIsExact(rows: Rows, kid: Kid, c: Readings)
    requires KeyRotation.Inv(rows)
    ensures ReconcileRows(rows, kid, c).None? <==> rows == map[]
    ensures rows != map[] ==>
              var after := ReconcileRows(rows, kid, c).value;
              && after.Keys == rows.Keys
              && (!(kid in rows && rows[kid].status.Next?) ==> after == rows)
              && (kid in rows && rows[kid].status.Next? ==> Reconciled(rows, after, kid, c))
  {
  }

  /** Unmarked: it is marked now and waits 300 s. Marked and waiting: nothing. Due: it becomes current and the current one retires, both now. */
  predicate Reconciled(rows: Rows, after: Rows, kid: Kid, c: Readings)
    requires kid in rows && after.Keys == rows.Keys
  {
    var row := rows[kid];
    var due := row.activateAfter.Some? && c.observed >= row.activateAfter.value;
    forall k :: k in rows ==>
      after[k] ==
        if k == kid && row.publishedAt.None? then row.(publishedAt := Some(c.first), activateAfter := Some(c.first + 300_000))
        else if k == kid && due then row.(status := Current, activatedAt := Some(c.second))
        else if due && rows[k].status.Current? then rows[k].(status := Retired, retiredAt := Some(c.first))
        else rows[k]
  }

  /** Published are the current key, the pending one and those retired less than 24 h ago, and no other. */
  lemma PublishedIsExact(rows: Rows, t: Time, k: Kid)
    requires KeyRotation.Inv(rows)
    ensures k in Published(rows, t) <==>
              k in rows && (rows[k].status == Current || rows[k].status == Next || rows[k].retiredAt.value > t - 24 * 3600 * 1000)
  {
  }

  /** A cached answer is used while it is younger than 60 s; otherwise a read that takes at most 5 s and finds keys is cached from its start. */
  lemma ServeIsExact(cache: Option<Cached>, h: History, now: Time, seen: nat, elapsed: nat)
    ensures var (after, answer) := Serve(cache, h, now, seen, elapsed);
            var keys := Published(StateAt(h, now + seen), now + seen);
            && (cache.Some? && now < cache.value.at + 60_000 ==> after == cache && answer == Some(Answer(cache.value.keys, cache.value.read, now)))
            && (cache.None? || now >= cache.value.at + 60_000 ==>
                  && (elapsed <= 5_000 && keys != {} <==> answer.Some?)
                  && (answer.Some? ==> answer == Some(Answer(keys, now + seen, now + elapsed)) && after == Some(Cached(keys, now, now + seen)))
                  && (answer.None? ==> after == cache))
  {
  }

  /** Every answer given is kept on record; an invalidation makes the next request read the table; a commit changes the table alone. */
  lemma ReactionIsExact(p: Process, now: Time, seen: nat, elapsed: nat, c: Commit)
    ensures var q := React(p, Asked(now, seen, elapsed));
            var answer := Serve(p.cache, p.h, now, seen, elapsed).1;
            q.h == p.h && (answer.Some? ==> q.answers == p.answers + [answer.value]) && (answer.None? ==> q.answers == p.answers)
    ensures var q := React(React(p, Invalidated), Asked(now, seen, elapsed));
            var keys := Published(StateAt(p.h, now + seen), now + seen);
            && q.h == p.h
            && (elapsed <= 5_000 && keys != {} ==> q.answers == p.answers + [Answer(keys, now + seen, now + elapsed)] && q.cache == Some(Cached(keys, now, now + seen)))
            && (elapsed > 5_000 || keys == {} ==> q.answers == p.answers && q.cache == None)
    ensures React(p, Committed(c)) == Process(p.h + [c], p.cache, p.answers)
  {
  }

  /** A read at `t` sees the rows of the last commit made by then. */
  lemma {:induction false} ReadsSeeTheLastCommit(h: History, t: Time, i: nat)
    requires i < |h| && h[i].at <= t && forall j :: i < j < |h| ==> h[j].at > t
    ensures StateAt(h, t) == h[i].rows
  {
    if i < |h| - 1 {
      ReadsSeeTheLastCommit(h[..|h| - 1], t, i);
    }
  }

  /** Commits follow one another: each reads what the one before left, after that became visible, and none is visible before it was made. */
  lemma {:induction false} CommitsFollow(h: History, i: nat)
    requires ValidHistory(h) && i < |h|
    ensures h[i].clock.observed <= h[i].clock.first <= h[i].clock.second <= h[i].at
    ensures i > 0 ==> h[i - 1].at <= h[i].clock.observed
    ensures Execute(if i == 0 then map[] else h[i - 1].rows, h[i].txn, h[i].clock) == Some(h[i].rows)
  {
    if i < |h| - 1 {
      CommitsFollow(h[..|h| - 1], i);
    }
  }

  /** One visit reads, writes and commits in this order; a lost or failed one leaves the table as it was, and takes its time all the same. */
  lemma VisitIsExact(m: Moment, v: Visit)
    ensures var after, c := Visited(m, v), Readings(m.now + v.wait, m.now + v.wait + v.first, m.now + v.wait + v.first + v.second);
            && after.now == m.now + v.wait + v.first + v.second + v.commit
            && (v.lost || Execute(m.rows, v.txn, c).None? ==> after.rows == m.rows)
            && (!v.lost && Execute(m.rows, v.txn, c).Some? ==> Some(after.rows) == Execute(m.rows, v.txn, c))
  {
  }

  /** Visits take effect one after another; a call's own visit comes after those of the others. */
  lemma VisitsFollow(m: Moment, visits: seq<Visit>, i: nat, txn: Txn, t: Turn)
    requires i < |visits|
    ensures VisitedAll(m, []) == m && VisitedAll(m, visits[..i + 1]) == Visited(VisitedAll(m, visits[..i]), visits[i])
    ensures VisitedAll(m, TurnOf(txn, t)) == Visited(VisitedAll(m, t.others), Visit(txn, t.wait, t.first, t.second, t.commit, t.lost))
  {
    assert visits[..i + 1][..i] == visits[..i];
    TurnFollows(m, txn, t);
  }

  /** A read accepts exactly the tables that the schema's checks leave: at most one current and one next key, complete markers of at least 300 s, an identified pending key. */
  lemma ReadIsExact(rows: Rows)
    ensures Readable(rows) <==>
              && (forall a, b :: a in rows && b in rows && rows[a].status == rows[b].status && rows[a].status != Retired ==> a == b)
              && (forall k :: k in rows && rows[k].status != Retired ==>
                    && (rows[k].publishedAt.None? <==> rows[k].activateAfter.None?)
                    && (rows[k].publishedAt.Some? && rows[k].activateAfter.Some? ==> rows[k].activateAfter.value - rows[k].publishedAt.value >= 300_000)
                    && (rows[k].status == Next ==> rows[k].rotation != None && rows[k].activatedAt == None && rows[k].retiredAt == None))
  {
  }

  /** A refused read stops every transaction. */
  lemma UnreadableTablesStop(rows: Rows, txn: Txn, c: Readings)
    ensures !Readable(rows) ==> Execute(rows, txn, c).None?
    ensures Readable(rows) && txn.Bootstrap? ==> Execute(rows, txn, c) == BootstrapRows(rows, txn.key, c)
    ensures Readable(rows) && txn.Schedule? ==> Execute(rows, txn, c) == ScheduleRows(rows, txn.first, txn.key, txn.rotation, c)
    ensures Readable(rows) && txn.Reconcile? ==> Execute(rows, txn, c) == ReconcileRows(rows, txn.kid, c)
  {
  }
}
