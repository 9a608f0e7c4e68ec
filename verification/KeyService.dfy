// The rotation service and the published key set as running processes see them:
// between any two database visits of one call, other processes may visit too.
module KeyService {
  import opened Common
  import opened KeyRotation
  import opened KeyHistory

  /** One database visit, with the time that passes before and between its steps; `lost` when its commit never happens. */
  datatype Visit = Visit(txn: Txn, wait: nat, first: nat, second: nat, commit: nat, lost: bool)

  /** The timing of one visit of a call, after the visits of other processes that come before it. */
  datatype Turn = Turn(others: seq<Visit>, wait: nat, first: nat, second: nat, commit: nat, lost: bool)

  datatype PendingRotation = PendingRotation(id: nat, kid: Kid, publishedAt: Option<Time>, activateAfter: Option<Time>)

  datatype KeyState = KeyState(kid: Kid, rotatedAt: Option<Time>, rotation: Option<PendingRotation>)

  /** What a status answer must say about the table it was read from. */
  predicate Describes(s: KeyState, rows: Rows) {
    && s.kid in rows && rows[s.kid].status.Current? && s.rotatedAt == rows[s.kid].activatedAt
    && (s.rotation.Some? <==> HasNext(rows))
    && (s.rotation.Some? ==>
          var p := s.rotation.value;
          && p.kid in rows && rows[p.kid].status.Next? && rows[p.kid].rotation == Some(p.id)
          && rows[p.kid].publishedAt == p.publishedAt && rows[p.kid].activateAfter == p.activateAfter)
  }

  /**
   * A call of the signer that nobody interferes with, made at `now`: a due pending key becomes current and is the answer,
   * an unmarked one is marked and waits 300 s from then, and otherwise nothing changes.
   */
  predicate QuietCall(before: Rows, after: Rows, now: Time, answer: Option<Kid>) {
    && (forall k :: k in before && before[k].status.Next? ==> Helped(before, after, now, answer, k))
    && (!HasNext(before) ==> after == before)
    && after.Keys == before.Keys
    && answer.Some? && answer.value in after && after[answer.value].status.Current?
  }

  predicate Helped(before: Rows, after: Rows, now: Time, answer: Option<Kid>, k: Kid)
    requires k in before
  {
    && k in after
    && (before[k].publishedAt.None? ==>
          && after[k].status.Next? && after[k].publishedAt.Some? && after[k].publishedAt.value >= now
          && after[k].activateAfter == Some(after[k].publishedAt.value + 300_000)
          && forall j :: j in before && j != k ==> j in after && after[j] == before[j])
    && (before[k].publishedAt.Some? && before[k].activateAfter.Some? && now >= before[k].activateAfter.value ==>
          && answer == Some(k) && after[k] == before[k].(status := Current, activatedAt := after[k].activatedAt)
          && after[k].activatedAt.Some? && after[k].activatedAt.value >= now)
    && (before[k].publishedAt.Some? && before[k].activateAfter.Some? && now < before[k].activateAfter.value ==> after == before)
  }

  predicate Quiet(t: Turn) {
    t.others == [] && !t.lost
  }

  /** A table without a pending key gets exactly one; a table with one stays. */
  predicate NewlyPending(before: Rows, after: Rows, key: Kid, pending: Kid) {
    && (HasNext(before) ==> after == before && pending in before && before[pending].status.Next?)
    && (!HasNext(before) ==>
          && pending == key && after.Keys == before.Keys + {key} && (forall k :: k in before ==> k in after && after[k] == before[k])
          && after[key].status.Next? && after[key].publishedAt.None? && after[key].activatedAt.None?)
  }

  /** After a scheduling call that nobody interferes with there is exactly the key that was pending, or the new one, and it is marked. */
  predicate Scheduled(before: Rows, after: Rows, key: Kid) {
    && after.Keys == (if HasNext(before) then before.Keys else before.Keys + {key})
    && (forall k :: k in before && before[k].status.Next? ==> k in after && after[k].publishedAt.Some?)
    && (!HasNext(before) ==> key in after && after[key].publishedAt.Some?)
  }

  /** A pending key that the next signer must mark or activate. */
  predicate NeedsHelp(rows: Rows, now: Time) {
    exists k :: k in rows && rows[k].status.Next? && (rows[k].publishedAt.None? || (rows[k].activateAfter.Some? && now >= rows[k].activateAfter.value))
  }

  predicate Continues(before: History, after: History) {
    before <= after
  }

  // ---------------------------------------------------------------- visits in time

  /** What the database holds, and its clock. */
  datatype Moment = Moment(rows: Rows, now: Time)

  function ClockOf(now: Time, v: Visit): Readings {
    Readings(now + v.wait, now + v.wait + v.first, now + v.wait + v.first + v.second)
  }

  predicate Commits(m: Moment, v: Visit) {
    !v.lost && Execute(m.rows, v.txn, ClockOf(m.now, v)).Some?
  }

  /** One visit: its transaction commits unless it fails or is lost, and time passes either way. */
  function Visited(m: Moment, v: Visit): Moment {
    var clock := ClockOf(m.now, v);
    Moment(if Commits(m, v) then Execute(m.rows, v.txn, clock).value else m.rows, clock.second + v.commit)
  }

  function VisitedAll(m: Moment, visits: seq<Visit>): Moment {
    if visits == [] then m else Visited(VisitedAll(m, visits[..|visits| - 1]), visits[|visits| - 1])
  }

  function TurnOf(txn: Txn, t: Turn): seq<Visit> {
    t.others + [Visit(txn, t.wait, t.first, t.second, t.commit, t.lost)]
  }

  lemma TurnFollows(m: Moment, txn: Txn, t: Turn)
    ensures VisitedAll(m, TurnOf(txn, t)) == Visited(VisitedAll(m, t.others), Visit(txn, t.wait, t.first, t.second, t.commit, t.lost))
  {
    var visits := TurnOf(txn, t);
    assert visits[..|visits| - 1] == t.others;
  }

  lemma {:induction false} VisitsAppend(m: Moment, a: seq<Visit>, b: seq<Visit>)
    ensures VisitedAll(m, a + b) == VisitedAll(VisitedAll(m, a), b)
  {
    if b == [] {
      assert a + b == a;
    } else {
      var init := b[..|b| - 1];
      VisitsAppend(m, a, init);
      assert (a + b)[..|a + b| - 1] == a + init;
    }
  }

  /** Where a call of the signer starts from: an empty table gets its first key, after and before other processes' visits. */
  function Started(m: Moment, key: Kid, bootstrap: Turn, afterBootstrap: seq<Visit>): Moment {
    if HasCurrent(m.rows) then m else VisitedAll(m, TurnOf(Bootstrap(key), bootstrap) + (if bootstrap.lost then [] else afterBootstrap))
  }

  /** A table that needs help gets one reconciliation of its pending key; a strict call gives up when that is lost. */
  predicate HelpedAlong(m: Moment, after: Moment, strict: bool, maintenance: Turn, late: seq<Visit>, answered: bool) {
    if NeedsHelp(m.rows, m.now) then
      exists next: Kid :: next in m.rows && m.rows[next].status.Next? && answered == !(strict && maintenance.lost)
        && after == VisitedAll(m, TurnOf(KeyRotation.Reconcile(next), maintenance) + (if answered then late else []))
    else answered && after == m
  }

  /** A strict call of the signer, and one more read after further visits. */
  ghost predicate Reported(m: Moment, after: Moment, maintenance: Turn, late: seq<Visit>, later: seq<Visit>, s: Option<KeyState>) {
    && (s.None? <==> NeedsHelp(m.rows, m.now) && maintenance.lost)
    && (s.None? ==> HelpedAlong(m, after, true, maintenance, late, false))
    && (s.Some? ==> Describes(s.value, after.rows) && exists seen: Moment :: HelpedAlong(m, seen, true, maintenance, late, true) && after == VisitedAll(seen, later))
  }

  // ---------------------------------------------------------------- the service

  class SigningKeyRotation {
    var rows: Rows
    var now: Time
    ghost var log: History

    ghost predicate Valid()
      reads this
    {
      ValidHistory(log) && rows == RowsAfter(log) && Stamped(log, now)
    }

    function M(): Moment
      reads this
    {
      Moment(rows, now)
    }

    constructor (start: Time)
      ensures Valid() && log == [] && rows == map[]
    {
      rows, now, log := map[], start, [];
    }

    /** One transaction; `done` tells whether it committed. */
    method Transact(v: Visit) returns (done: bool)
      requires Valid()
      modifies this
      ensures Valid() && Continues(old(log), log) && old(now) <= now
      ensures M() == Visited(old(M()), v) && done == Commits(old(M()), v)
      ensures done ==> HasCurrent(rows) && (v.txn.Schedule? ==> HasNext(rows))
    {
      var clock := ClockOf(now, v);
      HistoryKeepsInv(log);
      ExecuteKeepsInv(rows, v.txn, clock);
      if v.txn.Schedule? && ScheduleRows(rows, v.txn.first, v.txn.key, v.txn.rotation, clock).Some? {
        ScheduleKeeps(rows, v.txn.first, v.txn.key, v.txn.rotation, clock);
      }
      now := clock.second + v.commit;
      var after := Execute(rows, v.txn, clock);
      done := !v.lost && after.Some?;
      assert Ordered(clock);
      if done {
        Extend(log, Commit(v.txn, clock, now, after.value));
        log := log + [Commit(v.txn, clock, now, after.value)];
        rows := after.value;
      }
    }

    /** Other processes at work. */
    method Others(visits: seq<Visit>)
      requires Valid()
      modifies this
      ensures Valid() && Continues(old(log), log) && old(now) <= now
      ensures M() == VisitedAll(old(M()), visits)
    {
      for i := 0 to |visits|
        invariant Valid() && Continues(old(log), log) && old(now) <= now
        invariant M() == VisitedAll(old(M()), visits[..i])
      {
        assert visits[..i + 1][..i] == visits[..i];
        var done := Transact(visits[i]);
      }
      assert visits[..|visits|] == visits;
    }

    /** A reconciliation, after the visits of others. */
    method Reconcile(kid: Kid, turn: Turn) returns (done: bool)
      requires Valid() && HasCurrent(rows)
      modifies this
      ensures Valid() && Continues(old(log), log) && old(now) <= now && HasCurrent(rows)
      ensures M() == VisitedAll(old(M()), TurnOf(KeyRotation.Reconcile(kid), turn))
      ensures done <==> !turn.lost
    {
      var visit := Visit(KeyRotation.Reconcile(kid), turn.wait, turn.first, turn.second, turn.commit, turn.lost);
      TurnFollows(M(), KeyRotation.Reconcile(kid), turn);
      Others(turn.others);
      KeysSurvive(old(log), log);
      ghost var before, m := log, M();
      HistoryKeepsInv(log);
      ReconciliationsCommit(rows, kid, ClockOf(now, visit));
      done := Transact(visit);
      assert M() == Visited(m, visit) && done == Commits(m, visit);
      KeysSurvive(before, log);
    }

    /** An empty table gets its first key, and is read again whatever others did meanwhile. */
    method FirstKey(key: Kid, bootstrap: Turn, afterBootstrap: seq<Visit>) returns (ready: bool)
      requires Valid()
      modifies this
      ensures Valid() && Continues(old(log), log)
      ensures ready <==> HasCurrent(old(rows)) || !bootstrap.lost
      ensures ready ==> HasCurrent(rows)
      ensures M() == Started(old(M()), key, bootstrap, afterBootstrap)
      ensures HasCurrent(old(rows)) || old(rows) == map[]
    {
      HistoryKeepsInv(log);
      ready := true;
      if !HasCurrent(rows) {
        TurnFollows(M(), Bootstrap(key), bootstrap);
        VisitsAppend(M(), TurnOf(Bootstrap(key), bootstrap), if bootstrap.lost then [] else afterBootstrap);
        Others(bootstrap.others);
        HistoryKeepsInv(log);
        ready := Transact(Visit(Bootstrap(key), bootstrap.wait, bootstrap.first, bootstrap.second, bootstrap.commit, bootstrap.lost));
        if ready {
          ghost var booted := log;
          Others(afterBootstrap);
          KeysSurvive(booted, log);
        }
      }
    }

    /** Helps a rotation along if its pending key is due for it; a strict call gives up when that fails. */
    method HelpAlong(strict: bool, maintenance: Turn, late: seq<Visit>) returns (answered: bool)
      requires Valid() && HasCurrent(rows)
      modifies this
      ensures Valid() && Continues(old(log), log) && HasCurrent(rows)
      ensures HelpedAlong(old(M()), M(), strict, maintenance, late, answered)
    {
      HistoryKeepsInv(log);
      answered := true;
      if HasNext(rows) {
        var next :| next in rows && rows[next].status.Next?;
        if rows[next].publishedAt.None? || now >= rows[next].activateAfter.value {
          assert NeedsHelp(rows, now);
          VisitsAppend(M(), TurnOf(KeyRotation.Reconcile(next), maintenance), late);
          var turn := TurnOf(KeyRotation.Reconcile(next), maintenance);
          assert turn + [] == turn;
          var done := Reconcile(next, maintenance);
          if !done && strict {
            return false;
          }
          ghost var helped := log;
          Others(late);
          KeysSurvive(helped, log);
        }
      }
    }

    /** The signer: bootstraps an empty table, helps a due rotation along, and answers from a fresh read. */
    method Current(strict: bool, key: Kid, bootstrap: Turn, afterBootstrap: seq<Visit>, maintenance: Turn, late: seq<Visit>) returns (kid: Option<Kid>)
      requires Valid()
      modifies this
      ensures Valid() && Continues(old(log), log)
      ensures kid.Some? ==> kid.value in rows && rows[kid.value].status.Current?
      ensures HasCurrent(old(rows)) || !bootstrap.lost ==>
                HelpedAlong(Started(old(M()), key, bootstrap, afterBootstrap), M(), strict, maintenance, late, kid.Some?)
      ensures !HasCurrent(old(rows)) && bootstrap.lost ==> kid.None? && M() == Started(old(M()), key, bootstrap, afterBootstrap)
      ensures kid.None? ==> strict || old(rows) == map[]
      ensures HasCurrent(old(rows)) && Quiet(maintenance) && late == [] ==> QuietCall(old(rows), rows, old(now), kid)
      ensures HasCurrent(old(rows)) && strict && maintenance.lost && NeedsHelp(old(rows), old(now)) ==> kid.None?
    {
      var ready := FirstKey(key, bootstrap, afterBootstrap);
      if !ready {
        return None;
      }
      ghost var before := M();
      HistoryKeepsInv(log);
      var answered := HelpAlong(strict, maintenance, late);
      if !answered {
        return None;
      }
      HistoryKeepsInv(log);
      var current :| current in rows && rows[current].status.Current?;
      kid := Some(current);
      if Quiet(maintenance) && late == [] {
        QuietHelp(before, M(), strict, maintenance, kid.value);
      }
    }

    method Status(key: Kid, bootstrap: Turn, afterBootstrap: seq<Visit>, maintenance: Turn, late: seq<Visit>, later: seq<Visit>) returns (s: Option<KeyState>)
      requires Valid()
      modifies this
      ensures Valid() && Continues(old(log), log)
      ensures s.Some? ==> Describes(s.value, rows)
      ensures HasCurrent(old(rows)) || !bootstrap.lost ==>
                Reported(Started(old(M()), key, bootstrap, afterBootstrap), M(), maintenance, late, later, s)
      ensures !HasCurrent(old(rows)) && bootstrap.lost ==> s.None? && M() == Started(old(M()), key, bootstrap, afterBootstrap)
      ensures HasCurrent(old(rows)) && Quiet(maintenance) && late == [] && later == [] ==>
                s.Some? && QuietCall(old(rows), rows, old(now), Some(s.value.kid))
    {
      var signer := Current(true, key, bootstrap, afterBootstrap, maintenance, late);
      if signer.None? {
        return None;
      }
      ghost var seen, at := log, M();
      Others(later);
      KeysSurvive(seen, log);
      HistoryKeepsInv(log);
      var current :| current in rows && rows[current].status.Current?;
      assert later == [] ==> current == signer.value;
      if HasNext(rows) {
        var next :| next in rows && rows[next].status.Next?;
        s := Some(KeyState(current, rows[current].activatedAt,
                           Some(PendingRotation(rows[next].rotation.value, next, rows[next].publishedAt, rows[next].activateAfter))));
      } else {
        s := Some(KeyState(current, rows[current].activatedAt, None));
      }
      assert M() == VisitedAll(at, later);
    }

    /** Publishes a key unless one is pending. */
    method Publish(first: Kid, key: Kid, rotation: nat, publish: Turn) returns (pending: Option<Kid>)
      requires Valid()
      modifies this
      ensures Valid() && Continues(old(log), log)
      ensures M() == VisitedAll(old(M()), TurnOf(KeyRotation.Schedule(first, key, rotation), publish))
      ensures pending.Some? ==> pending.value in rows && rows[pending.value].status.Next? && HasCurrent(rows) && !publish.lost
      ensures !publish.lost && key !in VisitedAll(old(M()), publish.others).rows && key != first ==> pending.Some?
      ensures HasCurrent(old(rows)) && key !in old(rows) && Quiet(publish) ==>
                pending.Some? && HasCurrent(rows) && NewlyPending(old(rows), rows, key, pending.value)
    {
      HistoryKeepsInv(log);
      TurnFollows(M(), KeyRotation.Schedule(first, key, rotation), publish);
      Others(publish.others);
      HistoryKeepsInv(log);
      var done := Transact(Visit(KeyRotation.Schedule(first, key, rotation), publish.wait, publish.first, publish.second, publish.commit, publish.lost));
      pending := None;
      if done {
        HistoryKeepsInv(log);
        var k :| k in rows && rows[k].status.Next?;
        pending := Some(k);
      }
    }

    /** The rest of scheduling, once its transaction has published a key or found one pending. */
    method MarkAndReport(pending: Kid, key: Kid, mark: Turn, bootstrap: Turn, afterBootstrap: seq<Visit>,
                         maintenance: Turn, late: seq<Visit>, later: seq<Visit>) returns (s: Option<KeyState>)
      requires Valid() && HasCurrent(rows) && pending in rows && rows[pending].status.Next?
      modifies this
      ensures Valid() && Continues(old(log), log)
      ensures s.Some? ==> Describes(s.value, rows)
      ensures MarkedAndReported(old(M()), M(), pending, mark, maintenance, late, later, s)
    {
      s := None;
      var done := Reconcile(pending, mark);
      if done {
        s := Status(key, bootstrap, afterBootstrap, maintenance, late, later);
      }
    }

    /** Publishes a key unless one is pending, then marks it; no key is lost whatever other processes do meanwhile. */
    method Schedule(first: Kid, key: Kid, rotation: nat, publish: Turn, mark: Turn, bootstrap: Turn,
                    afterBootstrap: seq<Visit>, maintenance: Turn, late: seq<Visit>, later: seq<Visit>) returns (s: Option<KeyState>)
      requires Valid()
      modifies this
      ensures Valid() && Continues(old(log), log)
      ensures s.Some? ==> Describes(s.value, rows)
      ensures forall k :: k in old(rows) ==> k in rows
      ensures var published := VisitedAll(old(M()), TurnOf(KeyRotation.Schedule(first, key, rotation), publish));
              || (s.None? && M() == published && (publish.lost || key in VisitedAll(old(M()), publish.others).rows || key == first))
              || (exists pending: Kid ::
                    pending in published.rows && published.rows[pending].status.Next? && !publish.lost
                    && MarkedAndReported(published, M(), pending, mark, maintenance, late, later, s))
      ensures HasCurrent(old(rows)) && key !in old(rows) && Quiet(publish) && Quiet(mark) && Quiet(maintenance) && late == [] && later == [] ==>
                s.Some? && Scheduled(old(rows), rows, key)
    {
      HistoryKeepsInv(log);
      s := None;
      var pending := Publish(first, key, rotation, publish);
      if pending.Some? {
        ghost var published := M();
        HistoryKeepsInv(log);
        s := MarkAndReport(pending.value, key, mark, bootstrap, afterBootstrap, maintenance, late, later);
        HistoryKeepsInv(log);
        if NewlyPending(old(rows), published.rows, key, pending.value) && Quiet(mark) && Quiet(maintenance) && late == [] && later == [] {
          QuietSchedule(old(rows), published, M(), pending.value, key, mark, maintenance, s);
        }
      }
      forall k | k in old(rows) ensures k in rows {
        RowsContinue(old(log), log, k);
      }
    }
  }

  /** The pending key is reconciled once; unless that is lost, a strict report follows. */
  ghost predicate MarkedAndReported(m: Moment, after: Moment, pending: Kid, mark: Turn, maintenance: Turn, late: seq<Visit>, later: seq<Visit>, s: Option<KeyState>) {
    var marked := VisitedAll(m, TurnOf(KeyRotation.Reconcile(pending), mark));
    if mark.lost then s.None? && after == marked else Reported(marked, after, maintenance, late, later, s)
  }

  lemma ReconciliationsCommit(rows: Rows, kid: Kid, c: Readings)
    requires KeyRotation.Inv(rows) && HasCurrent(rows)
    ensures Execute(rows, KeyRotation.Reconcile(kid), c).Some?
  {
    assert Readable(rows);
  }

  lemma QuietTurn(m: Moment, txn: Txn, t: Turn)
    requires Quiet(t)
    ensures VisitedAll(m, TurnOf(txn, t)) == Visited(m, Visit(txn, t.wait, t.first, t.second, t.commit, false))
    ensures Ordered(ClockOf(m.now, Visit(txn, t.wait, t.first, t.second, t.commit, false)))
  {
    TurnFollows(m, txn, t);
  }

  lemma QuietReconciliation(m: Moment, next: Kid, t: Turn)
    requires KeyRotation.Inv(m.rows) && HasCurrent(m.rows) && Quiet(t)
    ensures var after := VisitedAll(m, TurnOf(KeyRotation.Reconcile(next), t)).rows;
            exists c: Readings :: Ordered(c) && m.now <= c.observed && ReconcileRows(m.rows, next, c) == Some(after)
  {
    QuietTurn(m, KeyRotation.Reconcile(next), t);
    var c := ClockOf(m.now, Visit(KeyRotation.Reconcile(next), t.wait, t.first, t.second, t.commit, false));
    ExecuteKeepsInv(m.rows, KeyRotation.Reconcile(next), c);
    assert Ordered(c) && m.now <= c.observed;
  }

  /** Help that nobody interferes with. */
  lemma QuietHelp(m: Moment, after: Moment, strict: bool, maintenance: Turn, answer: Kid)
    requires KeyRotation.Inv(m.rows) && KeyRotation.Inv(after.rows) && HasCurrent(m.rows) && Quiet(maintenance)
    requires HelpedAlong(m, after, strict, maintenance, [], true) && answer in after.rows && after.rows[answer].status.Current?
    ensures QuietCall(m.rows, after.rows, m.now, Some(answer))
  {
    if NeedsHelp(m.rows, m.now) {
      var next: Kid :| next in m.rows && m.rows[next].status.Next?
        && after == VisitedAll(m, TurnOf(KeyRotation.Reconcile(next), maintenance) + []);
      var turn := TurnOf(KeyRotation.Reconcile(next), maintenance);
      assert turn + [] == turn;
      QuietReconciliation(m, next, maintenance);
      OnlyNext(m.rows, m.now, next);
      HelpHelps(m.rows, after.rows, m.now, next);
    }
  }

  /** A marking and a report that nobody interferes with. */
  lemma QuietSchedule(before: Rows, published: Moment, after: Moment, pending: Kid, key: Kid, mark: Turn, maintenance: Turn, s: Option<KeyState>)
    requires KeyRotation.Inv(published.rows) && KeyRotation.Inv(after.rows) && AtMostOne(before) && HasCurrent(published.rows)
    requires pending in published.rows && published.rows[pending].status.Next? && NewlyPending(before, published.rows, key, pending)
    requires Quiet(mark) && Quiet(maintenance) && MarkedAndReported(published, after, pending, mark, maintenance, [], [], s)
    ensures s.Some? && Scheduled(before, after.rows, key)
  {
    var marked := VisitedAll(published, TurnOf(KeyRotation.Reconcile(pending), mark));
    QuietReconciliation(published, pending, mark);
    var c: Readings :| Ordered(c) && published.now <= c.observed && ReconcileRows(published.rows, pending, c) == Some(marked.rows);
    ExecuteKeepsInv(published.rows, KeyRotation.Reconcile(pending), c);
    QuietHelp(marked, after, true, maintenance, s.value.kid);
    SchedulingCompletes(before, published.rows, marked.rows, after.rows, key, pending, marked.now, Some(s.value.kid));
  }

  /** There is one pending key, so it is the one that needs help. */
  lemma OnlyNext(rows: Rows, now: Time, next: Kid)
    requires KeyRotation.Inv(rows) && NeedsHelp(rows, now) && next in rows && rows[next].status.Next?
    ensures rows[next].publishedAt.None? || (rows[next].activateAfter.Some? && now >= rows[next].activateAfter.value)
    ensures forall k :: k in rows && rows[k].status.Next? ==> k == next
  {
  }

  lemma MarkingMarks(before: Rows, after: Rows, k: Kid)
    requires KeyRotation.Inv(before) && k in before && before[k].status.Next?
    requires exists c: Readings :: ReconcileRows(before, k, c) == Some(after)
    ensures after.Keys == before.Keys && after[k].publishedAt.Some? && (after[k].status.Next? || !HasNext(after))
  {
  }

  lemma StatusKeepsMark(before: Rows, after: Rows, k: Kid, now: Time, answer: Option<Kid>)
    requires k in before && before[k].publishedAt.Some? && (before[k].status.Next? || !HasNext(before))
    requires before[k].publishedAt.Some? == before[k].activateAfter.Some? && QuietCall(before, after, now, answer)
    ensures after.Keys == before.Keys && after[k].publishedAt.Some?
  {
    if before[k].status.Next? {
      assert Helped(before, after, now, answer, k);
    }
  }

  /** Published, marked and read: what three undisturbed visits leave. */
  lemma SchedulingCompletes(before: Rows, published: Rows, marked: Rows, after: Rows, key: Kid, pending: Kid, now: Time, answer: Option<Kid>)
    requires KeyRotation.Inv(published) && KeyRotation.Inv(marked) && AtMostOne(before)
    requires NewlyPending(before, published, key, pending) && pending in published && published[pending].status.Next?
    requires exists c: Readings :: ReconcileRows(published, pending, c) == Some(marked)
    requires QuietCall(marked, after, now, answer)
    ensures Scheduled(before, after, key)
  {
    MarkingMarks(published, marked, pending);
    StatusKeepsMark(marked, after, pending, now, answer);
  }

  /** A reconciliation of the pending key leaves it marked, or current and the one answer there can be. */
  lemma HelpHelps(before: Rows, after: Rows, now: Time, next: Kid)
    requires KeyRotation.Inv(before) && KeyRotation.Inv(after) && next in before && before[next].status.Next?
    requires before[next].publishedAt.None? || now >= before[next].activateAfter.value
    requires exists c: Readings :: Ordered(c) && now <= c.observed && ReconcileRows(before, next, c) == Some(after)
    ensures after.Keys == before.Keys
    ensures forall answer :: answer in after && after[answer].status.Current? ==>
              forall k :: k in before && before[k].status.Next? ==> k == next && Helped(before, after, now, Some(answer), k)
  {
    var c: Readings :| Ordered(c) && now <= c.observed && ReconcileRows(before, next, c) == Some(after);
  }

  /** Two calls complete a rotation: the first marks the scheduled key, one made 300 s after the mark answers with it. */
  lemma TwoCallsCompleteTheRotation(start: Rows, marked: Rows, done: Rows, first: Time, second: Time, a: Option<Kid>, b: Option<Kid>, k: Kid)
    requires k in start && start[k].status.Next? && start[k].publishedAt.None?
    requires QuietCall(start, marked, first, a) && k in marked && marked[k].publishedAt.Some? && second >= marked[k].publishedAt.value + 300_000
    requires QuietCall(marked, done, second, b)
    ensures b == Some(k) && done[k].status.Current?
  {
    assert Helped(start, marked, first, a, k);
    assert Helped(marked, done, second, b, k);
  }

  lemma {:induction false} RowsContinue(before: History, after: History, k: Kid)
    requires ValidHistory(after) && before <= after && k in RowsAfter(before)
    ensures k in RowsAfter(after)
  {
    if |after| > |before| {
      var init, c := after[..|after| - 1], after[|after| - 1];
      RowsContinue(before, init, k);
      HistoryKeepsInv(init);
      RowsOnlyAge(RowsAfter(init), c.txn, c.clock, k);
    } else {
      assert before == after;
    }
  }

  lemma KeysSurvive(before: History, after: History)
    requires ValidHistory(after) && before <= after && HasCurrent(RowsAfter(before))
    ensures HasCurrent(RowsAfter(after))
  {
    var k :| k in RowsAfter(before) && RowsAfter(before)[k].status.Current?;
    RowsContinue(before, after, k);
    HistoryKeepsInv(after);
  }

  // ---------------------------------------------------------------- the published key set

  const READ_LIMIT: Time := 5_000

  /** A cached answer: its keys, the start of its read, and the moment the read saw the table. */
  datatype Cached = Cached(keys: set<Kid>, at: Time, read: Time)

  /** An answer given at `answered` with the keys that a read saw at `read`. */
  datatype Answer = Answer(keys: set<Kid>, read: Time, answered: Time)

  /** The keys are those of the table at `read`. */
  predicate Snapshot(h: History, keys: set<Kid>, read: Time) {
    keys == Published(StateAt(h, read), read) && keys != {}
  }

  predicate CacheOk(cache: Option<Cached>, h: History) {
    cache.Some? ==> Snapshot(h, cache.value.keys, cache.value.read) && cache.value.at <= cache.value.read
  }

  /** A request at `now`; a read it needs sees the table `seen` later and returns `elapsed` later. */
  function Serve(cache: Option<Cached>, h: History, now: Time, seen: nat, elapsed: nat): (Option<Cached>, Option<Answer>) {
    if cache.Some? && now - cache.value.at < PROCESS_CACHE then (cache, Some(Answer(cache.value.keys, cache.value.read, now)))
    else
      var keys := Published(StateAt(h, now + seen), now + seen);
      if elapsed > READ_LIMIT || keys == {} then (cache, None)
      else (Some(Cached(keys, now, now + seen)), Some(Answer(keys, now + seen, now + elapsed)))
  }

  class JwksCache {
    var cache: Option<Cached>

    constructor ()
      ensures cache == None
    {
      cache := None;
    }

    method Invalidate()
      modifies this
      ensures cache == None
    {
      cache := None;
    }

    /** Answers from the cache while it is young, otherwise from a read, which must not stall. */
    method GetJwks(h: History, now: Time, seen: nat, elapsed: nat) returns (answer: Option<Answer>)
      requires CacheOk(cache, h) && seen <= elapsed
      modifies this
      ensures (cache, answer) == Serve(old(cache), h, now, seen, elapsed)
      ensures CacheOk(cache, h)
      ensures answer.Some? ==> Snapshot(h, answer.value.keys, answer.value.read) && answer.value.answered < answer.value.read + PROCESS_CACHE
    {
      if cache.Some? && now - cache.value.at < PROCESS_CACHE {
        return Some(Answer(cache.value.keys, cache.value.read, now));
      }
      var keys := Published(StateAt(h, now + seen), now + seen);
      if elapsed > READ_LIMIT || keys == {} {
        return None;
      }
      cache := Some(Cached(keys, now, now + seen));
      answer := Some(Answer(keys, now + seen, now + elapsed));
    }
  }

  // ---------------------------------------------------------------- a process that answers while others commit

  /** What happens to one process and to the table it reads. */
  datatype Happening = Committed(c: Commit) | Invalidated | Asked(now: Time, seen: nat, elapsed: nat)

  datatype Process = Process(h: History, cache: Option<Cached>, answers: seq<Answer>)

  function React(p: Process, e: Happening): Process {
    match e
    case Committed(c) => p.(h := p.h + [c])
    case Invalidated => p.(cache := None)
    case Asked(now, seen, elapsed) =>
      var (cache, answer) := Serve(p.cache, p.h, now, seen, elapsed);
      p.(cache := cache, answers := if answer.Some? then p.answers + [answer.value] else p.answers)
  }

  function ReactAll(p: Process, events: seq<Happening>): Process {
    if events == [] then p else React(ReactAll(p, events[..|events| - 1]), events[|events| - 1])
  }

  /** A commit becomes visible after every read that did not see it. */
  predicate InTime(p: Process, e: Happening) {
    match e
    case Committed(c) =>
      && (p.cache.Some? ==> p.cache.value.read < c.at)
      && (forall a :: a in p.answers ==> a.read < c.at)
    case Invalidated => true
    case Asked(_, seen, elapsed) => seen <= elapsed
  }

  predicate AllInTime(p: Process, events: seq<Happening>) {
    events == [] || (AllInTime(p, events[..|events| - 1]) && InTime(ReactAll(p, events[..|events| - 1]), events[|events| - 1]))
  }

  /** The cache may be used, and every answer so far was a snapshot given in time. */
  predicate ProcessOk(p: Process) {
    && CacheOk(p.cache, p.h)
    && forall a :: a in p.answers ==> Snapshot(p.h, a.keys, a.read) && a.answered < a.read + PROCESS_CACHE
  }

  /** What a read saw stays a snapshot of the past while the history goes on. */
  lemma SnapshotsStay(h: History, c: Commit, keys: set<Kid>, read: Time)
    requires Snapshot(h, keys, read) && read < c.at
    ensures Snapshot(h + [c], keys, read)
  {
    VisibleAfter(h, c, read);
  }

  /** A cache stays usable after another process commits. */
  lemma CacheSurvives(cache: Option<Cached>, h: History, c: Commit)
    requires CacheOk(cache, h) && (cache.Some? ==> cache.value.read < c.at)
    ensures CacheOk(cache, h + [c])
  {
    if cache.Some? {
      SnapshotsStay(h, c, cache.value.keys, cache.value.read);
    }
  }

  lemma ReactKeepsOk(p: Process, e: Happening)
    requires ProcessOk(p) && InTime(p, e)
    ensures ProcessOk(React(p, e))
  {
    if e.Committed? {
      CacheSurvives(p.cache, p.h, e.c);
      forall a | a in p.answers ensures Snapshot(p.h + [e.c], a.keys, a.read) {
        SnapshotsStay(p.h, e.c, a.keys, a.read);
      }
    }
  }

  /** Along any run of requests, invalidations and commits of others, every answer ever given stays a young snapshot of the final history. */
  lemma {:induction false} AnswersStayTrue(p: Process, events: seq<Happening>)
    requires ProcessOk(p) && AllInTime(p, events)
    ensures ProcessOk(ReactAll(p, events))
  {
    if events != [] {
      AnswersStayTrue(p, events[..|events| - 1]);
      ReactKeepsOk(ReactAll(p, events[..|events| - 1]), events[|events| - 1]);
    }
  }

  /** From signer to verifier: a key set answered by any process and held for its HTTP lifetime verifies every unexpired token. */
  lemma AnsweredKeysVerifyTokens(h: History, kid: Kid, selected: Time, issued: Time, signing: Time, now: Time,
                                 a: Answer, delay: Time, stall: Time)
    requires ValidHistory(h) && CommitsWithin(h, stall)
    requires kid in StateAt(h, selected) && StateAt(h, selected)[kid].status.Current?
    requires selected <= issued <= selected + signing && issued <= now <= issued + TOKEN_LIFE
    requires Snapshot(h, a.keys, a.read) && a.answered < a.read + PROCESS_CACHE
    requires a.read <= now <= a.answered + HTTP_MAX_AGE + delay
    requires delay <= MAX_DELAY
    requires signing + stall + TOKEN_LIFE <= RETIRED_WINDOW
    ensures kid in a.keys
  {
    HeldKeysVerifyTokens(h, kid, selected, issued, signing, now, a.read, delay, stall);
  }

  /** The same over a whole run: an answer given long before the token's key signed, or after, and commits in between. */
  lemma EveryAnswerVerifiesTokens(events: seq<Happening>, a: Answer, kid: Kid, selected: Time, issued: Time, signing: Time, now: Time,
                                  delay: Time, stall: Time)
    requires AllInTime(Process([], None, []), events)
    requires var p := ReactAll(Process([], None, []), events);
             && a in p.answers && ValidHistory(p.h) && CommitsWithin(p.h, stall)
             && kid in StateAt(p.h, selected) && StateAt(p.h, selected)[kid].status.Current?
    requires selected <= issued <= selected + signing && issued <= now <= issued + TOKEN_LIFE
    requires a.read <= now <= a.answered + HTTP_MAX_AGE + delay
    requires delay <= MAX_DELAY && signing + stall + TOKEN_LIFE <= RETIRED_WINDOW
    ensures kid in a.keys
  {
    AnswersStayTrue(Process([], None, []), events);
    AnsweredKeysVerifyTokens(ReactAll(Process([], None, []), events).h, kid, selected, issued, signing, now, a, delay, stall);
  }
}
