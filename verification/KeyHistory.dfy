// Key rotation in time: what any reader of the key table may still hold contains
// the key of every token that has not expired.
module KeyHistory {
  import opened Common
  import opened KeyRotation

  const RETIRED_WINDOW: Time := 86_400_000
  const PROCESS_CACHE: Time := 60_000
  const HTTP_MAX_AGE: Time := 120_000
  const TOKEN_LIFE: Time := 900_000

  /** How long a response may travel. The process cache's age limit is strict, which gives the last millisecond. */
  const MAX_DELAY: Time := PREPUBLICATION - PROCESS_CACHE - HTTP_MAX_AGE + 1

  /** A committed transaction: it became visible at `at`, possibly long after its statements ran. */
  datatype Commit = Commit(txn: Txn, clock: Readings, at: Time, rows: Rows)

  type History = seq<Commit>

  function RowsAfter(h: History): Rows {
    if h == [] then map[] else h[|h| - 1].rows
  }

  /** Transactions hold one lock from their first read to their commit, and the database clock never goes back. */
  predicate ValidHistory(h: History) {
    h == [] ||
    var init, c := h[..|h| - 1], h[|h| - 1];
    && ValidHistory(init)
    && Ordered(c.clock) && c.clock.second <= c.at
    && (init != [] ==> init[|init| - 1].at <= c.clock.observed)
    && Execute(RowsAfter(init), c.txn, c.clock) == Some(c.rows)
  }

  /** The commits visible to a read at time `t`. */
  function Visible(h: History, t: Time): History {
    if h == [] || h[|h| - 1].at <= t then h else Visible(h[..|h| - 1], t)
  }

  function StateAt(h: History, t: Time): Rows {
    RowsAfter(Visible(h, t))
  }

  predicate Stamped(h: History, t: Time) {
    h == [] || h[|h| - 1].at <= t
  }

  lemma {:induction false} HistoryKeepsInv(h: History)
    requires ValidHistory(h)
    ensures Inv(RowsAfter(h))
  {
    if h != [] {
      HistoryKeepsInv(h[..|h| - 1]);
      ExecuteKeepsInv(RowsAfter(h[..|h| - 1]), h[|h| - 1].txn, h[|h| - 1].clock);
    }
  }

  lemma {:induction false} VisibleIsValid(h: History, t: Time)
    requires ValidHistory(h)
    ensures ValidHistory(Visible(h, t)) && Stamped(Visible(h, t), t) && |Visible(h, t)| <= |h|
  {
    if h != [] && h[|h| - 1].at > t {
      VisibleIsValid(h[..|h| - 1], t);
    }
  }

  lemma {:induction false} VisibleNests(h: History, t: Time, u: Time)
    requires ValidHistory(h) && t <= u
    ensures Visible(Visible(h, u), t) == Visible(h, t)
  {
    if h != [] && h[|h| - 1].at > u {
      VisibleNests(h[..|h| - 1], t, u);
    }
  }

  /** Rows never disappear, and a current or retired key is never pending again. */
  lemma {:induction false} RowsPersist(h: History, t: Time, k: Kid)
    requires ValidHistory(h) && k in StateAt(h, t)
    ensures k in RowsAfter(h)
    ensures StateAt(h, t)[k].status.Retired? ==> RowsAfter(h)[k] == StateAt(h, t)[k]
    ensures StateAt(h, t)[k].status.Current? ==> !RowsAfter(h)[k].status.Next?
  {
    if h != [] && h[|h| - 1].at > t {
      var init, c := h[..|h| - 1], h[|h| - 1];
      RowsPersist(init, t, k);
      HistoryKeepsInv(init);
      RowsOnlyAge(RowsAfter(init), c.txn, c.clock, k);
    }
  }

  // ---------------------------------------------------------------- where keys come from

  /** A marked key was already visible at its marker; an unmarked signing key is older than every published set. */
  ghost predicate Provenance(h: History, k: Kid) {
    k in RowsAfter(h) ==>
      var row := RowsAfter(h)[k];
      && (row.activatedAt.Some? ==> h != [] && row.activatedAt.value <= h[|h| - 1].at)
      && (row.publishedAt.Some? ==> h != [] && row.publishedAt.value <= h[|h| - 1].at && k in StateAt(h, row.publishedAt.value))
      && (row.publishedAt.None? && !row.status.Next? ==> forall t: Time :: StateAt(h, t) == map[] || k in StateAt(h, t))
  }

  lemma NothingBeforeTheFirst(h: History, t: Time)
    requires ValidHistory(h) && RowsAfter(h) == map[]
    ensures StateAt(h, t) == map[]
  {
    if k :| k in StateAt(h, t) {
      RowsPersist(h, t, k);
    }
  }

  lemma ProvenanceOfNewKey(h: History, k: Kid)
    requires ValidHistory(h) && h != [] && k in RowsAfter(h) && k !in RowsAfter(h[..|h| - 1])
    ensures Provenance(h, k)
  {
    var init, c := h[..|h| - 1], h[|h| - 1];
    HistoryKeepsInv(init);
    NewRowsArePending(RowsAfter(init), c.txn, c.clock, k);
    if RowsAfter(init) == map[] {
      forall t: Time ensures StateAt(h, t) == map[] || k in StateAt(h, t) {
        NothingBeforeTheFirst(init, t);
      }
    }
  }

  lemma StampsOfAgedKey(rows: Rows, txn: Txn, c: Readings, k: Kid)
    requires Inv(rows) && Ordered(c) && Execute(rows, txn, c).Some? && k in rows
    ensures k in Execute(rows, txn, c).value
    ensures var before, after := rows[k], Execute(rows, txn, c).value[k];
            && (after.activatedAt != before.activatedAt ==> after.activatedAt == Some(c.second))
            && (after.publishedAt != before.publishedAt ==> after.publishedAt == Some(c.first))
            && (after.retiredAt != before.retiredAt ==> after.retiredAt == Some(c.first))
            && (after.publishedAt.None? && !after.status.Next? ==> before.publishedAt.None? && !before.status.Next?)
  {
    RowsOnlyAge(rows, txn, c, k);
  }

  lemma ProvenanceOfAgedKey(h: History, k: Kid)
    requires ValidHistory(h) && h != [] && k in RowsAfter(h[..|h| - 1]) && Provenance(h[..|h| - 1], k)
    ensures Provenance(h, k)
  {
    var init, c := h[..|h| - 1], h[|h| - 1];
    HistoryKeepsInv(init);
    StampsOfAgedKey(RowsAfter(init), c.txn, c.clock, k);
    var row := c.rows[k];
    forall t: Time ensures StateAt(h, t) == if t < c.at then StateAt(init, t) else c.rows {
    }
    if row.publishedAt.Some? && row.publishedAt != RowsAfter(init)[k].publishedAt {
      assert StateAt(init, c.clock.first) == RowsAfter(init);
    }
  }

  lemma {:induction false} EveryKeyHasProvenance(h: History, k: Kid)
    requires ValidHistory(h)
    ensures Provenance(h, k)
  {
    if h != [] && k in RowsAfter(h) {
      if k in RowsAfter(h[..|h| - 1]) {
        EveryKeyHasProvenance(h[..|h| - 1], k);
        ProvenanceOfAgedKey(h, k);
      } else {
        ProvenanceOfNewKey(h, k);
      }
    }
  }

  /** A key that signs at `q` was public at least the whole prepublication window earlier, or there was nothing public before it. */
  lemma SignerWasPublished(h: History, q: Time, t: Time, k: Kid)
    requires ValidHistory(h) && k in StateAt(h, q) && StateAt(h, q)[k].status.Current?
    requires q - PREPUBLICATION <= t <= q && StateAt(h, t) != map[]
    ensures k in StateAt(h, t)
  {
    var past := Visible(h, q);
    VisibleIsValid(h, q);
    EveryKeyHasProvenance(past, k);
    HistoryKeepsInv(past);
    VisibleNests(h, t, q);
    var row := RowsAfter(past)[k];
    if row.publishedAt.Some? {
      var p := row.publishedAt.value;
      assert p + PREPUBLICATION <= row.activatedAt.value <= q;
      VisibleIsValid(h, t);
      VisibleNests(past, p, t);
      RowsPersist(Visible(past, t), p, k);
    }
  }

  // ---------------------------------------------------------------- published key sets

  /** The keys a read at `t` publishes; an empty answer is an error, not a key set. */
  function Published(rows: Rows, t: Time): set<Kid> {
    set k | k in rows && (!rows[k].status.Retired? || (rows[k].retiredAt.Some? && rows[k].retiredAt.value > t - RETIRED_WINDOW))
  }

  predicate CommitsWithin(h: History, stall: Time) {
    forall i :: 0 <= i < |h| ==> h[i].at <= h[i].clock.observed + stall
  }

  /** A key that still signed at `q` was retired after `q`, up to the time its retirement took to commit. */
  lemma {:induction false} RetiredLate(h: History, q: Time, stall: Time, k: Kid)
    requires ValidHistory(h) && CommitsWithin(h, stall)
    requires k in StateAt(h, q) && StateAt(h, q)[k].status.Current?
    requires k in RowsAfter(h) && RowsAfter(h)[k].status.Retired?
    ensures RowsAfter(h)[k].retiredAt.Some? && RowsAfter(h)[k].retiredAt.value + stall > q
  {
    HistoryKeepsInv(h);
    if h[|h| - 1].at > q {
      var init, c := h[..|h| - 1], h[|h| - 1];
      HistoryKeepsInv(init);
      RowsPersist(init, q, k);
      StampsOfAgedKey(RowsAfter(init), c.txn, c.clock, k);
      if RowsAfter(init)[k].status.Retired? {
        RetiredLate(init, q, stall, k);
      }
    }
  }

  lemma {:induction false} VisibleCommitsWithin(h: History, t: Time, stall: Time)
    requires CommitsWithin(h, stall)
    ensures CommitsWithin(Visible(h, t), stall)
  {
    if h != [] && h[|h| - 1].at > t {
      VisibleCommitsWithin(h[..|h| - 1], t, stall);
    }
  }

  /**
   * Timed key safety. A signer read its key at `selected` and stamped its token at most `signing` later; the token has
   * not expired at `now`. A relying party holds a key set that was read at `read`: from a process cache below its age
   * limit, and then for the HTTP lifetime plus a delivery delay. Then that key set contains the token's key.
   */
  lemma HeldKeysVerifyTokens(h: History, kid: Kid, selected: Time, issued: Time, signing: Time, now: Time,
                             read: Time, delay: Time, stall: Time)
    requires ValidHistory(h) && CommitsWithin(h, stall)
    requires kid in StateAt(h, selected) && StateAt(h, selected)[kid].status.Current?
    requires selected <= issued <= selected + signing && issued <= now <= issued + TOKEN_LIFE
    requires read <= now < read + PROCESS_CACHE + HTTP_MAX_AGE + delay
    requires delay <= MAX_DELAY
    requires signing + stall + TOKEN_LIFE <= RETIRED_WINDOW
    requires Published(StateAt(h, read), read) != {}
    ensures kid in Published(StateAt(h, read), read)
  {
    if read < selected {
      var some :| some in Published(StateAt(h, read), read);
      SignerWasPublished(h, selected, read, kid);
      VisibleNests(h, read, selected);
      VisibleIsValid(h, selected);
      VisibleIsValid(h, read);
      RowsPersist(Visible(h, selected), read, kid);
      HistoryKeepsInv(Visible(h, read));
    } else {
      var seen := Visible(h, read);
      VisibleIsValid(h, read);
      VisibleNests(h, selected, read);
      RowsPersist(seen, selected, kid);
      if RowsAfter(seen)[kid].status.Retired? {
        VisibleCommitsWithin(h, read, stall);
        RetiredLate(seen, selected, stall, kid);
      }
    }
  }

  /** A first key, then a second one scheduled, marked and activated without any slack. */
  const FIRST_KEY := KeyRow(Current, None, None, None, Some(0), None)
  const SECOND_KEY := KeyRow(Next, Some(5), None, None, None, None)
  const STARTED := Commit(Bootstrap(1), Readings(0, 0, 0), 0, map[1 := FIRST_KEY])
  const SCHEDULED := Commit(Schedule(7, 2, 5), Readings(10, 10, 10), 10, map[1 := FIRST_KEY, 2 := SECOND_KEY])
  const MARKED := Commit(Reconcile(2), Readings(10, 10, 10), 10,
                         map[1 := FIRST_KEY, 2 := SECOND_KEY.(publishedAt := Some(10), activateAfter := Some(300_010))])
  const ACTIVATED := Commit(Reconcile(2), Readings(300_010, 300_010, 300_010), 300_010,
                            map[1 := FIRST_KEY.(status := Retired, retiredAt := Some(300_010)),
                                2 := KeyRow(Current, Some(5), Some(10), Some(300_010), Some(300_010), None)])

  lemma Extend(h: History, c: Commit)
    ensures RowsAfter(h + [c]) == c.rows
    ensures (ValidHistory(h) && Ordered(c.clock) && c.clock.second <= c.at && Stamped(h, c.clock.observed)
             && Execute(RowsAfter(h), c.txn, c.clock) == Some(c.rows)) ==> ValidHistory(h + [c])
  {
    assert (h + [c])[..|h|] == h;
  }

  lemma VisibleAfter(h: History, c: Commit, t: Time)
    ensures Visible(h + [c], t) == if c.at <= t then h + [c] else Visible(h, t)
  {
    assert (h + [c])[..|h|] == h;
  }

  lemma StartedStep()
    ensures Execute(map[], STARTED.txn, STARTED.clock) == Some(STARTED.rows)
  {
  }

  lemma ScheduledStep()
    ensures Execute(STARTED.rows, SCHEDULED.txn, SCHEDULED.clock) == Some(SCHEDULED.rows)
  {
    var before, after := STARTED.rows, SCHEDULED.rows;
    assert 1 in before && before[1].status.Current?;
    assert before[2 := SECOND_KEY] == after;
  }

  lemma MarkedStep()
    ensures Execute(SCHEDULED.rows, MARKED.txn, MARKED.clock) == Some(MARKED.rows)
  {
    var before, after := SCHEDULED.rows, MARKED.rows;
    assert 1 in before && before[1].status.Current? && 2 in before && before[2] == SECOND_KEY;
    assert before[2 := SECOND_KEY.(publishedAt := Some(10), activateAfter := Some(300_010))] == after;
  }

  lemma ActivatedStep()
    ensures Execute(MARKED.rows, ACTIVATED.txn, ACTIVATED.clock) == Some(ACTIVATED.rows)
  {
    var before, after := MARKED.rows, ACTIVATED.rows;
    assert 1 in before && before[1].status.Current? && 2 in before;
    assert RetireCurrent(before, 300_010)[2 := before[2].(status := Current, activatedAt := Some(300_010))] == after;
  }

  const EXAMPLE: History := [] + [STARTED] + [SCHEDULED] + [MARKED] + [ACTIVATED]

  lemma ExampleIsValid()
    ensures ValidHistory(EXAMPLE) && CommitsWithin(EXAMPLE, 0)
  {
    StartedStep();
    ScheduledStep();
    MarkedStep();
    ActivatedStep();
    Extend([], STARTED);
    Extend([] + [STARTED], SCHEDULED);
    Extend([] + [STARTED] + [SCHEDULED], MARKED);
    Extend([] + [STARTED] + [SCHEDULED] + [MARKED], ACTIVATED);
  }

  lemma ExampleStates()
    ensures StateAt(EXAMPLE, 9) == STARTED.rows && StateAt(EXAMPLE, 300_010) == ACTIVATED.rows
  {
    VisibleAfter([], STARTED, 9);
    VisibleAfter([] + [STARTED], SCHEDULED, 9);
    VisibleAfter([] + [STARTED] + [SCHEDULED], MARKED, 9);
    VisibleAfter([] + [STARTED] + [SCHEDULED] + [MARKED], ACTIVATED, 9);
    VisibleAfter([] + [STARTED] + [SCHEDULED] + [MARKED], ACTIVATED, 300_010);
  }

  /**
   * The delivery margin is exact: with one millisecond more, an answer given within the process cache's age limit and
   * then within the HTTP lifetime misses the key of a fresh token.
   */
  lemma DeliveryMarginIsTight()
    ensures var read, answered, now := 9, 60_008, 300_010;
            && ValidHistory(EXAMPLE) && CommitsWithin(EXAMPLE, 0)
            && 2 in StateAt(EXAMPLE, now) && StateAt(EXAMPLE, now)[2].status.Current?
            && answered < read + PROCESS_CACHE && now <= answered + HTTP_MAX_AGE + MAX_DELAY + 1
            && Published(StateAt(EXAMPLE, read), read) == {1}
  {
    ExampleIsValid();
    ExampleStates();
  }
}
