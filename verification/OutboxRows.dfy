// How one settlement of a prefix of a destination's queue changes the row table.
module OutboxRows {
  import opened Common
  import opened Outbox

  /** Settled rows of a destination precede its pending rows. */
  ghost predicate Ordered(rows: seq<Row>, c: ClientId) {
    Select(rows, c, All) == Select(rows, c, Done) + Select(rows, c, Live)
  }

  lemma {:induction false} SelectAppend(a: seq<Row>, b: seq<Row>, c: ClientId, v: View)
    ensures Select(a + b, c, v) == Select(a, c, v) + Select(b, c, v)
  {
    if a == [] {
      assert a + b == b;
    } else {
      assert (a + b)[1..] == a[1..] + b;
      SelectAppend(a[1..], b, c, v);
      var p, x, y := Pick(a[0], c, v), Select(a[1..], c, v), Select(b, c, v);
      assert p + (x + y) == (p + x) + y;
    }
  }

  lemma {:induction false} SelectFrom(rows: seq<Row>, c: ClientId, v: View)
    ensures forall r :: r in Select(rows, c, v) <==> r in rows && InView(r, c, v)
    ensures forall i :: 0 <= i < |Select(rows, c, v)| ==> InView(Select(rows, c, v)[i], c, v)
  {
    if rows != [] {
      SelectFrom(rows[1..], c, v);
      assert forall r :: r in rows <==> r == rows[0] || r in rows[1..];
    }
  }

  lemma {:induction false} SelectEverything(rows: seq<Row>, c: ClientId, v: View)
    requires forall r :: r in rows ==> InView(r, c, v)
    ensures Select(rows, c, v) == rows
  {
    if rows != [] {
      SelectEverything(rows[1..], c, v);
      assert rows[0] in rows;
    }
  }

  lemma {:induction false} SelectNothing(rows: seq<Row>, c: ClientId, v: View)
    requires forall r :: r in rows ==> !InView(r, c, v)
    ensures Select(rows, c, v) == []
  {
    if rows != [] {
      assert rows[0] in rows;
      SelectNothing(rows[1..], c, v);
    }
  }

  lemma {:induction false} SelectUnique(rows: seq<Row>, c: ClientId, v: View)
    requires UniqueIds(rows)
    ensures UniqueIds(Select(rows, c, v))
  {
    if rows != [] {
      var rest := Select(rows[1..], c, v);
      SelectUnique(rows[1..], c, v);
      SelectFrom(rows[1..], c, v);
      forall r | r in rest ensures r.id != rows[0].id {
        var k :| 0 <= k < |rows[1..]| && rows[1..][k] == r;
        assert rows[k + 1] == r;
      }
      assert Select(rows, c, v) == [rows[0]] + rest || Select(rows, c, v) == rest;
    }
  }

  /** A row id determines the row. */
  lemma IdIdentifies(rows: seq<Row>, r: Row, t: Row)
    requires UniqueIds(rows) && r in rows && t in rows && r.id == t.id
    ensures r == t
  {
  }

  lemma SettleTail(rows: seq<Row>, c: ClientId, ids: set<Uuid>, o: Settlement, start: int)
    requires rows != []
    ensures SettleRows(rows, c, ids, o, start) == [SettleRow(rows[0], c, ids, o, start)] + SettleRows(rows[1..], c, ids, o, start)
  {
  }

  lemma SelectFirst(row: Row, t: seq<Row>, c: ClientId, v: View)
    ensures Select([row] + t, c, v) == Pick(row, c, v) + Select(t, c, v)
  {
    assert ([row] + t)[1..] == t;
  }

  /** Settling commutes with restricting the table to the destination. */
  lemma {:induction false} SelectSettled(rows: seq<Row>, c: ClientId, ids: set<Uuid>, o: Settlement, start: int, v: View)
    ensures Select(SettleRows(rows, c, ids, o, start), c, v)
         == Select(SettleRows(Select(rows, c, All), c, ids, o, start), c, v)
  {
    if rows != [] {
      var t, row := rows[1..], SettleRow(rows[0], c, ids, o, start);
      SelectSettled(t, c, ids, o, start, v);
      SettleTail(rows, c, ids, o, start);
      SelectFirst(row, SettleRows(t, c, ids, o, start), c, v);
      if InView(rows[0], c, All) {
        var all := Select(rows, c, All);
        assert all[0] == rows[0] && all[1..] == Select(t, c, All);
        SettleTail(all, c, ids, o, start);
        SelectFirst(row, SettleRows(all[1..], c, ids, o, start), c, v);
      } else {
        assert Select(rows, c, All) == Select(t, c, All);
        assert Pick(row, c, v) == [];
      }
    }
  }

  lemma {:induction false} SelectOther(rows: seq<Row>, c: ClientId, ids: set<Uuid>, o: Settlement, start: int, d: ClientId, v: View)
    requires d != c
    ensures Select(SettleRows(rows, c, ids, o, start), d, v) == Select(rows, d, v)
  {
    if rows != [] {
      assert SettleRows(rows, c, ids, o, start)[1..] == SettleRows(rows[1..], c, ids, o, start);
      SelectOther(rows[1..], c, ids, o, start, d, v);
    }
  }

  /** Every row of the prefix meets the same fate: it stays pending, or it leaves the queue. */
  predicate Survives(o: Settlement, attempts: nat) {
    o.Retry? && attempts + 1 < MAX_ATTEMPTS
  }

  function Rest(q: seq<Row>, m: nat, c: ClientId, o: Settlement, start: int): seq<Row>
    requires 0 < m <= |q|
  {
    (if Survives(o, q[0].attempts) then SettleRows(q[..m], c, Ids(q[..m]), o, start) else []) + q[m..]
  }

  lemma SettleConcat(done: seq<Row>, q: seq<Row>, c: ClientId, m: nat, o: Settlement, start: int)
    requires UniqueIds(q) && m <= |q|
    requires forall i :: 0 <= i < |done| ==> !done[i].status.Pending?
    ensures var ids := Ids(q[..m]);
            SettleRows(done + q, c, ids, o, start) == done + SettleRows(q[..m], c, ids, o, start) + q[m..]
  {
    var ids := Ids(q[..m]);
    forall i | m <= i < |q| ensures q[i].id !in ids {
    }
  }

  /** Settling a prefix of the queue touches that prefix only, in every view of the destination. */
  lemma SettleParts(rows: seq<Row>, c: ClientId, m: nat, o: Settlement, start: int, v: View)
    requires UniqueIds(rows) && Ordered(rows, c)
    requires m <= |Select(rows, c, Live)|
    ensures var q, done := Select(rows, c, Live), Select(rows, c, Done);
            var ids := Ids(q[..m]);
            Select(SettleRows(rows, c, ids, o, start), c, v)
            == Select(done, c, v) + Select(SettleRows(q[..m], c, ids, o, start), c, v) + Select(q[m..], c, v)
  {
    var q, done := Select(rows, c, Live), Select(rows, c, Done);
    var ids := Ids(q[..m]);
    var head := SettleRows(q[..m], c, ids, o, start);
    assert forall i :: 0 <= i < |done| ==> !done[i].status.Pending? by {
      SelectFrom(rows, c, Done);
    }
    SelectUnique(rows, c, Live);
    SelectSettled(rows, c, ids, o, start, v);
    SettleConcat(done, q, c, m, o, start);
    SelectAppend(done + head, q[m..], c, v);
    SelectAppend(done, head, c, v);
  }

  lemma SettledHead(q: seq<Row>, c: ClientId, o: Settlement, start: int)
    requires q != [] && forall r :: r in q ==> InView(r, c, Live) && r.attempts == q[0].attempts
    ensures var head := SettleRows(q, c, Ids(q), o, start);
            var fate := Survives(o, q[0].attempts);
            && Select(head, c, All) == head
            && Select(head, c, Live) == (if fate then head else [])
            && Select(head, c, Done) == (if fate then [] else head)
  {
    var head := SettleRows(q, c, Ids(q), o, start);
    var fate := Survives(o, q[0].attempts);
    forall r | r in head ensures r.client == c && (r.status.Pending? <==> fate) {
      var i :| 0 <= i < |head| && head[i] == r;
      assert q[i].id in Ids(q) && q[i] in q;
    }
    SelectEverything(head, c, All);
    SelectEverything(head, c, if fate then Live else Done);
    SelectNothing(head, c, if fate then Done else Live);
  }

  lemma UntouchedParts(rows: seq<Row>, c: ClientId, m: nat)
    requires m <= |Select(rows, c, Live)|
    ensures var q, done := Select(rows, c, Live), Select(rows, c, Done);
            && Select(done, c, All) == Select(done, c, Done) == done && Select(done, c, Live) == []
            && Select(q[m..], c, All) == Select(q[m..], c, Live) == q[m..] && Select(q[m..], c, Done) == []
  {
    var q, done := Select(rows, c, Live), Select(rows, c, Done);
    SelectFrom(rows, c, Live);
    SelectFrom(rows, c, Done);
    assert forall r :: r in q[m..] ==> r in q;
    SelectEverything(done, c, All);
    SelectEverything(done, c, Done);
    SelectNothing(done, c, Live);
    SelectEverything(q[m..], c, All);
    SelectEverything(q[m..], c, Live);
    SelectNothing(q[m..], c, Done);
  }

  /** The effect of settling the first `m` pending rows: order is kept and the queue is what is left. */
  lemma SettlePrefix(rows: seq<Row>, c: ClientId, m: nat, o: Settlement, start: int)
    requires UniqueIds(rows) && Ordered(rows, c)
    requires 0 < m <= |Select(rows, c, Live)|
    requires forall i :: 0 <= i < m ==> Select(rows, c, Live)[i].attempts == Select(rows, c, Live)[0].attempts
    ensures var q := Select(rows, c, Live);
            var after := SettleRows(rows, c, Ids(q[..m]), o, start);
            Ordered(after, c) && Select(after, c, Live) == Rest(q, m, c, o, start)
  {
    var q, done := Select(rows, c, Live), Select(rows, c, Done);
    var head := SettleRows(q[..m], c, Ids(q[..m]), o, start);
    var after := SettleRows(rows, c, Ids(q[..m]), o, start);
    SettleParts(rows, c, m, o, start, All);
    SettleParts(rows, c, m, o, start, Live);
    SettleParts(rows, c, m, o, start, Done);
    UntouchedParts(rows, c, m);
    assert forall r :: r in q[..m] ==> InView(r, c, Live) && r.attempts == q[0].attempts by {
      SelectFrom(rows, c, Live);
    }
    SettledHead(q[..m], c, o, start);
    Assemble(Select(after, c, All), Select(after, c, Done), Select(after, c, Live), done, head, q[m..], Survives(o, q[0].attempts));
  }

  lemma Assemble(all: seq<Row>, settled: seq<Row>, live: seq<Row>, done: seq<Row>, head: seq<Row>, rest: seq<Row>, fate: bool)
    requires all == done + head + rest
    requires settled == done + (if fate then [] else head) + []
    requires live == [] + (if fate then head else []) + rest
    ensures all == settled + live && live == (if fate then head else []) + rest
  {
  }

  lemma OrderedTail(rows: seq<Row>, c: ClientId)
    requires rows != [] && Ordered(rows, c)
    requires rows[0].client == c ==> !rows[0].status.Pending?
    ensures Ordered(rows[1..], c)
  {
    var t := rows[1..];
    if rows[0].client == c {
      assert Select(rows, c, All)[1..] == Select(t, c, All);
      assert (Select(rows, c, Done) + Select(rows, c, Live))[1..] == Select(t, c, Done) + Select(t, c, Live);
    } else {
      assert Select(rows, c, All) == Select(t, c, All);
      assert Select(rows, c, Done) == Select(t, c, Done);
      assert Select(rows, c, Live) == Select(t, c, Live);
    }
  }

  /** When the oldest row of a destination is pending, nothing of that destination is settled. */
  lemma PendingHead(rows: seq<Row>, c: ClientId)
    requires rows != [] && Ordered(rows, c) && InView(rows[0], c, Live)
    ensures Select(rows, c, Done) == []
  {
    var done := Select(rows, c, Done);
    SelectFrom(rows, c, Done);
    assert Select(rows, c, All)[0] == rows[0];
    assert (done + Select(rows, c, Live))[0] == rows[0];
  }

  /** `Ordered`, said by position: nothing is settled behind a row of the same destination that is still pending. */
  lemma {:induction false} NothingOvertakes(rows: seq<Row>, c: ClientId, i: nat, j: nat)
    requires Ordered(rows, c)
    requires i < j < |rows| && rows[i].client == rows[j].client == c
    requires !rows[j].status.Pending?
    ensures !rows[i].status.Pending?
  {
    SelectFrom(rows, c, Done);
    assert rows[j] in Select(rows, c, Done);
    if InView(rows[0], c, Live) {
      PendingHead(rows, c);
    } else if i > 0 {
      OrderedTail(rows, c);
      assert rows[1..][i - 1] == rows[i] && rows[1..][j - 1] == rows[j];
      NothingOvertakes(rows[1..], c, i - 1, j - 1);
    }
  }
}
