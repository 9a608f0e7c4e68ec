// One-time authenticator codes: the marker of the last accepted time step expires,
// yet no step is ever accepted twice at sign-in.
module Totp {
  import opened Common

  /** Milliseconds since the epoch. */
  type Time = int
  type CredentialId = nat
  type Sub = nat

  const PERIOD: Time := 30_000
  const TOLERANCE: Time := 30_000
  const MARKER_LIFE: Time := 300_000

  /** How long a verified code may wait for its claim: the life of a marker less the widest span of one step's codes. */
  const MAX_STALL: Time := MARKER_LIFE - 2 * TOLERANCE - PERIOD

  /** A code for `step` verifies at `t`: RFC 6238, section 5.2, with one step of tolerance either way. */
  predicate ValidAt(step: int, t: Time) {
    (t - TOLERANCE) / PERIOD <= step <= (t + TOLERANCE) / PERIOD
  }

  /** The stored marker of a credential, and when it was written. */
  datatype Marker = Marker(step: int, at: Time)

  /** The value a claim reads: 0 without a marker or after its expiry. */
  function Stored(m: Option<Marker>, now: Time): int {
    if m.Some? && now < m.value.at + MARKER_LIFE then m.value.step else 0
  }

  /** One atomic script: set the marker only to a strictly newer step. */
  function Claim(m: Option<Marker>, step: int, now: Time): (Option<Marker>, bool) {
    if step > Stored(m, now) then (Some(Marker(step, now)), true) else (m, false)
  }

  // ---------------------------------------------------------------- runs of one credential

  /** A code of some step verified at `verified` and was claimed at `claimed`: requests may overlap, their claims do not. */
  datatype Attempt = Attempt(step: int, verified: Time, claimed: Time)

  predicate WithinStall(a: Attempt, stall: Time) {
    ValidAt(a.step, a.verified) && a.verified <= a.claimed <= a.verified + stall
  }

  predicate ClaimOrder(attempts: seq<Attempt>) {
    forall i, j :: 0 <= i < j < |attempts| ==> attempts[i].claimed <= attempts[j].claimed
  }

  function MarkerAfter(attempts: seq<Attempt>): Option<Marker> {
    if attempts == [] then None else
    var a := attempts[|attempts| - 1];
    Claim(MarkerAfter(attempts[..|attempts| - 1]), a.step, a.claimed).0
  }

  /** The steps accepted in turn. */
  function Accepted(attempts: seq<Attempt>): seq<int> {
    if attempts == [] then [] else
    var init, a := attempts[..|attempts| - 1], attempts[|attempts| - 1];
    if Claim(MarkerAfter(init), a.step, a.claimed).1 then Accepted(init) + [a.step] else Accepted(init)
  }

  predicate Increasing(steps: seq<int>) {
    forall i, j :: 0 <= i < j < |steps| ==> steps[i] < steps[j]
  }

  /** The marker is the last acceptance, written while its code was young. */
  lemma {:induction false} MarkerIsLast(attempts: seq<Attempt>, stall: Time)
    requires forall a :: a in attempts ==> WithinStall(a, stall)
    ensures Accepted(attempts) == [] <==> MarkerAfter(attempts).None?
    ensures MarkerAfter(attempts).Some? ==>
              var m := MarkerAfter(attempts).value;
              && m.step == Accepted(attempts)[|Accepted(attempts)| - 1]
              && m.step * PERIOD <= m.at + TOLERANCE
              && exists a :: a in attempts && a.claimed == m.at
  {
    if attempts != [] {
      var init, a := attempts[..|attempts| - 1], attempts[|attempts| - 1];
      MarkerIsLast(init, stall);
      assert a in attempts && WithinStall(a, stall);
      assert forall b :: b in init ==> b in attempts;
    }
  }

  /** A step claimed after its predecessor's marker expired is newer than it all the same. */
  lemma ExpiryIsSafe(m: Marker, a: Attempt, stall: Time)
    requires stall <= MAX_STALL && WithinStall(a, stall)
    requires m.step * PERIOD <= m.at + TOLERANCE && m.at + MARKER_LIFE <= a.claimed
    ensures a.step > m.step
  {
    assert a.verified - TOLERANCE >= m.at + TOLERANCE + PERIOD;
    assert a.step * PERIOD > a.verified - TOLERANCE - PERIOD;
  }

  /** Over any run, however its requests overlap, the accepted steps of a credential strictly increase. */
  lemma {:induction false} AcceptedStepsIncrease(attempts: seq<Attempt>, stall: Time)
    requires stall <= MAX_STALL && ClaimOrder(attempts) && forall a :: a in attempts ==> WithinStall(a, stall)
    ensures Increasing(Accepted(attempts))
  {
    if attempts != [] {
      var init, a := attempts[..|attempts| - 1], attempts[|attempts| - 1];
      AcceptedStepsIncrease(init, stall);
      MarkerIsLast(init, stall);
      assert a in attempts && WithinStall(a, stall);
      var m := MarkerAfter(init);
      if Claim(m, a.step, a.claimed).1 && m.Some? {
        if a.claimed >= m.value.at + MARKER_LIFE {
          ExpiryIsSafe(m.value, a, stall);
        }
        assert a.step > m.value.step;
      }
    }
  }

  /** The bound is exact: with a stall of one millisecond more, one code is accepted twice. */
  lemma LongerStallReplays()
    ensures var first, again := Attempt(1, 0, 0), Attempt(1, 89_999, 300_000);
            && ClaimOrder([first, again]) && WithinStall(first, 0) && WithinStall(again, MAX_STALL + 1)
            && Accepted([first, again]) == [1, 1]
  {
    var first, again := Attempt(1, 0, 0), Attempt(1, 89_999, 300_000);
    assert [first, again][..1] == [first] && [first][..0] == [];
    assert MarkerAfter([first]) == Some(Marker(1, 0)) && Accepted([first]) == [1];
  }

  /** Every stall within the bound is safe and none beyond it is: the margin of the marker's life is exactly this. */
  lemma StallBoundIsExact(stall: Time)
    requires stall >= 0
    ensures stall <= MAX_STALL <==>
            forall attempts: seq<Attempt> :: ClaimOrder(attempts) && (forall a :: a in attempts ==> WithinStall(a, stall)) ==> Increasing(Accepted(attempts))
  {
    if stall <= MAX_STALL {
      forall attempts: seq<Attempt> | ClaimOrder(attempts) && forall a :: a in attempts ==> WithinStall(a, stall) ensures Increasing(Accepted(attempts)) {
        AcceptedStepsIncrease(attempts, stall);
      }
    } else {
      LongerStallReplays();
      var replay := [Attempt(1, 0, 0), Attempt(1, 89_999, 300_000)];
      assert forall a :: a in replay ==> WithinStall(a, stall);
      assert !Increasing([1, 1]) by {
        assert [1, 1][0] == [1, 1][1];
      }
      assert Accepted(replay) == [1, 1];
    }
  }

  // ---------------------------------------------------------------- several authenticators

  /** `readable`: the sealed secret opens. */
  datatype Credential = Credential(id: CredentialId, sub: Sub, confirmed: bool, readable: bool)

  type Markers = map<CredentialId, Marker>

  function MarkerOf(ms: Markers, id: CredentialId): Option<Marker> {
    if id in ms then Some(ms[id]) else None
  }

  /** The step for which a credential's secret yields the submitted code, if any. */
  type Matches = map<CredentialId, int>

  /** A claim needs a step newer than a marker younger than 300 s, or than 0, and then writes the marker. */
  lemma ClaimIsExact(m: Option<Marker>, step: int, now: Time)
    ensures var (after, ok) := Claim(m, step, now);
            && (ok <==> if m.Some? && now < m.value.at + 300_000 then step > m.value.step else step > 0)
            && after == if ok then Some(Marker(step, now)) else m
  {
  }

  predicate Usable(c: Credential, sub: Sub, ms: Markers, matches: Matches, now: Time) {
    c.sub == sub && c.confirmed && c.readable && c.id in matches && Claim(MarkerOf(ms, c.id), matches[c.id], now).1
  }

  /** A code uses a confirmed, readable authenticator of the account whose step it is and whose marker it passes. */
  lemma UseIsExact(c: Credential, sub: Sub, ms: Markers, matches: Matches, now: Time)
    ensures Usable(c, sub, ms, matches, now) <==>
              && c.sub == sub && c.confirmed && c.readable && c.id in matches
              && Claim(if c.id in ms then Some(ms[c.id]) else None, matches[c.id], now).1
  {
  }

  class Authenticators {
    var rows: seq<Credential>
    var markers: Markers

    constructor (credentials: seq<Credential>)
      ensures rows == credentials && markers == map[]
    {
      rows, markers := credentials, map[];
    }

    method ClaimStep(id: CredentialId, step: int, now: Time) returns (ok: bool)
      modifies this`markers
      ensures ok == Claim(old(MarkerOf(markers, id)), step, now).1
      ensures MarkerOf(markers, id) == Claim(old(MarkerOf(markers, id)), step, now).0
      ensures forall j :: j != id ==> MarkerOf(markers, j) == old(MarkerOf(markers, j))
      ensures !ok ==> markers == old(markers)
    {
      var stored := if id in markers && now < markers[id].at + MARKER_LIFE then markers[id].step else 0;
      ok := step > stored;
      if ok {
        markers := markers[id := Marker(step, now)];
      }
    }

    /** Tries every confirmed credential of the account; the first whose step can be claimed uses the code up. */
    method VerifyLogin(sub: Sub, matches: Matches, now: Time) returns (used: Option<CredentialId>)
      modifies this`markers
      ensures used.None? <==> forall c :: c in rows ==> !Usable(c, sub, old(markers), matches, now)
      ensures used.None? ==> markers == old(markers)
      ensures used.Some? ==> exists c :: c in rows && c.id == used.value && c.sub == sub && c.confirmed && c.readable && c.id in matches
      ensures used.Some? ==> exists i :: 0 <= i < |rows| && rows[i].id == used.value && Usable(rows[i], sub, old(markers), matches, now)
                                         && forall k :: 0 <= k < i ==> !Usable(rows[k], sub, old(markers), matches, now)
      ensures used.Some? ==> used.value in matches && MarkerOf(markers, used.value) == Some(Marker(matches[used.value], now))
                             && forall j :: j != used.value ==> MarkerOf(markers, j) == old(MarkerOf(markers, j))
    {
      for i := 0 to |rows|
        invariant markers == old(markers)
        invariant forall k :: 0 <= k < i ==> !Usable(rows[k], sub, markers, matches, now)
      {
        var c := rows[i];
        if c.sub == sub && c.confirmed && c.readable && c.id in matches {
          var ok := ClaimStep(c.id, matches[c.id], now);
          if ok {
            assert Usable(rows[i], sub, old(markers), matches, now) && c in rows;
            return Some(c.id);
          }
        }
      }
      used := None;
    }

    /** Confirming a new authenticator claims the step of its first code, so that it cannot be used again to sign in. */
    method Confirm(i: nat, step: int, now: Time)
      requires i < |rows|
      modifies this
      ensures rows == old(rows)[i := old(rows)[i].(confirmed := true)]
      ensures MarkerOf(markers, rows[i].id) == Claim(old(MarkerOf(markers, rows[i].id)), step, now).0
      ensures step <= Stored(MarkerOf(markers, rows[i].id), now)
    {
      var claimed := ClaimStep(rows[i].id, step, now);
      rows := rows[i := rows[i].(confirmed := true)];
    }
  }
}
