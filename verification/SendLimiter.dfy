// The send limiters of registration and password reset: a counted window with a
// wait between sends, reserved before the message is sent.
module SendLimiter {
  import opened Common

  type Time = nat
  type Address = nat

  /** `waits[k]` is the wait after the k-th send of a window; the last entry serves every later one. */
  datatype Policy = Policy(max: nat, window: nat, waits: seq<nat>)

  const REGISTRATION := Policy(5, 86_400, [0, 60, 120, 180, 240])
  const PASSWORD_RESET := Policy(3, 86_400, [0, 120, 120])

  predicate ValidPolicy(p: Policy) {
    p.max >= 2 && |p.waits| == p.max && p.window > 0
  }

  /** The stored hash; a missing field reads as 0. */
  datatype Slot = Slot(first: Time, count: nat, last: Time)

  const EMPTY := Slot(0, 0, 0)

  datatype Reply = Granted(nextWait: nat) | Denied(retryAfter: int, canRetry: bool)

  function Wait(p: Policy, count: nat): nat
    requires ValidPolicy(p)
  {
    p.waits[if count < p.max then count else p.max - 1]
  }

  predicate InWindow(p: Policy, s: Slot, now: Time) {
    s.count > 0 && now - s.first < p.window
  }

  function Reserve(p: Policy, s: Slot, now: Time): (Slot, Reply)
    requires ValidPolicy(p)
  {
    if InWindow(p, s, now) then
      if s.count >= p.max then (s, Denied(s.first + p.window - now, false))
      else if now - s.last < Wait(p, s.count) then (s, Denied(Wait(p, s.count) - (now - s.last), true))
      else (s.(count := s.count + 1, last := now), Granted(Wait(p, s.count + 1)))
    else (Slot(now, 1, now), Granted(Wait(p, 1)))
  }

  /** A send that failed gives its slot and its wait back. */
  function Release(s: Slot): Slot {
    s.(count := if s.count == 0 then 0 else s.count - 1, last := 0)
  }

  // ---------------------------------------------------------------- the bound on sends

  predicate Sorted(times: seq<Time>) {
    forall i, j :: 0 <= i < j < |times| ==> times[i] <= times[j]
  }

  /** How many reservations at the given times are granted within an interval. */
  function GrantedWithin(p: Policy, s: Slot, times: seq<Time>, from: Time, to: Time): nat
    requires ValidPolicy(p)
    decreases |times|
  {
    if times == [] then 0 else
    var (next, reply) := Reserve(p, s, times[0]);
    (if reply.Granted? && from <= times[0] <= to then 1 else 0) + GrantedWithin(p, next, times[1..], from, to)
  }

  /** What a window that opened inside the interval still allows in it. */
  lemma {:induction false} RestOfWindow(p: Policy, s: Slot, times: seq<Time>, from: Time, to: Time)
    requires ValidPolicy(p) && Sorted(times) && to - from < p.window && from <= s.first && 0 < s.count <= p.max
    ensures GrantedWithin(p, s, times, from, to) <= p.max - s.count
    decreases |times|
  {
    if times != [] {
      var (next, reply) := Reserve(p, s, times[0]);
      if times[0] <= to {
        RestOfWindow(p, next, times[1..], from, to);
      } else {
        NothingAfter(p, next, times[1..], from, to);
      }
    }
  }

  lemma {:induction false} NothingAfter(p: Policy, s: Slot, times: seq<Time>, from: Time, to: Time)
    requires ValidPolicy(p) && forall i :: 0 <= i < |times| ==> times[i] > to
    ensures GrantedWithin(p, s, times, from, to) == 0
    decreases |times|
  {
    if times != [] {
      NothingAfter(p, Reserve(p, s, times[0]).0, times[1..], from, to);
    }
  }

  /** From inside the interval: what is left of the old window, then at most one new one. */
  lemma {:induction false} OldWindowThenNew(p: Policy, s: Slot, times: seq<Time>, from: Time, to: Time)
    requires ValidPolicy(p) && Sorted(times) && to - from < p.window && s.count <= p.max
    requires forall i :: 0 <= i < |times| ==> from <= times[i]
    ensures GrantedWithin(p, s, times, from, to) <= (if s.count == 0 then 0 else p.max - s.count) + p.max
    decreases |times|
  {
    if times != [] {
      var (next, reply) := Reserve(p, s, times[0]);
      if times[0] > to {
        NothingAfter(p, next, times[1..], from, to);
      } else if InWindow(p, s, times[0]) {
        OldWindowThenNew(p, next, times[1..], from, to);
      } else {
        RestOfWindow(p, next, times[1..], from, to);
      }
    }
  }

  /** With a clock that never goes back and no releases, an interval shorter than the window holds at most 2 * max - 1 sends. */
  lemma {:induction false} SendsAreBounded(p: Policy, s: Slot, times: seq<Time>, from: Time, to: Time)
    requires ValidPolicy(p) && Sorted(times) && to - from < p.window && s.count <= p.max
    ensures GrantedWithin(p, s, times, from, to) <= 2 * p.max - 1
    decreases |times|
  {
    if times != [] {
      var (next, reply) := Reserve(p, s, times[0]);
      if times[0] < from {
        SendsAreBounded(p, next, times[1..], from, to);
      } else if s.count > 0 {
        OldWindowThenNew(p, s, times, from, to);
      } else if times[0] <= to {
        RestOfWindow(p, next, times[1..], from, to);
      } else {
        NothingAfter(p, next, times[1..], from, to);
      }
    }
  }

  /** The bound is reached: five password-reset sends within ten minutes and forty seconds. */
  lemma BoundIsReached()
    ensures GrantedWithin(PASSWORD_RESET, EMPTY, [0, 86_000, 86_200, 86_400, 86_520, 86_640], 86_000, 86_640) == 2 * PASSWORD_RESET.max - 1
  {
    var p := PASSWORD_RESET;
    var s1, s2, s3 := Slot(0, 1, 0), Slot(0, 2, 86_000), Slot(0, 3, 86_200);
    var s4, s5 := Slot(86_400, 1, 86_400), Slot(86_400, 2, 86_520);
    var t5, t4, t3, t2, t1 := [86_640], [86_520, 86_640], [86_400, 86_520, 86_640], [86_200, 86_400, 86_520, 86_640],
                              [86_000, 86_200, 86_400, 86_520, 86_640];
    assert t5[1..] == [] && t4[1..] == t5 && t3[1..] == t4 && t2[1..] == t3 && t1[1..] == t2;
    assert [0, 86_000, 86_200, 86_400, 86_520, 86_640][1..] == t1;
    assert GrantedWithin(p, s5, t5, 86_000, 86_640) == 1;
    assert GrantedWithin(p, s4, t4, 86_000, 86_640) == 2;
    assert GrantedWithin(p, s3, t3, 86_000, 86_640) == 3;
    assert GrantedWithin(p, s2, t2, 86_000, 86_640) == 4;
    assert GrantedWithin(p, s1, t1, 86_000, 86_640) == 5;
  }

  // ---------------------------------------------------------------- honest replies

  predicate Grants(p: Policy, s: Slot, now: Time)
    requires ValidPolicy(p)
  {
    Reserve(p, s, now).1.Granted?
  }

  /** A denied caller that waits exactly as long as it was told, with no other call in between, is served. */
  lemma RetryAfterIsEnough(p: Policy, s: Slot, now: Time)
    requires ValidPolicy(p) && s.first <= now && s.last <= now && !Grants(p, s, now)
    ensures var r := Reserve(p, s, now).1.retryAfter;
            r > 0 && Reserve(p, s, now).0 == s && Grants(p, s, now + r)
  {
  }

  /** The wait that a denial reports runs out before the window does, or the cap is reached. */
  predicate WaitEndsInWindow(p: Policy, s: Slot)
    requires ValidPolicy(p)
  {
    s.count >= p.max || s.last + Wait(p, s.count) <= s.first + p.window
  }

  /** No earlier retry is served if and only if the wait does not outlast the window. */
  lemma NoEarlierRetry(p: Policy, s: Slot, now: Time)
    requires ValidPolicy(p) && s.first <= now && s.last <= now && !Grants(p, s, now)
    ensures var r := Reserve(p, s, now).1.retryAfter;
            (forall t: Time :: now <= t < now + r ==> !Grants(p, s, t)) <==> WaitEndsInWindow(p, s)
  {
    var r := Reserve(p, s, now).1.retryAfter;
    if !WaitEndsInWindow(p, s) {
      var t: Time := s.first + p.window;
      assert now <= t < now + r && Grants(p, s, t);
    }
  }

  /** A reachable denial whose `retry_after` of 235 s is too long: five seconds later the window is over. */
  lemma EarlierRetryCanSucceed()
    ensures var p := REGISTRATION;
            var s := Reserve(p, Reserve(p, Reserve(p, Reserve(p, EMPTY, 0).0, 60).0, 180).0, 86_390).0;
            Reserve(p, s, 86_395) == (s, Denied(235, true)) && Grants(p, s, 86_400)
  {
  }

  /** `next_backoff` is the wait enforced for the rest of the window, unless the send was the window's last. */
  lemma NextBackoffIsEnforced(p: Policy, s: Slot, now: Time, later: Time)
    requires ValidPolicy(p) && Grants(p, s, now) && now <= later
    ensures var (after, reply) := Reserve(p, s, now);
            && after.last == now && after.count >= 1
            && (InWindow(p, after, later) ==>
                  (Grants(p, after, later) <==> after.count < p.max && later - now >= reply.nextWait))
  {
  }

  /** A failed send leaves no trace in the count, and an immediate retry is served. */
  lemma ReleaseRefunds(p: Policy, s: Slot, now: Time)
    requires ValidPolicy(p) && Grants(p, s, now) && s.count <= p.max && (forall k :: 0 <= k < p.max ==> p.waits[k] <= now)
    ensures var released := Release(Reserve(p, s, now).0);
            released.count == (if InWindow(p, s, now) then s.count else 0) && Grants(p, released, now)
  {
  }

  // ---------------------------------------------------------------- exactly what happens

  /** The script, field by field: a new window, a send within the cap and after its wait, or a refusal that changes nothing. */
  lemma ReservationIsExact(p: Policy, s: Slot, now: Time)
    requires ValidPolicy(p)
    ensures var (after, reply) := Reserve(p, s, now);
            var open := s.count > 0 && now < s.first + p.window;
            var wait := p.waits[if s.count >= p.max then p.max - 1 else s.count];
            && (!open ==> after == Slot(now, 1, now) && reply == Granted(p.waits[1]))
            && (open && s.count >= p.max ==> after == s && reply == Denied(s.first + p.window - now, false))
            && (open && s.count < p.max && now < s.last + wait ==> after == s && reply == Denied(s.last + wait - now, true))
            && (open && s.count < p.max && now >= s.last + wait ==>
                  after == Slot(s.first, s.count + 1, now) && reply == Granted(p.waits[if s.count + 1 >= p.max then p.max - 1 else s.count + 1]))
  {
  }

  /** Registration waits one, two, three and four minutes, five sends a day; password reset two minutes, three sends. */
  lemma PoliciesAreExact()
    ensures REGISTRATION.max == 5 && REGISTRATION.window == 24 * 3600 && forall k :: 1 <= k < 5 ==> REGISTRATION.waits[k] == 60 * k
    ensures PASSWORD_RESET.max == 3 && PASSWORD_RESET.window == 24 * 3600 && forall k :: 1 <= k < 3 ==> PASSWORD_RESET.waits[k] == 120
    ensures ValidPolicy(REGISTRATION) && ValidPolicy(PASSWORD_RESET)
  {
  }

  /** A release takes one send back, never below none, and forgets the last send. */
  lemma ReleaseIsExact(s: Slot)
    ensures Release(s).first == s.first && Release(s).last == 0
    ensures Release(s).count == 0 <==> s.count <= 1
    ensures s.count >= 1 ==> Release(s).count + 1 == s.count
  {
  }

  // ---------------------------------------------------------------- the store

  class Limiter {
    const policy: Policy
    var slots: map<Address, Slot>

    constructor (p: Policy)
      requires ValidPolicy(p)
      ensures policy == p && slots == map[]
    {
      policy, slots := p, map[];
    }

    function SlotOf(a: Address): Slot
      reads this
    {
      if a in slots then slots[a] else EMPTY
    }

    /** One atomic script: it reads the three fields, decides, and writes them back. */
    method ReserveSend(a: Address, now: Time) returns (r: Reply)
      requires ValidPolicy(policy)
      modifies this`slots
      ensures (SlotOf(a), r) == Reserve(policy, old(SlotOf(a)), now)
      ensures forall b :: b != a ==> SlotOf(b) == old(SlotOf(b))
    {
      var s := SlotOf(a);
      if s.count > 0 && now - s.first < policy.window {
        if s.count >= policy.max {
          return Denied(s.first + policy.window - now, false);
        }
        var wait := policy.waits[Min(s.count, policy.max - 1)];
        if now - s.last < wait {
          return Denied(wait - (now - s.last), true);
        }
        slots := slots[a := s.(count := s.count + 1, last := now)];
        return Granted(policy.waits[Min(s.count + 1, policy.max - 1)]);
      }
      slots := slots[a := Slot(now, 1, now)];
      r := Granted(policy.waits[1]);
    }

    method ReleaseSend(a: Address)
      modifies this`slots
      ensures SlotOf(a) == Release(old(SlotOf(a)))
      ensures forall b :: b != a ==> SlotOf(b) == old(SlotOf(b))
    {
      var s := SlotOf(a);
      slots := slots[a := Slot(s.first, if s.count == 0 then 0 else s.count - 1, 0)];
    }
  }
}
