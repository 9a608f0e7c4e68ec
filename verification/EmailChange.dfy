// Pending email verifications: three key spaces with lifetimes that must agree.
module EmailChange {
  import opened Common

  /** Seconds. */
  type Time = int
  type Sub = nat
  /** A raw token; hashing is injective, so the model stores the token itself. */
  type Token = nat

  const TOKEN_TTL: Time := 1800
  const TOKEN_REUSE: Time := 300

  /** An address as written and as the runtime lower-cases it; nothing is assumed of how it does. */
  datatype Address = Address(written: string, lower: string)

  datatype Kind = Change | Confirm

  datatype Record = Record(sub: Sub, kind: Kind, newEmail: Address, token: Token, createdAt: Time, lastSent: Time)

  /** A stored value and the moment it disappears. */
  datatype Timed<T> = Timed(value: T, until: Time)

  datatype Store = Store(tokens: map<Token, Timed<Record>>, users: map<Sub, Timed<Token>>, addresses: map<string, Timed<Sub>>)

  const EMPTY := Store(map[], map[], map[])

  /** The key form of an address. */
  function Lower(a: Address): string {
    a.lower
  }

  /** What a read at `now` finds. */
  function Find<K, T>(m: map<K, Timed<T>>, k: K, now: Time): Option<T> {
    if k in m && now < m[k].until then Some(m[k].value) else None
  }

  function GetChange(s: Store, sub: Sub, now: Time): Option<Record> {
    var token := Find(s.users, sub, now);
    if token.None? then None else Find(s.tokens, token.value, now)
  }

  function Drop(s: Store, r: Record): Store {
    Store(s.tokens - {r.token}, s.users - {r.sub}, if r.kind.Change? then s.addresses - {Lower(r.newEmail)} else s.addresses)
  }

  /** The same target within the reuse window: the link is sent again. */
  predicate Resends(cur: Option<Record>, kind: Kind, newEmail: Address, now: Time) {
    cur.Some? && cur.value.kind == kind && Lower(cur.value.newEmail) == Lower(newEmail) && now - cur.value.lastSent < TOKEN_REUSE
  }

  function Issue(s: Store, sub: Sub, kind: Kind, newEmail: Address, now: Time, newToken: Token): (Store, Token) {
    var cur := GetChange(s, sub, now);
    if Resends(cur, kind, newEmail, now) && cur.value.token in s.tokens then
      var t := cur.value.token;
      (s.(tokens := s.tokens[t := Timed(cur.value.(lastSent := now), s.tokens[t].until)]), t)
    else
      var base := if cur.Some? then Drop(s, cur.value) else s;
      var until := now + TOKEN_TTL;
      (Store(base.tokens[newToken := Timed(Record(sub, kind, newEmail, newToken, now, now), until)],
             base.users[sub := Timed(newToken, until)],
             if kind.Change? then base.addresses[Lower(newEmail) := Timed(sub, until)] else base.addresses),
       newToken)
  }

  /** The route refuses an address that another user holds. */
  predicate Free(s: Store, sub: Sub, newEmail: Address, now: Time) {
    var owner := Find(s.addresses, Lower(newEmail), now);
    owner.None? || owner.value == sub
  }

  function Redeem(s: Store, token: Token, now: Time): (Store, Option<Record>) {
    var r := Find(s.tokens, token, now);
    if r.None? then (s, None)
    else
      (Store(s.tokens - {token}, s.users - {r.value.sub},
             if r.value.kind.Change? then s.addresses - {Lower(r.value.newEmail)} else s.addresses), r)
  }

  function Cancel(s: Store, sub: Sub, now: Time): (Store, bool) {
    var cur := GetChange(s, sub, now);
    if cur.None? then (s, false) else (Drop(s, cur.value), true)
  }

  // ---------------------------------------------------------------- correspondence

  predicate LinkOk(s: Store, t: Token) {
    t in s.tokens ==>
      var r, until := s.tokens[t].value, s.tokens[t].until;
      && r.token == t
      && (r.sub in s.users && s.users[r.sub] == Timed(t, until))
      && (r.kind.Change? ==> Lower(r.newEmail) in s.addresses && s.addresses[Lower(r.newEmail)] == Timed(r.sub, until))
  }

  predicate UserOk(s: Store, sub: Sub) {
    sub in s.users ==> s.users[sub].value in s.tokens && s.tokens[s.users[sub].value].value.sub == sub
  }

  predicate AddressOk(s: Store, a: string) {
    a in s.addresses ==>
      var sub := s.addresses[a].value;
      && sub in s.users && s.users[sub].value in s.tokens
      && var r := s.tokens[s.users[sub].value].value; r.kind.Change? && Lower(r.newEmail) == a
  }

  /** Token records, user pointers and address reservations name each other and end together. */
  ghost predicate Linked(s: Store) {
    && (forall t: Token :: LinkOk(s, t))
    && (forall sub: Sub :: UserOk(s, sub))
    && (forall a: string :: AddressOk(s, a))
  }

  function Purge<K, T>(m: map<K, Timed<T>>, now: Time): map<K, Timed<T>> {
    map k | k in m && now < m[k].until :: m[k]
  }

  /** What is still there at `now`. */
  function Present(s: Store, now: Time): Store {
    Store(Purge(s.tokens, now), Purge(s.users, now), Purge(s.addresses, now))
  }

  /** The three key spaces correspond as far as anybody can see. */
  ghost predicate Inv(s: Store, now: Time) {
    Linked(Present(s, now))
  }

  /** Time alone breaks nothing: what corresponds disappears together. */
  lemma TimePasses(s: Store, now: Time, later: Time)
    requires Inv(s, now) && now <= later
    ensures Inv(s, later)
  {
    var p, q := Present(s, now), Present(s, later);
    forall t: Token ensures LinkOk(q, t) {
      assert LinkOk(p, t);
    }
    forall sub: Sub ensures UserOk(q, sub) {
      assert UserOk(p, sub);
      if sub in q.users {
        assert LinkOk(p, p.users[sub].value);
      }
    }
    forall a: string ensures AddressOk(q, a) {
      assert AddressOk(p, a);
      if a in q.addresses {
        assert LinkOk(p, p.users[p.addresses[a].value].value);
      }
    }
  }

  // ---------------------------------------------------------------- every operation keeps the correspondence

  lemma FindsPresent(s: Store, sub: Sub, now: Time)
    requires Inv(s, now)
    ensures var p, cur := Present(s, now), GetChange(s, sub, now);
            && (cur.Some? <==> sub in p.users)
            && (cur.Some? ==> cur.value.sub == sub && cur.value.token in p.tokens && p.tokens[cur.value.token].value == cur.value
                              && p.users[sub].value == cur.value.token)
  {
    var p := Present(s, now);
    assert UserOk(p, sub);
    if sub in p.users {
      assert LinkOk(p, p.users[sub].value);
    }
  }

  lemma DropKeeps(s: Store, r: Record, now: Time)
    requires Inv(s, now) && r.token in Present(s, now).tokens && Present(s, now).tokens[r.token].value == r
    ensures Inv(Drop(s, r), now)
    ensures r.sub !in Present(Drop(s, r), now).users
  {
    var p, q := Present(s, now), Present(Drop(s, r), now);
    assert LinkOk(p, r.token);
    forall t: Token ensures LinkOk(q, t) {
      assert LinkOk(p, t);
    }
    forall sub: Sub ensures UserOk(q, sub) {
      assert UserOk(p, sub);
    }
    forall a: string ensures AddressOk(q, a) {
      assert AddressOk(p, a);
    }
  }

  function Stored(s: Store, sub: Sub, kind: Kind, newEmail: Address, now: Time, newToken: Token): Store {
    var until := now + TOKEN_TTL;
    Store(s.tokens[newToken := Timed(Record(sub, kind, newEmail, newToken, now, now), until)], s.users[sub := Timed(newToken, until)],
          if kind.Change? then s.addresses[Lower(newEmail) := Timed(sub, until)] else s.addresses)
  }

  /** The user has no link and the address, if reserved by this change, no holder. */
  ghost predicate Storable(s: Store, sub: Sub, kind: Kind, newEmail: Address, now: Time, newToken: Token) {
    && Inv(s, now) && newToken !in s.tokens && sub !in Present(s, now).users
    && (kind.Change? ==> Lower(newEmail) !in Present(s, now).addresses)
  }

  lemma StoredTokenOk(s: Store, sub: Sub, kind: Kind, newEmail: Address, now: Time, newToken: Token, t: Token)
    requires Storable(s, sub, kind, newEmail, now, newToken)
    ensures LinkOk(Present(Stored(s, sub, kind, newEmail, now, newToken), now), t)
  {
    assert LinkOk(Present(s, now), t);
  }

  lemma StoredUserOk(s: Store, sub: Sub, kind: Kind, newEmail: Address, now: Time, newToken: Token, u: Sub)
    requires Storable(s, sub, kind, newEmail, now, newToken)
    ensures UserOk(Present(Stored(s, sub, kind, newEmail, now, newToken), now), u)
  {
    assert UserOk(Present(s, now), u);
  }

  lemma StoredAddressOk(s: Store, sub: Sub, kind: Kind, newEmail: Address, now: Time, newToken: Token, a: string)
    requires Storable(s, sub, kind, newEmail, now, newToken)
    ensures AddressOk(Present(Stored(s, sub, kind, newEmail, now, newToken), now), a)
  {
    assert AddressOk(Present(s, now), a);
  }

  lemma StoredKeeps(s: Store, sub: Sub, kind: Kind, newEmail: Address, now: Time, newToken: Token)
    requires Storable(s, sub, kind, newEmail, now, newToken)
    ensures Inv(Stored(s, sub, kind, newEmail, now, newToken), now)
  {
    var q := Present(Stored(s, sub, kind, newEmail, now, newToken), now);
    forall t: Token ensures LinkOk(q, t) { StoredTokenOk(s, sub, kind, newEmail, now, newToken, t); }
    forall u: Sub ensures UserOk(q, u) { StoredUserOk(s, sub, kind, newEmail, now, newToken, u); }
    forall a: string ensures AddressOk(q, a) { StoredAddressOk(s, sub, kind, newEmail, now, newToken, a); }
  }

  /** An address that is free for a user, once the user's own link is gone, is held by nobody. */
  lemma FreeIsUnheld(s: Store, sub: Sub, newEmail: Address, now: Time)
    requires Inv(s, now) && Free(s, sub, newEmail, now) && sub !in Present(s, now).users
    ensures Lower(newEmail) !in Present(s, now).addresses
  {
    assert AddressOk(Present(s, now), Lower(newEmail));
  }

  lemma ResendKeeps(s: Store, r: Record, now: Time)
    requires Inv(s, now) && r.token in Present(s, now).tokens && Present(s, now).tokens[r.token].value == r
    ensures Inv(s.(tokens := s.tokens[r.token := Timed(r.(lastSent := now), s.tokens[r.token].until)]), now)
  {
    var p, q := Present(s, now), Present(s.(tokens := s.tokens[r.token := Timed(r.(lastSent := now), s.tokens[r.token].until)]), now);
    forall t: Token ensures LinkOk(q, t) {
      assert LinkOk(p, t);
    }
    forall u: Sub ensures UserOk(q, u) {
      assert UserOk(p, u);
    }
    forall a: string ensures AddressOk(q, a) {
      assert AddressOk(p, a);
    }
  }

  /** Issuing keeps the correspondence, provided the route has refused addresses that others hold. */
  lemma IssueKeeps(s: Store, sub: Sub, kind: Kind, newEmail: Address, now: Time, newToken: Token)
    requires Inv(s, now) && newToken !in s.tokens && (kind.Change? ==> Free(s, sub, newEmail, now))
    ensures Inv(Issue(s, sub, kind, newEmail, now, newToken).0, now)
  {
    var cur := GetChange(s, sub, now);
    FindsPresent(s, sub, now);
    if Resends(cur, kind, newEmail, now) {
      ResendKeeps(s, cur.value, now);
    } else {
      var base := if cur.Some? then Drop(s, cur.value) else s;
      if cur.Some? {
        DropKeeps(s, cur.value, now);
      }
      if kind.Change? {
        FreeIsUnheld(base, sub, newEmail, now);
      }
      StoredKeeps(base, sub, kind, newEmail, now, newToken);
    }
  }

  lemma RedeemKeeps(s: Store, token: Token, now: Time)
    requires Inv(s, now)
    ensures Inv(Redeem(s, token, now).0, now)
  {
    var p := Present(s, now);
    assert LinkOk(p, token);
    if token in p.tokens {
      DropKeeps(s, p.tokens[token].value, now);
    }
  }

  lemma CancelKeeps(s: Store, sub: Sub, now: Time)
    requires Inv(s, now)
    ensures Inv(Cancel(s, sub, now).0, now)
  {
    FindsPresent(s, sub, now);
    if GetChange(s, sub, now).Some? {
      DropKeeps(s, GetChange(s, sub, now).value, now);
    }
  }

  // ---------------------------------------------------------------- exactly what happens

  /** The same kind and target within 300 s of the last send: the same link, its time of sending renewed, its life not. */
  lemma ResendIsExact(s: Store, sub: Sub, kind: Kind, newEmail: Address, now: Time, newToken: Token)
    requires Inv(s, now) && GetChange(s, sub, now).Some?
    requires var cur := GetChange(s, sub, now).value; cur.kind == kind && cur.newEmail.lower == newEmail.lower && now - cur.lastSent < 300
    ensures var cur := GetChange(s, sub, now).value;
            var (x, token) := Issue(s, sub, kind, newEmail, now, newToken);
            && token == cur.token && x.users == s.users && x.addresses == s.addresses
            && token in s.tokens && x.tokens == s.tokens[token := Timed(cur.(lastSent := now), s.tokens[token].until)]
  {
    FindsPresent(s, sub, now);
  }

  /** Anything else: a new link of 1800 s for the user, a reservation for a change, and the end of the user's previous link. */
  lemma NewLinkIsExact(s: Store, sub: Sub, kind: Kind, newEmail: Address, now: Time, newToken: Token)
    requires Inv(s, now) && newToken !in s.tokens
    requires GetChange(s, sub, now).Some? ==>
               var cur := GetChange(s, sub, now).value; cur.kind != kind || cur.newEmail.lower != newEmail.lower || now - cur.lastSent >= 300
    ensures var (x, token) := Issue(s, sub, kind, newEmail, now, newToken);
            && token == newToken
            && Find(x.tokens, token, now) == Some(Record(sub, kind, newEmail, newToken, now, now)) && x.tokens[token].until == now + 1800
            && Find(x.users, sub, now) == Some(token)
            && (kind.Change? ==> Find(x.addresses, newEmail.lower, now) == Some(sub))
            && (forall t :: t in s.tokens && Find(s.users, sub, now) != Some(t) ==> t in x.tokens && x.tokens[t] == s.tokens[t])
            && (forall t :: Find(s.users, sub, now) == Some(t) ==> t !in x.tokens)
            && (forall u :: u in s.users && u != sub ==> u in x.users && x.users[u] == s.users[u])
  {
    FindsPresent(s, sub, now);
  }

  /** A live link is redeemed with its record; any other token changes nothing. */
  lemma RedemptionIsExact(s: Store, token: Token, now: Time)
    ensures var (x, r) := Redeem(s, token, now);
            var live := token in s.tokens && now < s.tokens[token].until;
            && (!live ==> x == s && r.None?)
            && (live ==>
                  && r == Some(s.tokens[token].value) && x.tokens == s.tokens - {token} && x.users == s.users - {r.value.sub}
                  && x.addresses == if r.value.kind == Change then s.addresses - {r.value.newEmail.lower} else s.addresses)
  {
  }

  /** Cancelling ends exactly a pending link of the user, with its pointer and its reservation. */
  lemma CancellationIsExact(s: Store, sub: Sub, now: Time)
    ensures var (x, done) := Cancel(s, sub, now);
            && (done <==> sub in s.users && now < s.users[sub].until && s.users[sub].value in s.tokens && now < s.tokens[s.users[sub].value].until)
            && (!done ==> x == s)
            && (done ==>
                  var r := s.tokens[s.users[sub].value].value;
                  && x.tokens == s.tokens - {r.token} && x.users == s.users - {r.sub}
                  && x.addresses == if r.kind == Change then s.addresses - {r.newEmail.lower} else s.addresses)
  {
  }

  /** An address may be taken exactly while no other user's reservation of it lives. */
  lemma FreeIsExact(s: Store, sub: Sub, newEmail: Address, now: Time)
    ensures Free(s, sub, newEmail, now) <==>
              newEmail.lower !in s.addresses || s.addresses[newEmail.lower].until <= now || s.addresses[newEmail.lower].value == sub
  {
  }

  /** A run's steps: the route starts a change only for a free address, and every operation sees the clock as it stands then. */
  lemma StepIsExact(w: World, step: Step)
    ensures var x, now := Do(w, step), w.now + step.wait;
            && x.now == now && x.next > w.next
            && (step.Start? && Free(w.s, step.sub, step.newEmail, now) ==> x.s == Issue(w.s, step.sub, Change, step.newEmail, now, w.next).0)
            && (step.Start? && !Free(w.s, step.sub, step.newEmail, now) ==> x.s == w.s)
            && (step.ConfirmCurrent? ==> x.s == Issue(w.s, step.sub, Confirm, step.email, now, w.next).0)
            && (step.Follow? ==> x.s == Redeem(w.s, step.token, now).0)
            && (step.GiveUp? ==> x.s == Cancel(w.s, step.sub, now).0)
  {
  }

  // ---------------------------------------------------------------- what the correspondence means

  /** A user has at most one live link. */
  lemma OneLinkPerUser(s: Store, now: Time, t: Token, u: Token)
    requires Inv(s, now) && Find(s.tokens, t, now).Some? && Find(s.tokens, u, now).Some?
    requires Find(s.tokens, t, now).value.sub == Find(s.tokens, u, now).value.sub
    ensures t == u
  {
    assert LinkOk(Present(s, now), t) && LinkOk(Present(s, now), u);
  }

  /** An address is reserved exactly when a live change targets it, in any letter case, and for that change's user. */
  lemma ReservedExactlyWhenTargeted(s: Store, now: Time, newEmail: Address, sub: Sub)
    requires Inv(s, now)
    ensures Find(s.addresses, Lower(newEmail), now) == Some(sub) <==>
            exists t: Token :: Find(s.tokens, t, now).Some? && Find(s.tokens, t, now).value.sub == sub
                               && Find(s.tokens, t, now).value.kind.Change? && Lower(Find(s.tokens, t, now).value.newEmail) == Lower(newEmail)
  {
    var p, a := Present(s, now), Lower(newEmail);
    assert AddressOk(p, a);
    if Find(s.addresses, a, now) == Some(sub) {
      var t := p.users[sub].value;
      assert UserOk(p, sub);
      assert Find(s.tokens, t, now).Some?;
    }
    if t: Token :| Find(s.tokens, t, now).Some? && Find(s.tokens, t, now).value.sub == sub
                   && Find(s.tokens, t, now).value.kind.Change? && Lower(Find(s.tokens, t, now).value.newEmail) == a {
      assert LinkOk(p, t);
    }
  }

  /** Redemption gives the pending record out once and frees its link, its user and its address. */
  lemma RedeemFreesEverything(s: Store, token: Token, now: Time)
    requires Inv(s, now) && Redeem(s, token, now).1.Some?
    ensures var (x, r) := Redeem(s, token, now);
            && Find(s.users, r.value.sub, now) == Some(token)
            && Redeem(x, token, now).1.None? && GetChange(x, r.value.sub, now).None?
            && (r.value.kind.Change? ==> Find(s.addresses, Lower(r.value.newEmail), now) == Some(r.value.sub)
                                         && Find(x.addresses, Lower(r.value.newEmail), now).None?)
  {
    assert LinkOk(Present(s, now), token);
  }

  /** Without the route's owner check two users could target one address, and redeeming one link would free the other's reservation. */
  lemma OwnerCheckIsNeeded()
    ensures var small, large := Address("a@x", "a@x"), Address("A@x", "a@x");
            var one := Issue(EMPTY, 1, Change, small, 0, 10).0;
            var two := Issue(one, 2, Change, large, 0, 11).0;
            var three := Redeem(two, 10, 1).0;
            && !Free(one, 2, large, 0)
            && GetChange(three, 2, 1).Some? && Find(three.addresses, "a@x", 1).None?
  {
  }

  // ---------------------------------------------------------------- runs

  datatype Step = Start(sub: Sub, newEmail: Address, wait: nat) | ConfirmCurrent(sub: Sub, email: Address, wait: nat)
                | Follow(token: Token, wait: nat) | GiveUp(sub: Sub, wait: nat)

  /** The store, the clock, and the next token to be drawn. */
  datatype World = World(s: Store, now: Time, next: Token)

  function StoreAfter(s: Store, step: Step, now: Time, next: Token): Store {
    match step
    case Start(sub, newEmail, _) => if Free(s, sub, newEmail, now) then Issue(s, sub, Change, newEmail, now, next).0 else s
    case ConfirmCurrent(sub, email, _) => Issue(s, sub, Confirm, email, now, next).0
    case Follow(token, _) => Redeem(s, token, now).0
    case GiveUp(sub, _) => Cancel(s, sub, now).0
  }

  function Do(w: World, step: Step): World {
    var now := w.now + step.wait;
    World(StoreAfter(w.s, step, now, w.next), now, w.next + 1)
  }

  function Run(w: World, steps: seq<Step>): World {
    if steps == [] then w else Do(Run(w, steps[..|steps| - 1]), steps[|steps| - 1])
  }

  predicate DrawnEarlier(w: World) {
    forall t :: t in w.s.tokens ==> t < w.next
  }

  ghost predicate WorldOk(w: World) {
    Inv(w.s, w.now) && DrawnEarlier(w)
  }

  /** A token that is gone never returns. */
  predicate Spent(w: World, token: Token) {
    token < w.next && token !in w.s.tokens
  }

  lemma OperationsKeep(s: Store, step: Step, now: Time, next: Token)
    requires Inv(s, now) && next !in s.tokens
    ensures Inv(StoreAfter(s, step, now, next), now)
  {
    match step
    case Start(sub, newEmail, _) =>
      if Free(s, sub, newEmail, now) {
        IssueKeeps(s, sub, Change, newEmail, now, next);
      }
    case ConfirmCurrent(sub, email, _) => IssueKeeps(s, sub, Confirm, email, now, next);
    case Follow(token, _) => RedeemKeeps(s, token, now);
    case GiveUp(sub, _) => CancelKeeps(s, sub, now);
  }

  lemma LaterOperationsKeep(s: Store, step: Step, before: Time, now: Time, next: Token)
    requires Inv(s, before) && before <= now && next !in s.tokens
    ensures Inv(StoreAfter(s, step, now, next), now)
  {
    TimePasses(s, before, now);
    OperationsKeep(s, step, now, next);
  }

  /** The only new token is the one just drawn. */
  lemma StepDrawsTokens(w: World, step: Step, token: Token)
    ensures token in Do(w, step).s.tokens ==> token in w.s.tokens || token == w.next < Do(w, step).next
    ensures w.next <= Do(w, step).next
  {
  }

  lemma StepKeepsDrawn(w: World, step: Step)
    requires DrawnEarlier(w)
    ensures w.next !in w.s.tokens && DrawnEarlier(Do(w, step))
  {
    forall t | t in Do(w, step).s.tokens ensures t < Do(w, step).next {
      StepDrawsTokens(w, step, t);
    }
  }

  lemma StepKeeps(w: World, step: Step)
    requires WorldOk(w)
    ensures WorldOk(Do(w, step))
  {
    StepKeepsDrawn(w, step);
    var now := w.now + step.wait;
    var after := StoreAfter(w.s, step, now, w.next);
    LaterOperationsKeep(w.s, step, w.now, now, w.next);
    assert Do(w, step) == World(after, now, w.next + 1);
    assert Inv(after, now);
  }

  /** Every run keeps tokens, users and addresses in correspondence. */
  lemma {:induction false} RunKeeps(w: World, steps: seq<Step>)
    requires WorldOk(w)
    ensures WorldOk(Run(w, steps))
  {
    if steps != [] {
      RunKeeps(w, steps[..|steps| - 1]);
      StepKeeps(Run(w, steps[..|steps| - 1]), steps[|steps| - 1]);
    }
  }

  lemma {:induction false} SpentForever(w: World, steps: seq<Step>, token: Token)
    requires Spent(w, token)
    ensures Spent(Run(w, steps), token)
  {
    if steps != [] {
      SpentForever(w, steps[..|steps| - 1], token);
      StepDrawsTokens(Run(w, steps[..|steps| - 1]), steps[|steps| - 1], token);
    }
  }

  /** A link works at most once, whatever happens before and after. */
  lemma LinksWorkOnce(w: World, before: seq<Step>, token: Token, after: seq<Step>, now: Time)
    requires WorldOk(w) && Redeem(Run(w, before).s, token, Run(w, before).now).1.Some?
    ensures Redeem(Run(Do(Run(w, before), Follow(token, 0)), after).s, token, now).1.None?
  {
    var x := Run(w, before);
    RunKeeps(w, before);
    StepKeeps(x, Follow(token, 0));
    SpentForever(Do(x, Follow(token, 0)), after, token);
  }

  // ---------------------------------------------------------------- the store

  class Changes {
    var tokens: map<Token, Timed<Record>>
    var users: map<Sub, Timed<Token>>
    var addresses: map<string, Timed<Sub>>

    function S(): Store
      reads this
    {
      Store(tokens, users, addresses)
    }

    constructor ()
      ensures S() == EMPTY
    {
      tokens, users, addresses := map[], map[], map[];
    }

    method DropChange(r: Record)
      modifies this
      ensures S() == Drop(old(S()), r)
    {
      tokens := tokens - {r.token};
      users := users - {r.sub};
      if r.kind.Change? {
        addresses := addresses - {Lower(r.newEmail)};
      }
    }

    method IssueChange(sub: Sub, kind: Kind, newEmail: Address, now: Time, newToken: Token) returns (token: Token, reused: bool)
      requires Inv(S(), now) && newToken !in tokens
      modifies this
      ensures (S(), token) == Issue(old(S()), sub, kind, newEmail, now, newToken)
      ensures reused <==> token != newToken
      ensures (kind.Change? ==> Free(old(S()), sub, newEmail, now)) ==> Inv(S(), now)
    {
      if kind.Confirm? || Free(S(), sub, newEmail, now) {
        IssueKeeps(S(), sub, kind, newEmail, now, newToken);
      }
      FindsPresent(S(), sub, now);
      var cur := GetChange(S(), sub, now);
      if cur.Some? && cur.value.kind == kind && Lower(cur.value.newEmail) == Lower(newEmail) && now - cur.value.lastSent < TOKEN_REUSE {
        var t := cur.value.token;
        tokens := tokens[t := Timed(cur.value.(lastSent := now), tokens[t].until)];
        return t, true;
      }
      if cur.Some? {
        DropChange(cur.value);
      }
      tokens := tokens[newToken := Timed(Record(sub, kind, newEmail, newToken, now, now), now + TOKEN_TTL)];
      users := users[sub := Timed(newToken, now + TOKEN_TTL)];
      if kind.Change? {
        addresses := addresses[Lower(newEmail) := Timed(sub, now + TOKEN_TTL)];
      }
      return newToken, false;
    }

    method RedeemChange(token: Token, now: Time) returns (r: Option<Record>)
      requires Inv(S(), now)
      modifies this
      ensures (S(), r) == Redeem(old(S()), token, now) && Inv(S(), now)
    {
      RedeemKeeps(S(), token, now);
      r := Find(tokens, token, now);
      if r.Some? {
        tokens := tokens - {token};
        users := users - {r.value.sub};
        if r.value.kind.Change? {
          addresses := addresses - {Lower(r.value.newEmail)};
        }
      }
    }

    method CancelChange(sub: Sub, now: Time) returns (done: bool)
      requires Inv(S(), now)
      modifies this
      ensures (S(), done) == Cancel(old(S()), sub, now) && Inv(S(), now)
    {
      CancelKeeps(S(), sub, now);
      var cur := GetChange(S(), sub, now);
      done := cur.Some?;
      if done {
        DropChange(cur.value);
      }
    }
  }
}
