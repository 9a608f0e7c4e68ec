// The sign-in handlers as they run: each reads a transaction, changes it in place
// and writes it back, or ends it.
module LoginService {
  import opened Common
  import opened Login

  class LoginService {
    var accounts: map<Sub, Account>
    var txns: map<Id, Txn>
    var sessions: map<Id, Session>
    var codes: seq<Code>
    var proofs: set<Proof>
    var next: Id

    function W(): World
      reads this
    {
      World(accounts, txns, sessions, codes, proofs, next)
    }

    constructor (w: World)
      ensures W() == w
    {
      accounts, txns, sessions, codes, proofs, next := w.accounts, w.txns, w.sessions, w.codes, w.proofs, w.next;
    }

    // -------------------------------------------------------------- the stores

    method CreateTxn(client: Client, local: bool, mfa: Option<Mfa>) returns (id: Id)
      modifies this`txns, this`next
      ensures W() == NewTxn(old(W()), client, local, mfa) && id == old(next)
    {
      id := next;
      txns := txns[id := Txn(client, local, next + 1, None, mfa, None)];
      next := next + 2;
    }

    method GetTxn(id: Id) returns (t: Option<Txn>)
      ensures t == if id in txns then Some(txns[id]) else None
    {
      t := if id in txns then Some(txns[id]) else None;
    }

    method UpdateTxn(id: Id, t: Txn)
      modifies this`txns
      ensures W() == PutTxn(old(W()), id, t)
    {
      txns := txns[id := t];
    }

    method ConsumeTxn(id: Id)
      modifies this`txns
      ensures W() == DropTxn(old(W()), id)
    {
      txns := txns - {id};
    }

    method MintChallenge() returns (c: Id)
      modifies this`next
      ensures W() == old(W()).(next := old(next) + 1) && c == old(next)
    {
      c := next;
      next := next + 1;
    }

    method Record(id: Id, sub: Sub, factor: Factor)
      modifies this`proofs
      ensures W() == Prove(old(W()), id, sub, factor)
    {
      proofs := proofs + {Proof(id, sub, factor)};
    }

    method CreateSession(id: Id, sub: Sub, amr: seq<Factor>, acr: Acr) returns (sid: Id)
      requires sub in accounts
      modifies this`sessions, this`next
      ensures sid == old(next)
      ensures W() == old(W()).(sessions := old(sessions)[sid := Session(sub, amr, acr, MethodFromAmr(amr), true, false, id, accounts[sub])], next := sid + 1)
    {
      sid := next;
      sessions := sessions[sid := Session(sub, amr, acr, MethodFromAmr(amr), true, false, id, accounts[sub])];
      next := next + 1;
    }

    method Finish(id: Id, sub: Sub, amr: seq<Factor>, acr: Acr) returns (reply: Reply)
      requires id in txns && sub in accounts
      modifies this`sessions, this`next, this`txns
      ensures W() == FinishLogin(old(W()), id, sub, amr, acr) && reply == StayPage
    {
      var sid := CreateSession(id, sub, amr, acr);
      UpdateTxn(id, txns[id].(kmsi := Some(Kmsi(sid, sub, amr, acr))));
      reply := StayPage;
    }

    // -------------------------------------------------------------- pages

    method ShowLogin(id: Id) returns (reply: Reply)
      requires id in txns
      modifies this`txns, this`next
      ensures Result(W(), reply) == RenderLogin(old(W()), id)
    {
      if txns[id].passkey.None? {
        var c := MintChallenge();
        UpdateTxn(id, txns[id].(passkey := Some(c)));
      }
      reply := LoginForm;
    }

    method ShowChallenge(id: Id, wanted: Option<Method>) returns (reply: Reply)
      requires id in txns && txns[id].mfa.Some? && txns[id].mfa.value.methods != []
      modifies this`txns, this`next
      ensures Result(W(), reply) == RenderChallenge(old(W()), id, wanted)
    {
      var mfa := txns[id].mfa.value;
      var shown := if wanted.Some? && wanted.value in mfa.methods then wanted.value else mfa.methods[0];
      if shown.UsePasskey? {
        var c := MintChallenge();
        UpdateTxn(id, txns[id].(mfa := Some(mfa.(challenge := Some(c)))));
      }
      reply := ChallengePage(shown);
    }

    method ShowPhase(id: Id, wanted: Option<Method>) returns (reply: Reply)
      requires id in txns && WellFormed(W())
      modifies this`txns, this`next
      ensures Result(W(), reply) == RenderPhase(old(W()), id, wanted)
    {
      if txns[id].kmsi.Some? {
        reply := StayPage;
      } else if txns[id].mfa.Some? {
        reply := ShowChallenge(id, wanted);
      } else {
        reply := ShowLogin(id);
      }
    }

    // -------------------------------------------------------------- handlers

    method OnAuthorize(r: AuthorizeReq) returns (reply: Reply)
      modifies this`txns, this`next, this`codes
      ensures Result(W(), reply) == Authorize(old(W()), r)
    {
      if !r.valid {
        return RequestError;
      }
      var session := if r.force then None else LoadSession(W(), r.cookie);
      if session.Some? && !r.tooOld {
        var s := session.value;
        if !Allowed(W(), r.client, s.sub) {
          return AccessDenied;
        }
        if r.stepUp {
          var methods: seq<Method> := [];
          if r.wantPasskey && accounts[s.sub].passkeys > 0 { methods := methods + [UsePasskey]; }
          if r.wantTotp && accounts[s.sub].totps > 0 { methods := methods + [UseTotp]; }
          assert methods == StepUpMethods(accounts[s.sub], r.wantPasskey, r.wantTotp);
          if methods == [] {
            return EnrollPage;
          }
          var id := CreateTxn(r.client, false, Some(Mfa(s.sub, ReturnTo(r.cookie.value), methods, 0, false, None)));
          return ToLogin(id);
        }
        var code := Code(None, r.client, s.sub, r.cookie.value, s.amr, s.acr);
        codes := codes + [code];
        return ToClient(code);
      }
      if r.none {
        return LoginRequired;
      }
      var id := CreateTxn(r.client, false, None);
      reply := ToLogin(id);
    }

    method OnAdminDoor(cookie: Option<Id>, permitted: bool, satisfied: bool) returns (reply: Reply)
      modifies this`txns, this`next
      ensures Result(W(), reply) == AdminDoor(old(W()), cookie, permitted, satisfied)
    {
      var session := LoadSession(W(), cookie);
      if session.None? {
        return LoginRequired;
      }
      if !permitted {
        return Refused;
      }
      if satisfied {
        return ToLocal;
      }
      var a := accounts[session.value.sub];
      var methods := if a.passkeys > 0 then [UsePasskey] else if a.totps > 0 then [UseTotp] else [];
      if methods == [] {
        return EnrollPage;
      }
      var id := CreateTxn(0, true, Some(Mfa(session.value.sub, Stamp(cookie.value), methods, 0, false, None)));
      reply := ToLogin(id);
    }

    method OnLogin(id: Id, csrf: Id, who: Option<Sub>) returns (reply: Reply)
      requires WellFormed(W())
      modifies this
      ensures Result(W(), reply) == PostLogin(old(W()), id, csrf, who)
    {
      var found := GetTxn(id);
      if found.None? {
        return ExpiredPage;
      }
      var t := found.value;
      if t.kmsi.Some? || t.mfa.Some? {
        reply := ShowPhase(id, None);
        return;
      }
      if csrf != t.csrf {
        return BadRequest;
      }
      if who.None? || who.value !in accounts || !accounts[who.value].active {
        reply := ShowLogin(id);
        return;
      }
      var sub := who.value;
      Record(id, sub, Pwd);
      if accounts[sub].mfaEnabled {
        var methods: seq<Method> := [];
        if accounts[sub].passkeys > 0 { methods := methods + [UsePasskey]; }
        if accounts[sub].totps > 0 { methods := methods + [UseTotp]; }
        if methods == [] && accounts[sub].email { methods := methods + [UseEmail]; }
        assert methods == LoginMethods(accounts[sub]);
        if methods != [] {
          UpdateTxn(id, t.(mfa := Some(Mfa(sub, SecondFactor, methods, 0, false, None))));
          reply := ShowChallenge(id, None);
          return;
        }
      }
      reply := Finish(id, sub, [Pwd], OneFactor);
    }

    method OnPasskey(id: Id, csrf: Id, a: Option<Assertion>) returns (reply: Reply)
      requires WellFormed(W())
      modifies this
      ensures Result(W(), reply) == PostPasskey(old(W()), id, csrf, a)
    {
      var found := GetTxn(id);
      if found.None? {
        return ExpiredPage;
      }
      var t := found.value;
      if t.kmsi.Some? || t.mfa.Some? {
        reply := ShowPhase(id, None);
        return;
      }
      if csrf != t.csrf {
        return BadRequest;
      }
      var verified := a.Some? && t.passkey == Some(a.value.challenge);
      if verified {
        Record(id, a.value.sub, Passkey);
      }
      if verified && a.value.sub in accounts && accounts[a.value.sub].active {
        reply := Finish(id, a.value.sub, [Passkey], TwoFactor);
      } else {
        UpdateTxn(id, t.(passkey := None));
        reply := ShowLogin(id);
      }
    }

    method OnSendEmail(id: Id, csrf: Id, sent: bool) returns (reply: Reply)
      requires WellFormed(W())
      modifies this`txns, this`next
      ensures Result(W(), reply) == SendEmail(old(W()), id, csrf, sent)
    {
      var found := GetTxn(id);
      if found.None? || found.value.mfa.None? {
        return ExpiredPage;
      }
      var t := found.value;
      if csrf != t.csrf || UseEmail !in t.mfa.value.methods {
        return BadRequest;
      }
      if sent {
        UpdateTxn(id, t.(mfa := Some(t.mfa.value.(emailSent := true))));
      }
      reply := ShowChallenge(id, Some(UseEmail));
    }

    method FailStrong(id: Id, used: Method) returns (reply: Reply)
      requires id in txns && txns[id].mfa.Some? && txns[id].mfa.value.methods != []
      modifies this`txns, this`next
      ensures Result(W(), reply) == StrongFail(old(W()), id, used)
    {
      var mfa := txns[id].mfa.value;
      mfa := mfa.(attempts := mfa.attempts + 1);
      if mfa.attempts >= MAX_CHALLENGE_ATTEMPTS {
        ConsumeTxn(id);
        return TooManyAttempts;
      }
      UpdateTxn(id, txns[id].(mfa := Some(mfa)));
      reply := ShowChallenge(id, Some(used));
    }

    method SucceedStrong(id: Id, amr: seq<Factor>, acr: Acr) returns (reply: Reply)
      requires id in txns && txns[id].mfa.Some? && txns[id].mfa.value.sub in accounts
      modifies this
      ensures Result(W(), reply) == Succeed(old(W()), id, amr, acr)
    {
      var t, mfa := txns[id], txns[id].mfa.value;
      match mfa.mode
      case ReturnTo(sid) =>
        if !Allowed(W(), t.client, mfa.sub) {
          ConsumeTxn(id);
          return AccessDenied;
        }
        var code := Code(Some(id), t.client, mfa.sub, sid, WithoutPwd(amr), StepUp);
        codes := codes + [code];
        ConsumeTxn(id);
        reply := ToClient(code);
      case Stamp(sid) =>
        if sid in sessions && sessions[sid].live {
          sessions := sessions[sid := sessions[sid].(stamp := MethodFromAmr(amr))];
        }
        ConsumeTxn(id);
        reply := ToLocal;
      case SecondFactor =>
        reply := Finish(id, mfa.sub, amr, acr);
    }

    method OnChallenge(id: Id, csrf: Id, chosen: Method, answer: Answer) returns (reply: Reply)
      requires WellFormed(W())
      modifies this
      ensures Result(W(), reply) == PostChallenge(old(W()), id, csrf, chosen, answer)
    {
      var found := GetTxn(id);
      if found.None? {
        return ExpiredPage;
      }
      var t := found.value;
      if t.kmsi.Some? {
        return StayPage;
      }
      if t.mfa.None? {
        return ExpiredPage;
      }
      if csrf != t.csrf || chosen !in t.mfa.value.methods {
        return BadRequest;
      }
      var mfa := t.mfa.value;
      match chosen
      case UseTotp =>
        if answer != ByCode(true) {
          reply := FailStrong(id, UseTotp);
          return;
        }
        Record(id, mfa.sub, Otp);
        reply := SucceedStrong(id, [Pwd, Otp], TwoFactor);
      case UsePasskey =>
        UpdateTxn(id, t.(mfa := Some(mfa.(challenge := None))));
        if answer.ByCode? || answer.a.None? || mfa.challenge != Some(answer.a.value.challenge) || answer.a.value.sub != mfa.sub {
          reply := FailStrong(id, UsePasskey);
          return;
        }
        Record(id, mfa.sub, Passkey);
        reply := SucceedStrong(id, [Pwd, Passkey], TwoFactor);
      case UseEmail =>
        if answer != ByCode(true) {
          reply := ShowChallenge(id, Some(UseEmail));
          return;
        }
        Record(id, mfa.sub, Email);
        reply := Finish(id, mfa.sub, [Pwd, Email], TwoFactor);
    }

    method OnStay(id: Id, csrf: Id, yes: bool, cookie: Option<Id>) returns (reply: Reply)
      modifies this`txns, this`sessions, this`codes
      ensures Result(W(), reply) == PostStay(old(W()), id, csrf, yes, cookie)
    {
      var found := GetTxn(id);
      if found.None? || found.value.kmsi.None? {
        return ExpiredPage;
      }
      var t, k := found.value, found.value.kmsi.value;
      if csrf != t.csrf {
        return BadRequest;
      }
      if yes && cookie == Some(k.sid) && k.sid in sessions && sessions[k.sid].live {
        sessions := sessions[k.sid := sessions[k.sid].(persistent := true)];
      }
      if t.local {
        ConsumeTxn(id);
        return ToLocal;
      }
      if !Allowed(W(), t.client, k.sub) {
        ConsumeTxn(id);
        return AccessDenied;
      }
      var code := Code(Some(id), t.client, k.sub, k.sid, k.amr, k.acr);
      codes := codes + [code];
      ConsumeTxn(id);
      reply := ToClient(code);
    }
  }
}
