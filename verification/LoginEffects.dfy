// What each sign-in request replies and changes, from the fields of the account and
// the transaction alone.
module LoginEffects {
  import opened Common
  import opened Login
  import opened LoginTheorems

  // ---------------------------------------------------------------- building blocks

  /** The sudo stamp is the strongest factor: passkey, authenticator, email, password. */
  lemma StampIsStrongest(amr: seq<Factor>)
    ensures MethodFromAmr(amr) == Passkey <==> Passkey in amr
    ensures MethodFromAmr(amr) == Otp <==> Otp in amr && Passkey !in amr
    ensures MethodFromAmr(amr) == Email <==> Email in amr && Passkey !in amr && Otp !in amr
  {
  }

  /** A cookie loads the live session it names, if its account is active. */
  lemma SessionLoads(w: World, cookie: Option<Id>)
    ensures LoadSession(w, cookie).Some? <==>
              && cookie.Some? && cookie.value in w.sessions && w.sessions[cookie.value].live
              && w.sessions[cookie.value].sub in w.accounts && w.accounts[w.sessions[cookie.value].sub].active
    ensures LoadSession(w, cookie).Some? ==> LoadSession(w, cookie).value == w.sessions[cookie.value]
  {
  }

  predicate Opened(w: World, x: World, id: Id, sub: Sub, amr: seq<Factor>, acr: Acr, stamp: Factor)
    requires id in w.txns && sub in w.accounts
  {
    && x.sessions == w.sessions[w.next := Session(sub, amr, acr, stamp, true, false, id, w.accounts[sub])]
    && x.txns == w.txns[id := w.txns[id].(kmsi := Some(Kmsi(w.next, sub, amr, acr)))]
    && x.codes == w.codes && x.accounts == w.accounts
  }

  /** Finishing a login opens one live, transient session, stamped with its strongest factor, and asks whether to stay. */
  lemma FinishIsExact(w: World, id: Id, sub: Sub, amr: seq<Factor>, acr: Acr)
    requires id in w.txns && sub in w.accounts
    ensures Opened(w, FinishLogin(w, id, sub, amr, acr), id, sub, amr, acr, MethodFromAmr(amr))
    ensures FinishLogin(w, id, sub, amr, acr).next == w.next + 1 && FinishLogin(w, id, sub, amr, acr).proofs == w.proofs
  {
  }

  /** A new transaction is in its first phase unless it starts with a challenge. */
  lemma NewTxnIsExact(w: World, client: Client, local: bool, mfa: Option<Mfa>)
    ensures var x := NewTxn(w, client, local, mfa);
            && x.txns == w.txns[w.next := Txn(client, local, w.next + 1, None, mfa, None)] && x.next == w.next + 2
            && x.sessions == w.sessions && x.codes == w.codes && x.proofs == w.proofs && x.accounts == w.accounts
  {
  }

  predicate OnlyTxns(w: World, x: World) {
    x.sessions == w.sessions && x.codes == w.codes && x.accounts == w.accounts
  }

  /** The login form keeps its challenge or gets a new one. */
  lemma LoginFormIsExact(w: World, id: Id)
    requires id in w.txns
    ensures var r := RenderLogin(w, id);
            && r.reply == LoginForm && OnlyTxns(w, r.w) && r.w.proofs == w.proofs
            && r.w.txns == w.txns[id := w.txns[id].(passkey := if w.txns[id].passkey.Some? then w.txns[id].passkey else Some(w.next))]
            && r.w.next == (if w.txns[id].passkey.Some? then w.next else w.next + 1)
  {
  }

  /** The challenge shows the wanted method if it is offered, else the first; the passkey page carries a new challenge. */
  lemma ChallengePageIsExact(w: World, id: Id, wanted: Option<Method>)
    requires id in w.txns && w.txns[id].mfa.Some? && w.txns[id].mfa.value.methods != []
    ensures var r, mfa := RenderChallenge(w, id, wanted), w.txns[id].mfa.value;
            var shown := if wanted.Some? && wanted.value in mfa.methods then wanted.value else mfa.methods[0];
            && r.reply == ChallengePage(shown) && OnlyTxns(w, r.w) && r.w.proofs == w.proofs
            && r.w.txns == w.txns[id := w.txns[id].(mfa := Some(mfa.(challenge := if shown == UsePasskey then Some(w.next) else mfa.challenge)))]
            && r.w.next == (if shown == UsePasskey then w.next + 1 else w.next)
  {
  }

  // ---------------------------------------------------------------- the password form

  /** Exactly what an account owns, strongest first; the email code only without a strong factor. */
  predicate Offers(methods: seq<Method>, a: Account) {
    && (UsePasskey in methods <==> a.passkeys > 0)
    && (UseTotp in methods <==> a.totps > 0)
    && (UseEmail in methods <==> a.passkeys == 0 && a.totps == 0 && a.email)
    && (a.passkeys > 0 ==> methods[..1] == [UsePasskey])
    && |methods| <= 2
  }

  lemma OffersAreExact(a: Account)
    ensures LoginMethods(a) == (if a.passkeys > 0 && a.totps > 0 then [UsePasskey, UseTotp] else if a.passkeys > 0 then [UsePasskey]
                                else if a.totps > 0 then [UseTotp] else if a.email then [UseEmail] else [])
  {
  }

  /** In its first phase a transaction is answered by the right password alone if the account owes no second factor, and else by a challenge. */
  lemma PasswordIsExact(w: World, id: Id, who: Option<Sub>)
    requires WellFormed(w) && id in w.txns && w.txns[id].kmsi.None? && w.txns[id].mfa.None?
    ensures var r := PostLogin(w, id, w.txns[id].csrf, who);
            && (who.None? || who.value !in w.accounts || !w.accounts[who.value].active ==>
                  r.reply == LoginForm && OnlyTxns(w, r.w) && r.w.proofs == w.proofs && id in r.w.txns && Phase(r.w.txns[id]) == 0)
            && (who.Some? && who.value in w.accounts && w.accounts[who.value].active ==>
                  var sub, a := who.value, w.accounts[who.value];
                  && r.w.proofs == w.proofs + {Proof(id, sub, Pwd)}
                  && (!(a.mfaEnabled && (a.passkeys > 0 || a.totps > 0 || a.email)) ==>
                        r.reply == StayPage && Opened(w, r.w, id, sub, [Pwd], OneFactor, Pwd))
                  && (a.mfaEnabled && (a.passkeys > 0 || a.totps > 0 || a.email) ==>
                        && OnlyTxns(w, r.w) && id in r.w.txns && r.w.txns[id].kmsi.None? && r.w.txns[id].mfa.Some?
                        && var mfa := r.w.txns[id].mfa.value;
                           && mfa.sub == sub && mfa.mode == SecondFactor && mfa.attempts == 0 && !mfa.emailSent
                           && mfa.methods != [] && Offers(mfa.methods, a) && r.reply == ChallengePage(mfa.methods[0])))
  {
    if who.Some? && who.value in w.accounts {
      OffersAreExact(w.accounts[who.value]);
    }
  }

  /** A form sent to a later phase shows that phase again; one without the token is refused. */
  lemma PasswordElsewhere(w: World, id: Id, csrf: Id, who: Option<Sub>)
    requires WellFormed(w)
    ensures var r := PostLogin(w, id, csrf, who);
            && (id !in w.txns ==> r == Result(w, ExpiredPage))
            && (id in w.txns && w.txns[id].kmsi.Some? ==> r == Result(w, StayPage))
            && (id in w.txns && w.txns[id].kmsi.None? && w.txns[id].mfa.Some? ==> r == RenderChallenge(w, id, None))
            && (id in w.txns && w.txns[id].kmsi.None? && w.txns[id].mfa.None? && csrf != w.txns[id].csrf ==> r == Result(w, BadRequest))
  {
  }

  // ---------------------------------------------------------------- the first-factor passkey

  /** An assertion over the transaction's own challenge signs an active account in at once; any other attempt uses the challenge up. */
  lemma PasskeyIsExact(w: World, id: Id, a: Option<Assertion>)
    requires WellFormed(w) && id in w.txns && w.txns[id].kmsi.None? && w.txns[id].mfa.None?
    ensures var r := PostPasskey(w, id, w.txns[id].csrf, a);
            var verified := a.Some? && w.txns[id].passkey == Some(a.value.challenge);
            && r.w.proofs == (if verified then w.proofs + {Proof(id, a.value.sub, Passkey)} else w.proofs)
            && (verified && a.value.sub in w.accounts && w.accounts[a.value.sub].active ==>
                  r.reply == StayPage && Opened(w, r.w, id, a.value.sub, [Passkey], TwoFactor, Passkey))
            && (!(verified && a.value.sub in w.accounts && w.accounts[a.value.sub].active) ==>
                  r.reply == LoginForm && OnlyTxns(w, r.w) && r.w.txns == w.txns[id := w.txns[id].(passkey := Some(w.next))])
  {
  }

  lemma PasskeyElsewhere(w: World, id: Id, csrf: Id, a: Option<Assertion>)
    requires WellFormed(w)
    ensures var r := PostPasskey(w, id, csrf, a);
            && (id !in w.txns ==> r == Result(w, ExpiredPage))
            && (id in w.txns && w.txns[id].kmsi.Some? ==> r == Result(w, StayPage))
            && (id in w.txns && w.txns[id].kmsi.None? && w.txns[id].mfa.Some? ==> r == RenderChallenge(w, id, None))
            && (id in w.txns && w.txns[id].kmsi.None? && w.txns[id].mfa.None? && csrf != w.txns[id].csrf ==> r == Result(w, BadRequest))
  {
  }

  // ---------------------------------------------------------------- /authorize and the admin door

  /** The session that a well-formed request may reuse. */
  predicate Reuses(w: World, r: AuthorizeReq) {
    && !r.force && !r.tooOld && r.cookie.Some? && r.cookie.value in w.sessions && w.sessions[r.cookie.value].live
    && w.sessions[r.cookie.value].sub in w.accounts && w.accounts[w.sessions[r.cookie.value].sub].active
  }

  /** A usable session gives a code of its own factors, or starts a fresh challenge for a step-up; otherwise the user signs in. */
  lemma AuthorizeIsExact(w: World, r: AuthorizeReq)
    ensures var o := Authorize(w, r);
            && (!r.valid ==> o == Result(w, RequestError))
            && (r.valid && !Reuses(w, r) && r.none ==> o == Result(w, LoginRequired))
            && (r.valid && !Reuses(w, r) && !r.none ==> o == Result(NewTxn(w, r.client, false, None), ToLogin(w.next)))
            && (r.valid && Reuses(w, r) ==>
                  var s := w.sessions[r.cookie.value];
                  var a := w.accounts[s.sub];
                  var code := Code(None, r.client, s.sub, r.cookie.value, s.amr, s.acr);
                  var p, t := r.wantPasskey && a.passkeys > 0, r.wantTotp && a.totps > 0;
                  var methods := if p && t then [UsePasskey, UseTotp] else if p then [UsePasskey] else [UseTotp];
                  && (r.client in a.denied ==> o == Result(w, AccessDenied))
                  && (r.client !in a.denied && !r.stepUp ==> o.reply == ToClient(code) && o.w == w.(codes := w.codes + [code]))
                  && (r.client !in a.denied && r.stepUp && !p && !t ==> o == Result(w, EnrollPage))
                  && (r.client !in a.denied && r.stepUp && (p || t) ==>
                        o == Result(NewTxn(w, r.client, false, Some(Mfa(s.sub, ReturnTo(r.cookie.value), methods, 0, false, None))), ToLogin(w.next))))
  {
    if r.valid && Reuses(w, r) {
      var a := w.accounts[w.sessions[r.cookie.value].sub];
      StepUpOffers(a, r.wantPasskey, r.wantTotp);
    }
  }

  lemma StepUpOffers(a: Account, wantPasskey: bool, wantTotp: bool)
    ensures StepUpMethods(a, wantPasskey, wantTotp) ==
              if wantPasskey && a.passkeys > 0 then (if wantTotp && a.totps > 0 then [UsePasskey, UseTotp] else [UsePasskey])
              else if wantTotp && a.totps > 0 then [UseTotp] else []
  {
  }

  /** The admin door opens for a satisfied session, and else challenges with the passkey, or without one the authenticator, of its user. */
  lemma AdminDoorIsExact(w: World, cookie: Option<Id>, permitted: bool, satisfied: bool)
    ensures var o, session := AdminDoor(w, cookie, permitted, satisfied), LoadSession(w, cookie);
            && (session.None? ==> o == Result(w, LoginRequired))
            && (session.Some? && !permitted ==> o == Result(w, Refused))
            && (session.Some? && permitted && satisfied ==> o == Result(w, ToLocal))
            && (session.Some? && permitted && !satisfied ==>
                  var a := w.accounts[session.value.sub];
                  && (a.passkeys == 0 && a.totps == 0 ==> o == Result(w, EnrollPage))
                  && (a.passkeys > 0 || a.totps > 0 ==>
                        o == Result(NewTxn(w, 0, true, Some(Mfa(session.value.sub, Stamp(cookie.value),
                                             [if a.passkeys > 0 then UsePasskey else UseTotp], 0, false, None))), ToLogin(w.next))))
  {
  }

  /** Signing in to the account portal itself starts in the first phase, for no client. */
  lemma LocalLoginIsExact(w: World)
    ensures var r := StartLocalLogin(w);
            && r.reply == ToLogin(w.next) && OnlyTxns(w, r.w) && r.w.proofs == w.proofs
            && r.w.txns == w.txns[w.next := Txn(0, true, w.next + 1, None, None, None)]
  {
  }

  /** What happens around the requests: a transaction expires, an account changes, a session ends. */
  lemma SurroundingsAreExact(w: World, id: Id, sub: Sub, a: Account)
    requires WellFormed(w)
    ensures Do(w, Expire(id)).w == w.(txns := w.txns - {id}) && Do(w, ChangeAccount(sub, a)).w == w.(accounts := w.accounts[sub := a])
    ensures var x := Do(w, EndSession(id)).w;
            && x.sessions.Keys == w.sessions.Keys && x == w.(sessions := x.sessions)
            && (forall j :: j in w.sessions && j != id ==> x.sessions[j] == w.sessions[j])
            && (id in w.sessions ==> x.sessions[id] == w.sessions[id].(live := false))
  {
  }

  // ---------------------------------------------------------------- challenges

  /** In its challenge phase a transaction offers the method. */
  predicate Challenged(w: World, id: Id, m: Method) {
    id in w.txns && w.txns[id].kmsi.None? && w.txns[id].mfa.Some? && m in w.txns[id].mfa.value.methods
  }

  /** What a verified strong factor leads to, mode by mode. */
  predicate Succeeded(w: World, r: Login.Result, id: Id, factor: Factor)
    requires id in w.txns && w.txns[id].mfa.Some? && w.txns[id].mfa.value.sub in w.accounts
  {
    var t, mfa := w.txns[id], w.txns[id].mfa.value;
    var code := Code(Some(id), t.client, mfa.sub, (if mfa.mode.SecondFactor? then 0 else mfa.mode.sid), [factor], StepUp);
    && r.w.proofs == w.proofs + {Proof(id, mfa.sub, factor)} && r.w.accounts == w.accounts
    && (mfa.mode.SecondFactor? ==>
          && r.reply == StayPage && r.w.codes == w.codes
          && r.w.sessions == w.sessions[w.next := Session(mfa.sub, [Pwd, factor], TwoFactor, factor, true, false, id, w.accounts[mfa.sub])]
          && r.w.txns.Keys == w.txns.Keys && r.w.txns[id].kmsi == Some(Kmsi(w.next, mfa.sub, [Pwd, factor], TwoFactor)))
    && (mfa.mode.ReturnTo? ==>
          && r.w.sessions == w.sessions && r.w.txns == w.txns - {id}
          && (t.client in w.accounts[mfa.sub].denied ==> r.reply == AccessDenied && r.w.codes == w.codes)
          && (t.client !in w.accounts[mfa.sub].denied ==> r.reply == ToClient(code) && r.w.codes == w.codes + [code]))
    && (mfa.mode.Stamp? ==>
          && r.reply == ToLocal && r.w.codes == w.codes && r.w.txns == w.txns - {id}
          && r.w.sessions == (if mfa.mode.sid in w.sessions && w.sessions[mfa.mode.sid].live
                              then w.sessions[mfa.mode.sid := w.sessions[mfa.mode.sid].(stamp := factor)] else w.sessions))
  }

  /** What a failed strong factor leads to: one attempt more, and the end of the transaction with the fifth. */
  predicate Failed(w: World, r: Login.Result, id: Id, used: Method)
    requires id in w.txns && w.txns[id].mfa.Some?
  {
    var mfa := w.txns[id].mfa.value;
    && OnlyTxns(w, r.w) && r.w.proofs == w.proofs
    && (mfa.attempts >= 4 ==> r.reply == TooManyAttempts && r.w.txns == w.txns - {id})
    && (mfa.attempts < 4 ==>
          && r.reply == ChallengePage(used) && r.w.txns.Keys == w.txns.Keys
          && r.w.txns[id].mfa.Some? && r.w.txns[id].mfa.value.attempts == mfa.attempts + 1 && r.w.txns[id].kmsi == w.txns[id].kmsi
          && (used == UsePasskey ==> r.w.txns[id].mfa.value.challenge == Some(w.next)))
  }

  lemma SucceedIsExact(w: World, id: Id, factor: Factor)
    requires id in w.txns && w.txns[id].mfa.Some? && w.txns[id].mfa.value.sub in w.accounts && (factor.Otp? || factor.Passkey?)
    ensures Succeeded(w, Succeed(Prove(w, id, w.txns[id].mfa.value.sub, factor), id, [Pwd, factor], TwoFactor), id, factor)
  {
    OnlyTheFactor(factor);
  }

  lemma FailIsExact(w: World, id: Id, used: Method)
    requires id in w.txns && w.txns[id].mfa.Some? && used in w.txns[id].mfa.value.methods
    ensures Failed(w, StrongFail(w, id, used), id, used)
  {
  }

  lemma TotpIsExact(w: World, id: Id, answer: Answer)
    requires WellFormed(w) && Challenged(w, id, UseTotp)
    ensures var r := PostChallenge(w, id, w.txns[id].csrf, UseTotp, answer);
            && (answer == ByCode(true) ==> Succeeded(w, r, id, Otp))
            && (answer != ByCode(true) ==> Failed(w, r, id, UseTotp))
  {
    SucceedIsExact(w, id, Otp);
    FailIsExact(w, id, UseTotp);
  }

  /** Only an assertion of the subject's own credential over the challenge on show succeeds, and any attempt uses that challenge up. */
  lemma PasskeyChallengeIsExact(w: World, id: Id, answer: Answer)
    requires WellFormed(w) && Challenged(w, id, UsePasskey)
    ensures var r, mfa := PostChallenge(w, id, w.txns[id].csrf, UsePasskey, answer), w.txns[id].mfa.value;
            var used := WithoutChallenge(w, id);
            var verified := answer.ByAssertion? && answer.a.Some? && answer.a.value.sub == mfa.sub && mfa.challenge == Some(answer.a.value.challenge);
            && used.txns == w.txns[id := w.txns[id].(mfa := Some(mfa.(challenge := None)))]
            && (verified ==> Succeeded(used, r, id, Passkey))
            && (!verified ==> Failed(used, r, id, UsePasskey))
  {
    var used := WithoutChallenge(w, id);
    SucceedIsExact(used, id, Passkey);
    FailIsExact(used, id, UsePasskey);
  }

  /** An email code never counts as an attempt of the transaction; the right one opens the session. */
  lemma EmailIsExact(w: World, id: Id, answer: Answer)
    requires WellFormed(w) && Challenged(w, id, UseEmail)
    ensures var r, mfa := PostChallenge(w, id, w.txns[id].csrf, UseEmail, answer), w.txns[id].mfa.value;
            && (answer != ByCode(true) ==> r == Result(w, ChallengePage(UseEmail)))
            && (answer == ByCode(true) ==>
                  && r.reply == StayPage && r.w.proofs == w.proofs + {Proof(id, mfa.sub, Email)}
                  && Opened(w, r.w, id, mfa.sub, [Pwd, Email], TwoFactor, Email))
  {
  }

  lemma ChallengeElsewhere(w: World, id: Id, csrf: Id, chosen: Method, answer: Answer)
    requires WellFormed(w)
    ensures var r := PostChallenge(w, id, csrf, chosen, answer);
            && (id !in w.txns ==> r == Result(w, ExpiredPage))
            && (id in w.txns && w.txns[id].kmsi.Some? ==> r == Result(w, StayPage))
            && (id in w.txns && w.txns[id].kmsi.None? && w.txns[id].mfa.None? ==> r == Result(w, ExpiredPage))
            && (id in w.txns && w.txns[id].kmsi.None? && w.txns[id].mfa.Some? ==>
                  csrf != w.txns[id].csrf || chosen !in w.txns[id].mfa.value.methods ==> r == Result(w, BadRequest))
  {
  }

  /** Sending the email code needs an offer and the token; a sent code is remembered. */
  lemma SendEmailIsExact(w: World, id: Id, csrf: Id, sent: bool)
    requires WellFormed(w)
    ensures var r := SendEmail(w, id, csrf, sent);
            && (id !in w.txns || w.txns[id].mfa.None? ==> r == Result(w, ExpiredPage))
            && (id in w.txns && w.txns[id].mfa.Some? && (csrf != w.txns[id].csrf || UseEmail !in w.txns[id].mfa.value.methods) ==> r == Result(w, BadRequest))
            && (id in w.txns && w.txns[id].mfa.Some? && csrf == w.txns[id].csrf && UseEmail in w.txns[id].mfa.value.methods ==>
                  && r.reply == ChallengePage(UseEmail) && OnlyTxns(w, r.w) && r.w.proofs == w.proofs
                  && r.w.txns == (if sent then w.txns[id := w.txns[id].(mfa := Some(w.txns[id].mfa.value.(emailSent := true)))] else w.txns))
  {
  }

  // ---------------------------------------------------------------- staying signed in

  /** The answer ends the transaction: with a code to its client for an admitted user, or locally. Yes persists the session, if the browser holds it. */
  lemma StayIsExact(w: World, id: Id, yes: bool, cookie: Option<Id>)
    requires id in w.txns && w.txns[id].kmsi.Some?
    ensures var r, t, k := PostStay(w, id, w.txns[id].csrf, yes, cookie), w.txns[id], w.txns[id].kmsi.value;
            var code := Code(Some(id), t.client, k.sub, k.sid, k.amr, k.acr);
            var admitted := k.sub in w.accounts && t.client !in w.accounts[k.sub].denied;
            && r.w.txns == w.txns - {id} && r.w.proofs == w.proofs && r.w.accounts == w.accounts
            && r.w.sessions == (if yes && cookie == Some(k.sid) && k.sid in w.sessions && w.sessions[k.sid].live
                                then w.sessions[k.sid := w.sessions[k.sid].(persistent := true)] else w.sessions)
            && (t.local ==> r.reply == ToLocal && r.w.codes == w.codes)
            && (!t.local && !admitted ==> r.reply == AccessDenied && r.w.codes == w.codes)
            && (!t.local && admitted ==> r.reply == ToClient(code) && r.w.codes == w.codes + [code])
  {
  }

  lemma StayElsewhere(w: World, id: Id, csrf: Id, yes: bool, cookie: Option<Id>)
    ensures var r := PostStay(w, id, csrf, yes, cookie);
            && (id !in w.txns || w.txns[id].kmsi.None? ==> r == Result(w, ExpiredPage))
            && (id in w.txns && w.txns[id].kmsi.Some? && csrf != w.txns[id].csrf ==> r == Result(w, BadRequest))
  {
  }

  /** A page request shows the phase the transaction is in. */
  lemma GetLoginIsExact(w: World, id: Id, wanted: Option<Method>)
    requires WellFormed(w)
    ensures var r := GetLogin(w, id, wanted);
            && (id !in w.txns ==> r == Result(w, ExpiredPage))
            && (id in w.txns && w.txns[id].kmsi.Some? ==> r == Result(w, StayPage))
            && (id in w.txns && w.txns[id].kmsi.None? && w.txns[id].mfa.Some? ==> r == RenderChallenge(w, id, wanted))
            && (id in w.txns && w.txns[id].kmsi.None? && w.txns[id].mfa.None? ==> r == RenderLogin(w, id))
  {
  }
}
