// What every run of the sign-in requests keeps: where every factor of a session or
// code was verified, how phases move, and what a transaction may open or mint.
module LoginTheorems {
  import opened Common
  import opened Login

  // ---------------------------------------------------------------- invariant

  predicate Proven(w: World, id: Id, sub: Sub, factor: Factor) {
    Proof(id, sub, factor) in w.proofs
  }

  ghost predicate ProvenSomewhere(w: World, sub: Sub, factor: Factor) {
    exists id: Id :: Proven(w, id, sub, factor)
  }

  predicate IsStepUp(t: Txn) {
    t.mfa.Some? && !t.mfa.value.mode.SecondFactor?
  }

  predicate ModeOk(w: World, id: Id, m: Mfa) {
    match m.mode
    case SecondFactor => Proven(w, id, m.sub, Pwd)
    case ReturnTo(sid) => sid in w.sessions && w.sessions[sid].sub == m.sub && UseEmail !in m.methods
    case Stamp(sid) => sid in w.sessions && w.sessions[sid].sub == m.sub && UseEmail !in m.methods
  }

  predicate MfaOk(w: World, id: Id, m: Mfa) {
    m.methods != [] && m.attempts < MAX_CHALLENGE_ATTEMPTS && m.sub in w.accounts && ModeOk(w, id, m)
  }

  predicate KmsiOk(w: World, id: Id, k: Kmsi) {
    k.sid in w.sessions && w.sessions[k.sid].txn == id && w.sessions[k.sid].sub == k.sub && w.sessions[k.sid].amr == k.amr
    && w.sessions[k.sid].acr == k.acr
  }

  predicate TxnOk(w: World, id: Id, t: Txn) {
    && id < w.next
    && (t.mfa.Some? ==> MfaOk(w, id, t.mfa.value))
    && (t.kmsi.Some? ==> KmsiOk(w, id, t.kmsi.value) && !IsStepUp(t))
  }

  /** Two-step sign-in is on and the account has something to take the second step with. */
  predicate OwesSecondFactor(a: Account) {
    a.mfaEnabled && (a.passkeys > 0 || a.totps > 0 || a.email)
  }

  /** A password alone, a user-verifying passkey alone, or a password with a second factor. */
  predicate AmrShape(amr: seq<Factor>) {
    amr == [Pwd] || amr == [Passkey] || (|amr| == 2 && amr[0] == Pwd && amr[1] != Pwd)
  }

  /** Every factor of the session was verified for its subject in the transaction that opened it. */
  ghost predicate SessionOk(w: World, sid: Id, s: Session) {
    && sid < w.next && s.txn < w.next && AmrShape(s.amr)
    && (forall f :: f in s.amr ==> Proven(w, s.txn, s.sub, f))
    && (s.amr == [Pwd] ==> !OwesSecondFactor(s.account))
    && s.acr == (if s.amr == [Pwd] then OneFactor else TwoFactor)
    && ProvenSomewhere(w, s.sub, s.stamp)
    && (s.txn in w.txns ==> w.txns[s.txn].kmsi.Some? && w.txns[s.txn].kmsi.value.sid == sid)
  }

  /** A code carries its session's factors, or, for a step-up, the one factor just verified in its own transaction. */
  ghost predicate CodeOk(w: World, c: Code) {
    && c.sid in w.sessions && w.sessions[c.sid].sub == c.sub
    && (c.acr.StepUp? ==> c.txn.Some? && (c.amr == [Otp] || c.amr == [Passkey]) && Proven(w, c.txn.value, c.sub, c.amr[0]))
    && (!c.acr.StepUp? ==> c.amr == w.sessions[c.sid].amr)
    && (c.txn.Some? ==> c.txn.value < w.next && c.txn.value !in w.txns)
  }

  ghost predicate Inv(w: World) {
    && (forall id :: id in w.txns ==> TxnOk(w, id, w.txns[id]))
    && (forall sid :: sid in w.sessions ==> SessionOk(w, sid, w.sessions[sid]))
    && (forall i :: 0 <= i < |w.codes| ==> CodeOk(w, w.codes[i]))
    && (forall i, j :: 0 <= i < j < |w.codes| && w.codes[i].txn.Some? ==> w.codes[i].txn != w.codes[j].txn)
  }

  // ---------------------------------------------------------------- how the world may move

  function Phase(t: Txn): nat {
    if t.kmsi.Some? then 2 else if t.mfa.Some? then 1 else 0
  }

  /** A transaction keeps its client, its subject and its purpose; its phase never goes back. */
  predicate Forward(a: Txn, b: Txn) {
    && b.client == a.client && b.local == a.local && b.csrf == a.csrf
    && (a.mfa.Some? ==> b.mfa.Some? && b.mfa.value.sub == a.mfa.value.sub && b.mfa.value.mode == a.mfa.value.mode
                        && b.mfa.value.methods == a.mfa.value.methods && a.mfa.value.attempts <= b.mfa.value.attempts)
    && (a.kmsi.Some? ==> b.kmsi == a.kmsi && b.mfa.Some? == a.mfa.Some?)
    && (IsStepUp(a) ==> b.kmsi.None?)
    && (a.mfa.None? && b.mfa.Some? ==> b.mfa.value.mode.SecondFactor?)
  }

  ghost predicate Grows(w: World, x: World) {
    && w.next <= x.next && w.proofs <= x.proofs && w.codes <= x.codes
    && (forall sub :: sub in w.accounts ==> sub in x.accounts)
    && (forall sid :: sid in w.sessions ==> sid in x.sessions && x.sessions[sid] == w.sessions[sid].(stamp := x.sessions[sid].stamp,
          live := x.sessions[sid].live, persistent := x.sessions[sid].persistent))
  }

  /** Names are never reused, and transactions only move forward or end. */
  ghost predicate Moves(w: World, x: World) {
    && (forall id :: id in w.txns && id in x.txns ==> Forward(w.txns[id], x.txns[id]))
    && (forall id :: id !in w.txns && id < w.next ==> id !in x.txns)
  }

  /** A session is opened only for a transaction that is not a step-up. */
  ghost predicate Opens(w: World, x: World) {
    forall sid :: sid in x.sessions && sid !in w.sessions ==>
      x.sessions[sid].txn >= w.next || (x.sessions[sid].txn in w.txns && !IsStepUp(w.txns[x.sessions[sid].txn]))
  }

  ghost predicate Evolves(w: World, x: World) {
    Grows(w, x) && Moves(w, x) && Opens(w, x)
  }

  lemma EvolvesTransitive(w: World, x: World, y: World)
    requires Inv(w) && Evolves(w, x) && Evolves(x, y)
    ensures Evolves(w, y)
  {
    forall id | id in w.txns && id in y.txns ensures Forward(w.txns[id], y.txns[id]) {
      assert TxnOk(w, id, w.txns[id]);
      assert Forward(w.txns[id], x.txns[id]) && Forward(x.txns[id], y.txns[id]);
    }
    assert forall id :: id !in w.txns && id < w.next ==> id !in x.txns;
    forall sid | sid in y.sessions && sid !in w.sessions
      ensures y.sessions[sid].txn >= w.next || (y.sessions[sid].txn in w.txns && !IsStepUp(w.txns[y.sessions[sid].txn]))
    {
      var id := y.sessions[sid].txn;
      assert sid in x.sessions ==> x.sessions[sid].txn == id;
      assert id in w.txns && id in x.txns ==> Forward(w.txns[id], x.txns[id]);
    }
  }

  ghost predicate Good(w: World, x: World) {
    Inv(x) && Evolves(w, x)
  }

  lemma InvIsWellFormed(w: World)
    requires Inv(w)
    ensures WellFormed(w)
  {
    forall id | id in w.txns && w.txns[id].mfa.Some? ensures w.txns[id].mfa.value.methods != [] && w.txns[id].mfa.value.sub in w.accounts {
      assert TxnOk(w, id, w.txns[id]);
    }
  }

  // ---------------------------------------------------------------- facts that survive growth

  lemma TxnFacts(w: World, id: Id)
    requires Inv(w) && id in w.txns
    ensures TxnOk(w, id, w.txns[id])
  {
  }

  lemma SessionFacts(w: World, sid: Id)
    requires Inv(w) && sid in w.sessions
    ensures SessionOk(w, sid, w.sessions[sid])
  {
  }

  lemma TxnStaysOk(w: World, x: World, id: Id, t: Txn)
    requires TxnOk(w, id, t) && Grows(w, x)
    ensures TxnOk(x, id, t)
  {
  }

  lemma CarryTxns(w: World, x: World)
    requires Inv(w) && Grows(w, x)
    ensures forall id :: id in w.txns ==> TxnOk(x, id, w.txns[id])
  {
    forall id | id in w.txns ensures TxnOk(x, id, w.txns[id]) {
      TxnStaysOk(w, x, id, w.txns[id]);
    }
  }

  lemma SessionStaysOk(w: World, x: World, sid: Id, s: Session)
    requires SessionOk(w, sid, s) && Grows(w, x)
    requires s.txn in x.txns ==> s.txn in w.txns && (x.txns[s.txn].kmsi == w.txns[s.txn].kmsi || w.txns[s.txn].kmsi.None?)
    ensures SessionOk(x, sid, s)
  {
    var id: Id :| Proven(w, id, s.sub, s.stamp);
    assert Proven(x, id, s.sub, s.stamp);
  }

  /** No old transaction returns, and none that was past its login changes its answer. */
  predicate KeepsAnswers(w: World, x: World) {
    forall id :: id in x.txns && id < w.next ==> id in w.txns && (x.txns[id].kmsi == w.txns[id].kmsi || w.txns[id].kmsi.None?)
  }

  lemma CarrySessions(w: World, x: World)
    requires Inv(w) && Grows(w, x) && KeepsAnswers(w, x)
    ensures forall sid :: sid in w.sessions ==> SessionOk(x, sid, w.sessions[sid])
  {
    forall sid | sid in w.sessions ensures SessionOk(x, sid, w.sessions[sid]) {
      SessionFacts(w, sid);
      SessionStaysOk(w, x, sid, w.sessions[sid]);
    }
  }

  lemma CodeStaysOk(w: World, x: World, c: Code)
    requires CodeOk(w, c) && Grows(w, x)
    requires c.txn.Some? ==> c.txn.value !in x.txns
    ensures CodeOk(x, c)
  {
  }

  lemma CarryCodes(w: World, x: World)
    requires Inv(w) && Grows(w, x) && KeepsAnswers(w, x)
    ensures forall i :: 0 <= i < |w.codes| ==> CodeOk(x, w.codes[i])
  {
    forall i | 0 <= i < |w.codes| ensures CodeOk(x, w.codes[i]) {
      assert CodeOk(w, w.codes[i]);
      CodeStaysOk(w, x, w.codes[i]);
    }
  }

  lemma Carry(w: World, x: World)
    requires Inv(w) && Grows(w, x) && KeepsAnswers(w, x)
    ensures forall id :: id in w.txns ==> TxnOk(x, id, w.txns[id])
    ensures forall sid :: sid in w.sessions ==> SessionOk(x, sid, w.sessions[sid])
    ensures forall i :: 0 <= i < |w.codes| ==> CodeOk(x, w.codes[i])
  {
    CarryTxns(w, x);
    CarrySessions(w, x);
    CarryCodes(w, x);
  }

  // ---------------------------------------------------------------- the store's operations

  lemma PutKeeps(w: World, id: Id, t: Txn, next: Id)
    requires Inv(w) && id in w.txns && TxnOk(w, id, t) && Forward(w.txns[id], t) && t.kmsi == w.txns[id].kmsi && w.next <= next
    ensures Good(w, PutTxn(w, id, t).(next := next))
  {
    var x := PutTxn(w, id, t).(next := next);
    PutEvolves(w, id, t, next);
    Carry(w, x);
    TxnStaysOk(w, x, id, t);
  }

  lemma PutEvolves(w: World, id: Id, t: Txn, next: Id)
    requires Inv(w) && id in w.txns && Forward(w.txns[id], t) && t.kmsi == w.txns[id].kmsi && w.next <= next
    ensures var x := PutTxn(w, id, t).(next := next); Evolves(w, x) && KeepsAnswers(w, x)
  {
    forall j | j in w.txns ensures Forward(w.txns[j], w.txns[j]) {
      TxnFacts(w, j);
    }
  }

  lemma PutNowKeeps(w: World, id: Id, t: Txn)
    requires Inv(w) && id in w.txns && TxnOk(w, id, t) && Forward(w.txns[id], t) && t.kmsi == w.txns[id].kmsi
    ensures Good(w, PutTxn(w, id, t))
  {
    PutKeeps(w, id, t, w.next);
    assert PutTxn(w, id, t).(next := w.next) == PutTxn(w, id, t);
  }

  /** A challenge may count attempts, remember a sent code and change its assertion challenge. */
  lemma MfaChangeOk(w: World, id: Id, t: Txn, m: Mfa)
    requires TxnOk(w, id, t) && t.mfa.Some?
    requires m == t.mfa.value.(attempts := m.attempts, emailSent := m.emailSent, challenge := m.challenge)
    requires t.mfa.value.attempts <= m.attempts < MAX_CHALLENGE_ATTEMPTS
    ensures TxnOk(w, id, t.(mfa := Some(m))) && Forward(t, t.(mfa := Some(m)))
  {
  }

  lemma MfaPutKeeps(w: World, id: Id, m: Mfa, next: Id)
    requires Inv(w) && id in w.txns && w.txns[id].mfa.Some? && w.next <= next
    requires m == w.txns[id].mfa.value.(attempts := m.attempts, emailSent := m.emailSent, challenge := m.challenge)
    requires w.txns[id].mfa.value.attempts <= m.attempts < MAX_CHALLENGE_ATTEMPTS
    ensures Good(w, PutTxn(w, id, w.txns[id].(mfa := Some(m))).(next := next))
    ensures Good(w, PutTxn(w, id, w.txns[id].(mfa := Some(m))))
  {
    TxnFacts(w, id);
    MfaChangeOk(w, id, w.txns[id], m);
    PutKeeps(w, id, w.txns[id].(mfa := Some(m)), next);
    PutNowKeeps(w, id, w.txns[id].(mfa := Some(m)));
  }

  lemma PasskeyPutKeeps(w: World, id: Id, challenge: Option<Id>, next: Id)
    requires Inv(w) && id in w.txns && w.next <= next
    ensures Good(w, PutTxn(w, id, w.txns[id].(passkey := challenge)).(next := next))
    ensures Good(w, PutTxn(w, id, w.txns[id].(passkey := challenge)))
  {
    TxnFacts(w, id);
    PutKeeps(w, id, w.txns[id].(passkey := challenge), next);
    PutNowKeeps(w, id, w.txns[id].(passkey := challenge));
  }

  lemma DropKeeps(w: World, id: Id)
    requires Inv(w)
    ensures Good(w, DropTxn(w, id))
  {
    Carry(w, DropTxn(w, id));
  }

  lemma NewKeeps(w: World, client: Client, local: bool, mfa: Option<Mfa>)
    requires Inv(w) && (mfa.Some? ==> MfaOk(w, w.next, mfa.value) && !mfa.value.mode.SecondFactor?)
    ensures Good(w, NewTxn(w, client, local, mfa))
  {
    NewEvolves(w, client, local, mfa);
    Carry(w, NewTxn(w, client, local, mfa));
  }

  lemma NewEvolves(w: World, client: Client, local: bool, mfa: Option<Mfa>)
    requires Inv(w)
    ensures w.next !in w.txns && Evolves(w, NewTxn(w, client, local, mfa)) && KeepsAnswers(w, NewTxn(w, client, local, mfa))
  {
    forall j | j in w.txns ensures j != w.next {
      TxnFacts(w, j);
    }
  }

  lemma ProveKeeps(w: World, id: Id, sub: Sub, factor: Factor)
    requires Inv(w)
    ensures Good(w, Prove(w, id, sub, factor)) && Proven(Prove(w, id, sub, factor), id, sub, factor)
  {
    Carry(w, Prove(w, id, sub, factor));
  }

  lemma StampIsProven(amr: seq<Factor>)
    requires amr != []
    ensures MethodFromAmr(amr) in amr
  {
    assert amr[0] in amr;
    match amr[0] case Pwd => case Otp => case Passkey => case Email =>
  }

  /** A session may be opened once per transaction, never by a step-up, with factors verified there. */
  lemma FinishKeeps(w: World, id: Id, sub: Sub, amr: seq<Factor>, acr: Acr)
    requires Inv(w) && id in w.txns && sub in w.accounts && w.txns[id].kmsi.None? && !IsStepUp(w.txns[id])
    requires AmrShape(amr) && forall f :: f in amr ==> Proven(w, id, sub, f)
    requires amr == [Pwd] ==> !OwesSecondFactor(w.accounts[sub])
    requires acr == if amr == [Pwd] then OneFactor else TwoFactor
    ensures Good(w, FinishLogin(w, id, sub, amr, acr))
  {
    var x := FinishLogin(w, id, sub, amr, acr);
    TxnFacts(w, id);
    FinishGrows(w, id, sub, amr, acr);
    Carry(w, x);
    StampIsProven(amr);
    assert Proven(x, id, sub, MethodFromAmr(amr));
  }

  lemma FinishGrows(w: World, id: Id, sub: Sub, amr: seq<Factor>, acr: Acr)
    requires Inv(w) && id in w.txns && sub in w.accounts && w.txns[id].kmsi.None? && !IsStepUp(w.txns[id])
    ensures Evolves(w, FinishLogin(w, id, sub, amr, acr)) && w.next !in w.sessions
  {
    forall sid | sid in w.sessions ensures sid != w.next {
      SessionFacts(w, sid);
    }
    TxnFacts(w, id);
  }

  lemma StampStaysOk(x: World, sid: Id, before: Session, s: Session)
    requires SessionOk(x, sid, before) && s == before.(stamp := s.stamp, live := s.live, persistent := s.persistent)
    requires ProvenSomewhere(x, s.sub, s.stamp)
    ensures SessionOk(x, sid, s)
  {
  }

  /** A change of a session that keeps its identity: its sudo stamp, its persistence, its end. */
  lemma SessionChangeKeeps(w: World, sid: Id, s: Session)
    requires Inv(w) && sid in w.sessions && s == w.sessions[sid].(stamp := s.stamp, live := s.live, persistent := s.persistent)
    requires ProvenSomewhere(w, s.sub, s.stamp)
    ensures Good(w, w.(sessions := w.sessions[sid := s]))
  {
    var x := w.(sessions := w.sessions[sid := s]);
    SessionChangeEvolves(w, sid, s);
    Carry(w, x);
    var id: Id :| Proven(w, id, s.sub, s.stamp);
    assert Proven(x, id, s.sub, s.stamp);
    StampStaysOk(x, sid, w.sessions[sid], s);
  }

  lemma SessionChangeEvolves(w: World, sid: Id, s: Session)
    requires Inv(w) && sid in w.sessions && s == w.sessions[sid].(stamp := s.stamp, live := s.live, persistent := s.persistent)
    ensures var x := w.(sessions := w.sessions[sid := s]); Evolves(w, x) && KeepsAnswers(w, x)
  {
    forall j | j in w.txns ensures Forward(w.txns[j], w.txns[j]) {
      TxnFacts(w, j);
    }
  }

  /** A silent code. */
  lemma MintKeeps(w: World, c: Code)
    requires Inv(w) && CodeOk(w, c) && c.txn.None?
    ensures Good(w, Mint(w, c))
  {
    var x := Mint(w, c);
    Carry(w, x);
    CodeStaysOk(w, x, c);
  }

  /** A transaction's one code together with its end. */
  lemma MintAndDropKeeps(w: World, id: Id, c: Code)
    requires Inv(w) && id in w.txns && c.txn == Some(id) && CodeOk(DropTxn(w, id), c)
    ensures Good(w, DropTxn(Mint(w, c), id))
  {
    var x := DropTxn(Mint(w, c), id);
    MintAndDropEvolves(w, id, c);
    Carry(w, x);
    CodeStaysOk(DropTxn(w, id), x, c);
    forall i | 0 <= i < |w.codes| && w.codes[i].txn.Some? ensures w.codes[i].txn != c.txn {
      assert CodeOk(w, w.codes[i]);
    }
  }

  lemma MintAndDropEvolves(w: World, id: Id, c: Code)
    requires Inv(w) && id in w.txns
    ensures var x := DropTxn(Mint(w, c), id); Evolves(w, x) && KeepsAnswers(w, x)
  {
    forall j | j in w.txns ensures Forward(w.txns[j], w.txns[j]) && j < w.next {
      TxnFacts(w, j);
    }
  }

  lemma AccountsKeep(w: World, accounts: map<Sub, Account>)
    requires Inv(w) && forall sub :: sub in w.accounts ==> sub in accounts
    ensures Good(w, w.(accounts := accounts))
  {
    Carry(w, w.(accounts := accounts));
  }

  // ---------------------------------------------------------------- pages

  lemma NothingKeeps(w: World)
    requires Inv(w)
    ensures Good(w, w)
  {
  }

  lemma RenderLoginKeeps(w: World, id: Id)
    requires Inv(w) && id in w.txns
    ensures Good(w, RenderLogin(w, id).w)
  {
    if w.txns[id].passkey.None? {
      PasskeyPutKeeps(w, id, Some(w.next), w.next + 1);
      assert RenderLogin(w, id).w == PutTxn(w, id, w.txns[id].(passkey := Some(w.next))).(next := w.next + 1);
      assert Good(w, RenderLogin(w, id).w);
    } else {
      assert RenderLogin(w, id).w == w;
      NothingKeeps(w);
    }
  }

  lemma RenderChallengeShape(w: World, id: Id, wanted: Option<Method>)
    requires id in w.txns && w.txns[id].mfa.Some? && w.txns[id].mfa.value.methods != []
    ensures var x, m := RenderChallenge(w, id, wanted).w, w.txns[id].mfa.value.(challenge := Some(w.next));
            x == w || x == PutTxn(w, id, w.txns[id].(mfa := Some(m))).(next := w.next + 1)
  {
  }

  lemma RenderChallengeKeeps(w: World, id: Id, wanted: Option<Method>)
    requires Inv(w) && id in w.txns && w.txns[id].mfa.Some?
    ensures w.txns[id].mfa.value.methods != [] && Good(w, RenderChallenge(w, id, wanted).w)
  {
    TxnFacts(w, id);
    RenderChallengeShape(w, id, wanted);
    var x, m := RenderChallenge(w, id, wanted).w, w.txns[id].mfa.value.(challenge := Some(w.next));
    if x == w {
      NothingKeeps(w);
    } else {
      MfaPutKeeps(w, id, m, w.next + 1);
      assert x == PutTxn(w, id, w.txns[id].(mfa := Some(m))).(next := w.next + 1);
    }
    assert Good(w, x);
  }

  lemma RenderPhaseKeeps(w: World, id: Id, wanted: Option<Method>)
    requires Inv(w) && id in w.txns && WellFormed(w)
    ensures Good(w, RenderPhase(w, id, wanted).w)
  {
    if w.txns[id].kmsi.None? {
      if w.txns[id].mfa.Some? { RenderChallengeKeeps(w, id, wanted); } else { RenderLoginKeeps(w, id); }
    }
  }

  // ---------------------------------------------------------------- requests

  function StepUpMfa(w: World, r: AuthorizeReq, s: Session): Mfa
    requires s.sub in w.accounts && r.cookie.Some?
  {
    Mfa(s.sub, ReturnTo(r.cookie.value), StepUpMethods(w.accounts[s.sub], r.wantPasskey, r.wantTotp), 0, false, None)
  }

  lemma AuthorizeShape(w: World, r: AuthorizeReq)
    ensures var x, session := Authorize(w, r).w, LoadSession(w, r.cookie);
            || x == w || x == NewTxn(w, r.client, false, None)
            || (session.Some? && x == Mint(w, Code(None, r.client, session.value.sub, r.cookie.value, session.value.amr, session.value.acr)))
            || (session.Some? && StepUpMfa(w, r, session.value).methods != [] && x == NewTxn(w, r.client, false, Some(StepUpMfa(w, r, session.value))))
  {
  }

  lemma SilentCodeKeeps(w: World, client: Client, sid: Id)
    requires Inv(w) && sid in w.sessions
    ensures var s := w.sessions[sid]; Good(w, Mint(w, Code(None, client, s.sub, sid, s.amr, s.acr)))
  {
    SessionFacts(w, sid);
    var s := w.sessions[sid];
    MintKeeps(w, Code(None, client, s.sub, sid, s.amr, s.acr));
  }

  lemma AuthorizeKeeps(w: World, r: AuthorizeReq)
    requires Inv(w)
    ensures Good(w, Authorize(w, r).w)
  {
    AuthorizeShape(w, r);
    var session := LoadSession(w, r.cookie);
    NothingKeeps(w);
    NewKeeps(w, r.client, false, None);
    if session.Some? {
      SilentCodeKeeps(w, r.client, r.cookie.value);
      if StepUpMfa(w, r, session.value).methods != [] {
        NewKeeps(w, r.client, false, Some(StepUpMfa(w, r, session.value)));
      }
    }
  }

  lemma AdminDoorKeeps(w: World, cookie: Option<Id>, permitted: bool, satisfied: bool)
    requires Inv(w)
    ensures Good(w, AdminDoor(w, cookie, permitted, satisfied).w)
  {
    var session := LoadSession(w, cookie);
    if session.Some? {
      var a := w.accounts[session.value.sub];
      if a.passkeys > 0 {
        NewKeeps(w, 0, true, Some(Mfa(session.value.sub, Stamp(cookie.value), [UsePasskey], 0, false, None)));
      } else if a.totps > 0 {
        NewKeeps(w, 0, true, Some(Mfa(session.value.sub, Stamp(cookie.value), [UseTotp], 0, false, None)));
      }
    }
  }

  lemma PostLoginKeeps(w: World, id: Id, csrf: Id, who: Option<Sub>)
    requires Inv(w) && WellFormed(w)
    ensures Good(w, PostLogin(w, id, csrf, who).w)
  {
    if id in w.txns {
      RenderPhaseKeeps(w, id, None);
      if w.txns[id].kmsi.None? && w.txns[id].mfa.None? {
        RenderLoginKeeps(w, id);
        if who.Some? && who.value in w.accounts {
          PasswordKeeps(w, id, who.value);
        }
      }
    }
  }

  lemma PasswordKeeps(w: World, id: Id, sub: Sub)
    requires Inv(w) && id in w.txns && w.txns[id].kmsi.None? && w.txns[id].mfa.None? && sub in w.accounts
    ensures var proven, methods := Prove(w, id, sub, Pwd), LoginMethods(w.accounts[sub]);
            && (!MfaDue(w.accounts[sub]) ==> Good(w, FinishLogin(proven, id, sub, [Pwd], OneFactor)))
            && (methods != [] ==>
                  Good(w, RenderChallenge(PutTxn(proven, id, w.txns[id].(mfa := Some(Mfa(sub, SecondFactor, methods, 0, false, None)))), id, None).w))
  {
    var proven, methods := Prove(w, id, sub, Pwd), LoginMethods(w.accounts[sub]);
    ProveKeeps(w, id, sub, Pwd);
    if !MfaDue(w.accounts[sub]) {
      FinishKeeps(proven, id, sub, [Pwd], OneFactor);
      EvolvesTransitive(w, proven, FinishLogin(proven, id, sub, [Pwd], OneFactor));
    }
    if methods != [] {
      var t := w.txns[id].(mfa := Some(Mfa(sub, SecondFactor, methods, 0, false, None)));
      TxnFacts(proven, id);
      PutNowKeeps(proven, id, t);
      var put := PutTxn(proven, id, t);
      EvolvesTransitive(w, proven, put);
      RenderChallengeKeeps(put, id, None);
      EvolvesTransitive(w, put, RenderChallenge(put, id, None).w);
    }
  }

  lemma PasskeyFailsKeeps(w: World, id: Id)
    requires Inv(w) && id in w.txns
    ensures Good(w, PasskeyFails(w, id).w)
  {
    var put := PutTxn(w, id, w.txns[id].(passkey := None));
    PasskeyPutKeeps(w, id, None, w.next);
    RenderLoginKeeps(put, id);
    EvolvesTransitive(w, put, RenderLogin(put, id).w);
  }

  lemma AssertionKeeps(w: World, id: Id, sub: Sub)
    requires Inv(w) && id in w.txns && w.txns[id].kmsi.None? && w.txns[id].mfa.None?
    ensures Good(w, PasskeyFails(Prove(w, id, sub, Passkey), id).w)
    ensures sub in w.accounts ==> Good(w, FinishLogin(Prove(w, id, sub, Passkey), id, sub, [Passkey], TwoFactor))
  {
    var proven := Prove(w, id, sub, Passkey);
    ProveKeeps(w, id, sub, Passkey);
    PasskeyFailsKeeps(proven, id);
    EvolvesTransitive(w, proven, PasskeyFails(proven, id).w);
    if sub in w.accounts {
      FinishKeeps(proven, id, sub, [Passkey], TwoFactor);
      EvolvesTransitive(w, proven, FinishLogin(proven, id, sub, [Passkey], TwoFactor));
    }
  }

  lemma PostPasskeyKeeps(w: World, id: Id, csrf: Id, a: Option<Assertion>)
    requires Inv(w) && WellFormed(w)
    ensures Good(w, PostPasskey(w, id, csrf, a).w)
  {
    if id in w.txns {
      if w.txns[id].kmsi.Some? || w.txns[id].mfa.Some? {
        RenderPhaseKeeps(w, id, None);
      } else {
        PasskeyFailsKeeps(w, id);
        if a.Some? {
          AssertionKeeps(w, id, a.value.sub);
        }
      }
    }
  }

  lemma PutThenRenderKeeps(w: World, id: Id, m: Mfa, wanted: Option<Method>)
    requires Inv(w) && id in w.txns && w.txns[id].mfa.Some?
    requires m == w.txns[id].mfa.value.(attempts := m.attempts, emailSent := m.emailSent, challenge := m.challenge)
    requires w.txns[id].mfa.value.attempts <= m.attempts < MAX_CHALLENGE_ATTEMPTS
    ensures m.methods != [] && Good(w, RenderChallenge(PutTxn(w, id, w.txns[id].(mfa := Some(m))), id, wanted).w)
  {
    var put := PutTxn(w, id, w.txns[id].(mfa := Some(m)));
    MfaPutKeeps(w, id, m, w.next);
    RenderChallengeKeeps(put, id, wanted);
    EvolvesTransitive(w, put, RenderChallenge(put, id, wanted).w);
  }

  lemma SendEmailKeeps(w: World, id: Id, csrf: Id, sent: bool)
    requires Inv(w) && WellFormed(w)
    ensures Good(w, SendEmail(w, id, csrf, sent).w)
  {
    if id in w.txns && w.txns[id].mfa.Some? {
      TxnFacts(w, id);
      RenderChallengeKeeps(w, id, Some(UseEmail));
      PutThenRenderKeeps(w, id, w.txns[id].mfa.value.(emailSent := true), Some(UseEmail));
    }
  }

  lemma StrongFailKeeps(w: World, id: Id, used: Method)
    requires Inv(w) && id in w.txns && w.txns[id].mfa.Some? && w.txns[id].mfa.value.methods != []
    ensures Good(w, StrongFail(w, id, used).w)
  {
    var m := w.txns[id].mfa.value.(attempts := w.txns[id].mfa.value.attempts + 1);
    if m.attempts < MAX_CHALLENGE_ATTEMPTS {
      PutThenRenderKeeps(w, id, m, Some(used));
      assert StrongFail(w, id, used).w == RenderChallenge(PutTxn(w, id, w.txns[id].(mfa := Some(m))), id, Some(used)).w;
    } else {
      DropKeeps(w, id);
      assert StrongFail(w, id, used).w == DropTxn(w, id);
    }
  }

  lemma StampKeeps(w: World, id: Id, sid: Id, factor: Factor)
    requires Inv(w) && sid in w.sessions && ProvenSomewhere(w, w.sessions[sid].sub, factor)
    ensures Good(w, DropTxn(w.(sessions := w.sessions[sid := w.sessions[sid].(stamp := factor)]), id)) && Good(w, DropTxn(w, id))
  {
    var stamped := w.(sessions := w.sessions[sid := w.sessions[sid].(stamp := factor)]);
    SessionChangeKeeps(w, sid, w.sessions[sid].(stamp := factor));
    DropKeeps(stamped, id);
    EvolvesTransitive(w, stamped, DropTxn(stamped, id));
    DropKeeps(w, id);
  }

  lemma StepUpCodeKeeps(w: World, id: Id, factor: Factor)
    requires Inv(w) && id in w.txns && w.txns[id].mfa.Some? && (factor.Otp? || factor.Passkey?)
    requires w.txns[id].mfa.value.mode.ReturnTo? && Proven(w, id, w.txns[id].mfa.value.sub, factor)
    ensures var t, mfa := w.txns[id], w.txns[id].mfa.value;
            Good(w, DropTxn(Mint(w, Code(Some(id), t.client, mfa.sub, mfa.mode.sid, [factor], StepUp)), id))
  {
    TxnFacts(w, id);
    MintAndDropKeeps(w, id, Code(Some(id), w.txns[id].client, w.txns[id].mfa.value.sub, w.txns[id].mfa.value.mode.sid, [factor], StepUp));
  }

  lemma OnlyTheFactor(factor: Factor)
    requires !factor.Pwd?
    ensures WithoutPwd([Pwd, factor]) == [factor]
  {
    assert [Pwd, factor][1..] == [factor] && [factor][1..] == [];
    assert WithoutPwd([factor]) == [factor] + WithoutPwd([]);
  }

  /** Only a strong factor completes a challenge this way. */
  lemma SucceedKeeps(w: World, id: Id, factor: Factor)
    requires Inv(w) && id in w.txns && w.txns[id].kmsi.None? && w.txns[id].mfa.Some? && (factor.Otp? || factor.Passkey?)
    requires w.txns[id].mfa.value.sub in w.accounts && Proven(w, id, w.txns[id].mfa.value.sub, factor)
    ensures Good(w, Succeed(w, id, [Pwd, factor], TwoFactor).w)
  {
    var mfa := w.txns[id].mfa.value;
    TxnFacts(w, id);
    match mfa.mode
    case ReturnTo(sid) =>
      DropKeeps(w, id);
      OnlyTheFactor(factor);
      StepUpCodeKeeps(w, id, factor);
    case Stamp(sid) =>
      assert MethodFromAmr([Pwd, factor]) == factor;
      StampKeeps(w, id, sid, factor);
    case SecondFactor => FinishKeeps(w, id, mfa.sub, [Pwd, factor], TwoFactor);
  }

  lemma ProvenSucceedKeeps(w: World, id: Id, factor: Factor)
    requires Inv(w) && id in w.txns && w.txns[id].kmsi.None? && w.txns[id].mfa.Some? && w.txns[id].mfa.value.sub in w.accounts
    requires factor.Otp? || factor.Passkey?
    ensures Good(w, Succeed(Prove(w, id, w.txns[id].mfa.value.sub, factor), id, [Pwd, factor], TwoFactor).w)
  {
    var proven := Prove(w, id, w.txns[id].mfa.value.sub, factor);
    ProveKeeps(w, id, w.txns[id].mfa.value.sub, factor);
    SucceedKeeps(proven, id, factor);
    EvolvesTransitive(w, proven, Succeed(proven, id, [Pwd, factor], TwoFactor).w);
  }

  lemma EmailKeeps(w: World, id: Id)
    requires Inv(w) && id in w.txns && w.txns[id].kmsi.None? && w.txns[id].mfa.Some? && w.txns[id].mfa.value.sub in w.accounts
    requires UseEmail in w.txns[id].mfa.value.methods
    ensures Good(w, FinishLogin(Prove(w, id, w.txns[id].mfa.value.sub, Email), id, w.txns[id].mfa.value.sub, [Pwd, Email], TwoFactor))
  {
    var sub := w.txns[id].mfa.value.sub;
    var proven := Prove(w, id, sub, Email);
    assert TxnOk(w, id, w.txns[id]);
    ProveKeeps(w, id, sub, Email);
    FinishKeeps(proven, id, sub, [Pwd, Email], TwoFactor);
    EvolvesTransitive(w, proven, FinishLogin(proven, id, sub, [Pwd, Email], TwoFactor));
  }

  lemma PasskeyChallengeKeeps(w: World, id: Id)
    requires Inv(w) && WellFormed(w) && id in w.txns && w.txns[id].kmsi.None? && w.txns[id].mfa.Some?
    ensures var used := WithoutChallenge(w, id);
            Good(w, StrongFail(used, id, UsePasskey).w)
            && Good(w, Succeed(Prove(used, id, w.txns[id].mfa.value.sub, Passkey), id, [Pwd, Passkey], TwoFactor).w)
  {
    var used := WithoutChallenge(w, id);
    TxnFacts(w, id);
    MfaPutKeeps(w, id, w.txns[id].mfa.value.(challenge := None), w.next);
    StrongFailKeeps(used, id, UsePasskey);
    EvolvesTransitive(w, used, StrongFail(used, id, UsePasskey).w);
    ProvenSucceedKeeps(used, id, Passkey);
    EvolvesTransitive(w, used, Succeed(Prove(used, id, w.txns[id].mfa.value.sub, Passkey), id, [Pwd, Passkey], TwoFactor).w);
  }

  function WithoutChallenge(w: World, id: Id): World
    requires id in w.txns && w.txns[id].mfa.Some?
  {
    PutTxn(w, id, w.txns[id].(mfa := Some(w.txns[id].mfa.value.(challenge := None))))
  }

  /** What an answer to a challenge may lead to. */
  lemma PostChallengeShape(w: World, id: Id, csrf: Id, chosen: Method, answer: Answer)
    requires WellFormed(w) && id in w.txns && w.txns[id].kmsi.None? && w.txns[id].mfa.Some?
    ensures var x, sub := PostChallenge(w, id, csrf, chosen, answer).w, w.txns[id].mfa.value.sub;
            || x == w
            || (chosen.UseTotp? && (x == StrongFail(w, id, UseTotp).w || x == Succeed(Prove(w, id, sub, Otp), id, [Pwd, Otp], TwoFactor).w))
            || (chosen.UsePasskey? && (x == StrongFail(WithoutChallenge(w, id), id, UsePasskey).w
                                       || x == Succeed(Prove(WithoutChallenge(w, id), id, sub, Passkey), id, [Pwd, Passkey], TwoFactor).w))
            || (chosen.UseEmail? && chosen in w.txns[id].mfa.value.methods
                && (x == RenderChallenge(w, id, Some(UseEmail)).w || x == FinishLogin(Prove(w, id, sub, Email), id, sub, [Pwd, Email], TwoFactor)))
  {
  }

  lemma PostChallengeKeeps(w: World, id: Id, csrf: Id, chosen: Method, answer: Answer)
    requires Inv(w) && WellFormed(w)
    ensures Good(w, PostChallenge(w, id, csrf, chosen, answer).w)
  {
    if id in w.txns && w.txns[id].kmsi.None? && w.txns[id].mfa.Some? {
      PostChallengeShape(w, id, csrf, chosen, answer);
      var x := PostChallenge(w, id, csrf, chosen, answer).w;
      if x == w {
      } else if chosen.UsePasskey? {
        PasskeyChallengeKeeps(w, id);
      } else if x == StrongFail(w, id, UseTotp).w {
        StrongFailKeeps(w, id, UseTotp);
      } else if chosen.UseTotp? {
        ProvenSucceedKeeps(w, id, Otp);
      } else if x == RenderChallenge(w, id, Some(UseEmail)).w {
        RenderChallengeKeeps(w, id, Some(UseEmail));
      } else {
        EmailKeeps(w, id);
      }
    }
  }

  lemma PersistKeeps(w: World, id: Id, sid: Id)
    requires Inv(w) && id in w.txns && w.txns[id].kmsi.Some? && sid in w.sessions
    ensures Good(w, DropTxn(Kept(w, sid), id)) && Good(w, DropTxn(Mint(Kept(w, sid), StayCode(w, id)), id))
  {
    var kept := Kept(w, sid);
    SessionFacts(w, sid);
    SessionChangeKeeps(w, sid, w.sessions[sid].(persistent := true));
    StayKeeps(kept, id);
    EvolvesTransitive(w, kept, DropTxn(kept, id));
    EvolvesTransitive(w, kept, DropTxn(Mint(kept, StayCode(w, id)), id));
  }

  function Kept(w: World, sid: Id): World
    requires sid in w.sessions
  {
    w.(sessions := w.sessions[sid := w.sessions[sid].(persistent := true)])
  }

  /** The answer ends the transaction, with or without its code, and may have made the session persistent. */
  lemma PostStayShape(w: World, id: Id, csrf: Id, yes: bool, cookie: Option<Id>)
    requires id in w.txns && w.txns[id].kmsi.Some? && w.txns[id].kmsi.value.sid in w.sessions
    ensures var x, kept := PostStay(w, id, csrf, yes, cookie).w, Kept(w, w.txns[id].kmsi.value.sid);
            || x == w || x == DropTxn(w, id) || x == DropTxn(Mint(w, StayCode(w, id)), id)
            || x == DropTxn(kept, id) || x == DropTxn(Mint(kept, StayCode(w, id)), id)
  {
  }

  lemma PostStayKeeps(w: World, id: Id, csrf: Id, yes: bool, cookie: Option<Id>)
    requires Inv(w)
    ensures Good(w, PostStay(w, id, csrf, yes, cookie).w)
  {
    if id in w.txns && w.txns[id].kmsi.Some? {
      TxnFacts(w, id);
      PostStayShape(w, id, csrf, yes, cookie);
      var x := PostStay(w, id, csrf, yes, cookie).w;
      if x == DropTxn(w, id) || x == DropTxn(Mint(w, StayCode(w, id)), id) {
        StayKeeps(w, id);
      } else if x != w {
        PersistKeeps(w, id, w.txns[id].kmsi.value.sid);
      }
    }
  }

  function StayCode(w: World, id: Id): Code
    requires id in w.txns && w.txns[id].kmsi.Some?
  {
    var k := w.txns[id].kmsi.value;
    Code(Some(id), w.txns[id].client, k.sub, k.sid, k.amr, k.acr)
  }

  lemma StayKeeps(w: World, id: Id)
    requires Inv(w) && id in w.txns && w.txns[id].kmsi.Some?
    ensures Good(w, DropTxn(w, id)) && Good(w, DropTxn(Mint(w, StayCode(w, id)), id))
  {
    TxnFacts(w, id);
    SessionFacts(w, w.txns[id].kmsi.value.sid);
    DropKeeps(w, id);
    MintAndDropKeeps(w, id, StayCode(w, id));
  }

  // ---------------------------------------------------------------- runs

  lemma GetLoginKeeps(w: World, id: Id, wanted: Option<Method>)
    requires Inv(w) && WellFormed(w)
    ensures Good(w, GetLogin(w, id, wanted).w)
  {
    if id in w.txns { RenderPhaseKeeps(w, id, wanted); } else { NothingKeeps(w); }
  }

  lemma EndSessionKeeps(w: World, sid: Id)
    requires Inv(w) && WellFormed(w)
    ensures Good(w, Do(w, EndSession(sid)).w)
  {
    if sid in w.sessions {
      SessionFacts(w, sid);
      SessionChangeKeeps(w, sid, w.sessions[sid].(live := false));
    } else {
      NothingKeeps(w);
    }
  }

  lemma StepKeeps(w: World, step: Step)
    requires Inv(w) && WellFormed(w)
    ensures Good(w, Do(w, step).w)
  {
    match step
    case GoAuthorize(r) => AuthorizeKeeps(w, r);
    case GoLocal => NewKeeps(w, 0, true, None);
    case GoAdmin(cookie, permitted, satisfied) => AdminDoorKeeps(w, cookie, permitted, satisfied);
    case GoLogin(id, wanted) => GetLoginKeeps(w, id, wanted);
    case SubmitLogin(id, csrf, who) => PostLoginKeeps(w, id, csrf, who);
    case SubmitPasskey(id, csrf, a) => PostPasskeyKeeps(w, id, csrf, a);
    case AskEmail(id, csrf, sent) => SendEmailKeeps(w, id, csrf, sent);
    case SubmitChallenge(id, csrf, chosen, answer) => PostChallengeKeeps(w, id, csrf, chosen, answer);
    case SubmitStay(id, csrf, yes, cookie) => PostStayKeeps(w, id, csrf, yes, cookie);
    case Expire(id) => DropKeeps(w, id);
    case ChangeAccount(sub, account) => AccountsKeep(w, w.accounts[sub := account]);
    case EndSession(sid) => EndSessionKeeps(w, sid);
  }

  function Run(w: World, steps: seq<Step>): World
    requires WellFormed(w)
    decreases |steps|
  {
    if steps == [] then w
    else if WellFormed(Do(w, steps[0]).w) then Run(Do(w, steps[0]).w, steps[1..])
    else Do(w, steps[0]).w
  }

  /** An installation before its first sign-in. */
  function Start(accounts: map<Sub, Account>): World {
    World(accounts, map[], map[], [], {}, 0)
  }

  lemma StartIsOk(accounts: map<Sub, Account>)
    ensures Inv(Start(accounts)) && WellFormed(Start(accounts))
  {
  }

  lemma {:induction false} RunKeeps(w: World, steps: seq<Step>)
    requires Inv(w) && WellFormed(w)
    ensures Good(w, Run(w, steps)) && WellFormed(Run(w, steps))
    decreases |steps|
  {
    if steps != [] {
      var x := Do(w, steps[0]).w;
      StepKeeps(w, steps[0]);
      InvIsWellFormed(x);
      RunKeeps(x, steps[1..]);
      EvolvesTransitive(w, x, Run(x, steps[1..]));
    }
  }

  /** Every factor of every session and every code was verified for its own subject; a step-up code's factor in its own transaction. */
  lemma FactorsWereVerified(accounts: map<Sub, Account>, steps: seq<Step>)
    ensures var w := Run(Start(accounts), steps);
            && (forall sid, f :: sid in w.sessions && f in w.sessions[sid].amr ==> Proof(w.sessions[sid].txn, w.sessions[sid].sub, f) in w.proofs)
            && (forall i :: 0 <= i < |w.codes| ==>
                  var c := w.codes[i];
                  && c.sid in w.sessions && w.sessions[c.sid].sub == c.sub
                  && (c.acr.StepUp? ==> c.txn.Some? && forall f :: f in c.amr ==> !f.Pwd? && Proof(c.txn.value, c.sub, f) in w.proofs)
                  && (!c.acr.StepUp? ==> c.amr == w.sessions[c.sid].amr))
  {
    StartIsOk(accounts);
    RunKeeps(Start(accounts), steps);
    var w := Run(Start(accounts), steps);
    forall sid | sid in w.sessions ensures SessionOk(w, sid, w.sessions[sid]) {
      SessionFacts(w, sid);
    }
    forall i | 0 <= i < |w.codes| ensures CodeOk(w, w.codes[i]) {}
  }

  /** Whoever has two-step sign-in on and a passkey, an authenticator or an address never gets a session from a password alone. */
  lemma PasswordAloneIsNotEnough(accounts: map<Sub, Account>, steps: seq<Step>, sid: Id)
    requires sid in Run(Start(accounts), steps).sessions
    ensures var s := Run(Start(accounts), steps).sessions[sid];
            && (s.account.mfaEnabled && (s.account.passkeys > 0 || s.account.totps > 0 || s.account.email) ==>
                  s.amr != [Pwd] && exists f :: f in s.amr && !f.Pwd?)
            && (s.acr.OneFactor? <==> s.amr == [Pwd])
  {
    StartIsOk(accounts);
    RunKeeps(Start(accounts), steps);
    SessionFacts(Run(Start(accounts), steps), sid);
    SecondFactors(Start(accounts), steps, sid);
  }

  /** The only one-element password amr is the plain login; every other session has another factor. */
  lemma SecondFactors(w: World, steps: seq<Step>, sid: Id)
    requires Inv(w) && WellFormed(w) && sid in Run(w, steps).sessions
    ensures Run(w, steps).sessions[sid].amr != [Pwd] ==> exists f :: f in Run(w, steps).sessions[sid].amr && !f.Pwd?
  {
    RunKeeps(w, steps);
    SessionFacts(Run(w, steps), sid);
    var amr := Run(w, steps).sessions[sid].amr;
    assert amr[|amr| - 1] in amr;
  }

  /** Transactions only move forward: login, challenge, answer; what has ended never returns. */
  lemma PhasesOnlyAdvance(w: World, steps: seq<Step>, id: Id)
    requires Inv(w) && WellFormed(w) && id < w.next
    ensures var x := Run(w, steps);
            id in x.txns ==> id in w.txns && Forward(w.txns[id], x.txns[id]) && Phase(w.txns[id]) <= Phase(x.txns[id])
  {
    RunKeeps(w, steps);
  }

  /** A step-up never opens a session, neither before nor after it ends. */
  lemma StepUpOpensNoSession(w: World, steps: seq<Step>, id: Id, sid: Id)
    requires Inv(w) && WellFormed(w) && id in w.txns && IsStepUp(w.txns[id]) && sid in Run(w, steps).sessions
    ensures Run(w, steps).sessions[sid].txn != id
  {
    RunKeeps(w, steps);
    TxnFacts(w, id);
    if sid in w.sessions {
      SessionFacts(w, sid);
    }
  }

  /** A transaction mints at most one code, and ends with it. */
  lemma OneCodePerTransaction(accounts: map<Sub, Account>, steps: seq<Step>, i: nat, j: nat)
    requires i < |Run(Start(accounts), steps).codes| && j < |Run(Start(accounts), steps).codes|
    requires Run(Start(accounts), steps).codes[i].txn == Run(Start(accounts), steps).codes[j].txn
    requires Run(Start(accounts), steps).codes[i].txn.Some?
    ensures i == j && Run(Start(accounts), steps).codes[i].txn.value !in Run(Start(accounts), steps).txns
  {
    StartIsOk(accounts);
    RunKeeps(Start(accounts), steps);
    var w := Run(Start(accounts), steps);
    assert CodeOk(w, w.codes[i]);
  }

  /** A challenge survives at most four failed strong attempts. */
  lemma AttemptsAreCapped(w: World, steps: seq<Step>, id: Id)
    requires Inv(w) && WellFormed(w) && id in Run(w, steps).txns && Run(w, steps).txns[id].mfa.Some?
    ensures Run(w, steps).txns[id].mfa.value.attempts < MAX_CHALLENGE_ATTEMPTS
  {
    RunKeeps(w, steps);
    TxnFacts(Run(w, steps), id);
  }

  // ---------------------------------------------------------------- single requests

  /** What a request must be to obtain a code: its user passes the application's gate, and the code goes where the transaction began. */
  predicate Earned(w: World, step: Step, c: Code) {
    && Allowed(w, c.client, c.sub)
    && match c.txn
       case None =>
         step.GoAuthorize? && step.r.valid && !step.r.force && !step.r.tooOld && c.client == step.r.client
         && LoadSession(w, step.r.cookie).Some? && LoadSession(w, step.r.cookie).value.sub == c.sub
       case Some(id) =>
         id in w.txns && c.client == w.txns[id].client
         && ((step.SubmitStay? && step.id == id && step.csrf == w.txns[id].csrf && !w.txns[id].local)
             || (step.SubmitChallenge? && step.id == id && step.csrf == w.txns[id].csrf && IsStepUp(w.txns[id])))
  }

  predicate Mints(w: World, step: Step, x: World) {
    x.codes == w.codes || (|x.codes| == |w.codes| + 1 && x.codes == w.codes + [x.codes[|w.codes|]] && Earned(w, step, x.codes[|w.codes|]))
  }

  lemma PagesMintNothing(w: World, id: Id, wanted: Option<Method>)
    requires id in w.txns && (w.txns[id].mfa.Some? ==> w.txns[id].mfa.value.methods != [])
    ensures var x := RenderPhase(w, id, wanted).w; x.codes == w.codes && x.sessions == w.sessions && x.proofs == w.proofs && x.accounts == w.accounts
    ensures id in RenderPhase(w, id, wanted).w.txns && Phase(RenderPhase(w, id, wanted).w.txns[id]) == Phase(w.txns[id])
  {
  }

  lemma ChallengeMints(w: World, id: Id, csrf: Id, chosen: Method, answer: Answer)
    requires WellFormed(w)
    ensures Mints(w, SubmitChallenge(id, csrf, chosen, answer), PostChallenge(w, id, csrf, chosen, answer).w)
  {
  }

  lemma StayMints(w: World, id: Id, csrf: Id, yes: bool, cookie: Option<Id>)
    ensures Mints(w, SubmitStay(id, csrf, yes, cookie), PostStay(w, id, csrf, yes, cookie).w)
  {
  }

  /** No request yields more than one code, and none a code that its user's access, the application and the CSRF token do not warrant. */
  lemma CodesAreEarned(w: World, step: Step)
    requires WellFormed(w)
    ensures Mints(w, step, Do(w, step).w)
  {
    match step
    case SubmitChallenge(id, csrf, chosen, answer) => ChallengeMints(w, id, csrf, chosen, answer);
    case SubmitStay(id, csrf, yes, cookie) => StayMints(w, id, csrf, yes, cookie);
    case GoLogin(id, wanted) => if id in w.txns { PagesMintNothing(w, id, wanted); }
    case SubmitLogin(id, csrf, who) => if id in w.txns { PagesMintNothing(w, id, None); }
    case SubmitPasskey(id, csrf, a) => if id in w.txns { PagesMintNothing(w, id, None); }
    case _ =>
  }

  function SubmittedTo(step: Step): Option<(Id, Id)> {
    match step
    case SubmitLogin(id, csrf, _) => Some((id, csrf))
    case SubmitPasskey(id, csrf, _) => Some((id, csrf))
    case AskEmail(id, csrf, _) => Some((id, csrf))
    case SubmitChallenge(id, csrf, _, _) => Some((id, csrf))
    case SubmitStay(id, csrf, _, _) => Some((id, csrf))
    case _ => None
  }

  /** A form without its transaction's token verifies nothing, opens nothing, mints nothing and moves no phase. */
  lemma ForgedFormsAreHarmless(w: World, step: Step, id: Id, csrf: Id)
    requires WellFormed(w) && SubmittedTo(step) == Some((id, csrf)) && id in w.txns && csrf != w.txns[id].csrf
    ensures var x := Do(w, step).w;
            && x.codes == w.codes && x.sessions == w.sessions && x.proofs == w.proofs && x.accounts == w.accounts
            && id in x.txns && Phase(x.txns[id]) == Phase(w.txns[id])
  {
    PagesMintNothing(w, id, None);
  }
}
