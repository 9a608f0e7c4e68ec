// The sign-in transaction from `/authorize` to the code: its store, its phases and
// the requests that drive it.
module Login {
  import opened Common

  type Sub = nat
  type Client = nat
  /** Transactions, sessions and assertion challenges get fresh names from one counter: the source draws unguessable ones. */
  type Id = nat

  const MAX_CHALLENGE_ATTEMPTS: nat := 5

  datatype Factor = Pwd | Otp | Passkey | Email

  datatype Acr = OneFactor | TwoFactor | StepUp

  datatype Method = UsePasskey | UseTotp | UseEmail

  /** What sign-in reads of an account; `denied` are the applications whose sign-in gate refuses it. */
  datatype Account = Account(active: bool, mfaEnabled: bool, passkeys: nat, totps: nat, email: bool, denied: set<Client>)

  /** Whether a challenge continues a login, returns a step-up code to an application, or stamps an admin session. */
  datatype Mode = SecondFactor | ReturnTo(sid: Id) | Stamp(sid: Id)

  datatype Mfa = Mfa(sub: Sub, mode: Mode, methods: seq<Method>, attempts: nat, emailSent: bool, challenge: Option<Id>)

  datatype Kmsi = Kmsi(sid: Id, sub: Sub, amr: seq<Factor>, acr: Acr)

  datatype Txn = Txn(client: Client, local: bool, csrf: Id, passkey: Option<Id>, mfa: Option<Mfa>, kmsi: Option<Kmsi>)

  /** `stamp` is the factor of the last sudo stamp; `txn` and `account` record where and for what account state the session was opened. */
  datatype Session = Session(sub: Sub, amr: seq<Factor>, acr: Acr, stamp: Factor, live: bool, persistent: bool, txn: Id, account: Account)

  /** `txn` is absent for silent session reuse. */
  datatype Code = Code(txn: Option<Id>, client: Client, sub: Sub, sid: Id, amr: seq<Factor>, acr: Acr)

  /** A factor that was verified for a subject during a transaction. */
  datatype Proof = Proof(txn: Id, sub: Sub, factor: Factor)

  datatype World = World(accounts: map<Sub, Account>, txns: map<Id, Txn>, sessions: map<Id, Session>, codes: seq<Code>, proofs: set<Proof>, next: Id)

  datatype Reply =
    | LoginForm | ChallengePage(shown: Method) | StayPage | EnrollPage | ExpiredPage | BadRequest | RequestError
    | AccessDenied | LoginRequired | TooManyAttempts | ToLogin(txn: Id) | ToClient(code: Code) | ToLocal | Refused

  datatype Result = Result(w: World, reply: Reply)

  // ---------------------------------------------------------------- the store

  function PutTxn(w: World, id: Id, t: Txn): World {
    w.(txns := w.txns[id := t])
  }

  function DropTxn(w: World, id: Id): World {
    w.(txns := w.txns - {id})
  }

  /** A new transaction and its CSRF token. */
  function NewTxn(w: World, client: Client, local: bool, mfa: Option<Mfa>): World {
    w.(txns := w.txns[w.next := Txn(client, local, w.next + 1, None, mfa, None)], next := w.next + 2)
  }

  function Prove(w: World, txn: Id, sub: Sub, factor: Factor): World {
    w.(proofs := w.proofs + {Proof(txn, sub, factor)})
  }

  /** The strongest factor of an amr. */
  function MethodFromAmr(amr: seq<Factor>): Factor {
    if Passkey in amr then Passkey else if Otp in amr then Otp else if Email in amr then Email else Pwd
  }

  /** Opens the session and asks whether to stay signed in. */
  function FinishLogin(w: World, id: Id, sub: Sub, amr: seq<Factor>, acr: Acr): World
    requires id in w.txns && sub in w.accounts
  {
    var sid := w.next;
    w.(sessions := w.sessions[sid := Session(sub, amr, acr, MethodFromAmr(amr), true, false, id, w.accounts[sub])],
       txns := w.txns[id := w.txns[id].(kmsi := Some(Kmsi(sid, sub, amr, acr)))],
       next := w.next + 1)
  }

  function Mint(w: World, c: Code): World {
    w.(codes := w.codes + [c])
  }

  // ---------------------------------------------------------------- pages

  /** The login form carries a first-factor challenge, minted once and reused until an attempt consumes it. */
  function RenderLogin(w: World, id: Id): Result
    requires id in w.txns
  {
    if w.txns[id].passkey.Some? then Result(w, LoginForm)
    else Result(PutTxn(w, id, w.txns[id].(passkey := Some(w.next))).(next := w.next + 1), LoginForm)
  }

  /** The passkey page mints a new challenge every time it is shown. */
  function RenderChallenge(w: World, id: Id, wanted: Option<Method>): Result
    requires id in w.txns && w.txns[id].mfa.Some? && w.txns[id].mfa.value.methods != []
  {
    var mfa := w.txns[id].mfa.value;
    var shown := if wanted.Some? && wanted.value in mfa.methods then wanted.value else mfa.methods[0];
    if shown.UsePasskey?
    then Result(PutTxn(w, id, w.txns[id].(mfa := Some(mfa.(challenge := Some(w.next))))).(next := w.next + 1), ChallengePage(shown))
    else Result(w, ChallengePage(shown))
  }

  /** A transaction past the password shows its phase again. */
  function RenderPhase(w: World, id: Id, wanted: Option<Method>): Result
    requires id in w.txns && (w.txns[id].mfa.Some? ==> w.txns[id].mfa.value.methods != [])
  {
    if w.txns[id].kmsi.Some? then Result(w, StayPage)
    else if w.txns[id].mfa.Some? then RenderChallenge(w, id, wanted)
    else RenderLogin(w, id)
  }

  // ---------------------------------------------------------------- requests

  /** `valid`: a known, enabled client, a registered return address and a well-formed request. `tooOld`: `max_age` has passed. */
  datatype AuthorizeReq = AuthorizeReq(client: Client, valid: bool, force: bool, none: bool, cookie: Option<Id>, tooOld: bool,
                                       stepUp: bool, wantPasskey: bool, wantTotp: bool)

  function LoadSession(w: World, cookie: Option<Id>): Option<Session> {
    if cookie.Some? && cookie.value in w.sessions && w.sessions[cookie.value].live
       && w.sessions[cookie.value].sub in w.accounts && w.accounts[w.sessions[cookie.value].sub].active
    then Some(w.sessions[cookie.value]) else None
  }

  predicate Allowed(w: World, client: Client, sub: Sub) {
    sub in w.accounts && client !in w.accounts[sub].denied
  }

  function StepUpMethods(a: Account, wantPasskey: bool, wantTotp: bool): seq<Method> {
    (if wantPasskey && a.passkeys > 0 then [UsePasskey] else []) + (if wantTotp && a.totps > 0 then [UseTotp] else [])
  }

  function Authorize(w: World, r: AuthorizeReq): Result {
    if !r.valid then Result(w, RequestError) else
    var session := if r.force then None else LoadSession(w, r.cookie);
    if session.Some? && !r.tooOld then
      var s := session.value;
      if !Allowed(w, r.client, s.sub) then Result(w, AccessDenied)
      else if r.stepUp then
        var methods := StepUpMethods(w.accounts[s.sub], r.wantPasskey, r.wantTotp);
        if methods == [] then Result(w, EnrollPage)
        else Result(NewTxn(w, r.client, false, Some(Mfa(s.sub, ReturnTo(r.cookie.value), methods, 0, false, None))), ToLogin(w.next))
      else
        var code := Code(None, r.client, s.sub, r.cookie.value, s.amr, s.acr);
        Result(Mint(w, code), ToClient(code))
    else if r.none then Result(w, LoginRequired)
    else Result(NewTxn(w, r.client, false, None), ToLogin(w.next))
  }

  function StartLocalLogin(w: World): Result {
    Result(NewTxn(w, 0, true, None), ToLogin(w.next))
  }

  /** The admin console's step-up door: a passkey preempts an authenticator. `satisfied`: the sudo window is fresh and strong enough. */
  function AdminDoor(w: World, cookie: Option<Id>, permitted: bool, satisfied: bool): Result {
    var session := LoadSession(w, cookie);
    if session.None? then Result(w, LoginRequired)
    else if !permitted then Result(w, Refused)
    else if satisfied then Result(w, ToLocal)
    else
      var a := w.accounts[session.value.sub];
      var methods := if a.passkeys > 0 then [UsePasskey] else if a.totps > 0 then [UseTotp] else [];
      if methods == [] then Result(w, EnrollPage)
      else Result(NewTxn(w, 0, true, Some(Mfa(session.value.sub, Stamp(cookie.value), methods, 0, false, None))), ToLogin(w.next))
  }

  function GetLogin(w: World, id: Id, wanted: Option<Method>): Result
    requires WellFormed(w)
  {
    if id !in w.txns then Result(w, ExpiredPage) else
    RenderPhase(w, id, wanted)
  }

  /** What the login challenge offers: strong factors first, email only without any. */
  function LoginMethods(a: Account): seq<Method> {
    var strong := (if a.passkeys > 0 then [UsePasskey] else []) + (if a.totps > 0 then [UseTotp] else []);
    if strong == [] && a.email then [UseEmail] else strong
  }

  predicate MfaDue(a: Account) {
    a.mfaEnabled && LoginMethods(a) != []
  }

  /** `who` is the account whose password the form carried, if any. */
  function PostLogin(w: World, id: Id, csrf: Id, who: Option<Sub>): Result
    requires WellFormed(w)
  {
    if id !in w.txns then Result(w, ExpiredPage)
    else if w.txns[id].kmsi.Some? || w.txns[id].mfa.Some? then RenderPhase(w, id, None)
    else if csrf != w.txns[id].csrf then Result(w, BadRequest)
    else if who.None? || who.value !in w.accounts || !w.accounts[who.value].active then RenderLogin(w, id)
    else
      var sub := who.value;
      var proven := Prove(w, id, sub, Pwd);
      if MfaDue(w.accounts[sub]) then
        RenderChallenge(PutTxn(proven, id, w.txns[id].(mfa := Some(Mfa(sub, SecondFactor, LoginMethods(w.accounts[sub]), 0, false, None)))), id, None)
      else Result(FinishLogin(proven, id, sub, [Pwd], OneFactor), StayPage)
  }

  /** A signed assertion: whose credential signed it, and over which challenge. */
  datatype Assertion = Assertion(sub: Sub, challenge: Id)

  /** A failed attempt uses the challenge up and shows the form with a new one. */
  function PasskeyFails(w: World, id: Id): Result
    requires id in w.txns
  {
    RenderLogin(PutTxn(w, id, w.txns[id].(passkey := None)), id)
  }

  function PostPasskey(w: World, id: Id, csrf: Id, a: Option<Assertion>): Result
    requires WellFormed(w)
  {
    if id !in w.txns then Result(w, ExpiredPage)
    else if w.txns[id].kmsi.Some? || w.txns[id].mfa.Some? then RenderPhase(w, id, None)
    else if csrf != w.txns[id].csrf then Result(w, BadRequest)
    else if a.None? || w.txns[id].passkey != Some(a.value.challenge) then PasskeyFails(w, id)
    else
      var proven := Prove(w, id, a.value.sub, Passkey);
      if a.value.sub !in w.accounts || !w.accounts[a.value.sub].active then PasskeyFails(proven, id)
      else Result(FinishLogin(proven, id, a.value.sub, [Passkey], TwoFactor), StayPage)
  }

  /** `sent`: the code was issued and the message left. */
  function SendEmail(w: World, id: Id, csrf: Id, sent: bool): Result
    requires WellFormed(w)
  {
    if id !in w.txns || w.txns[id].mfa.None? then Result(w, ExpiredPage)
    else if csrf != w.txns[id].csrf || UseEmail !in w.txns[id].mfa.value.methods then Result(w, BadRequest)
    else if !sent then RenderChallenge(w, id, Some(UseEmail))
    else RenderChallenge(PutTxn(w, id, w.txns[id].(mfa := Some(w.txns[id].mfa.value.(emailSent := true)))), id, Some(UseEmail))
  }

  /** What the form of a challenge carries: a code that the verifier accepted or not, or an assertion. */
  datatype Answer = ByCode(valid: bool) | ByAssertion(a: Option<Assertion>)

  function StrongFail(w: World, id: Id, used: Method): Result
    requires id in w.txns && w.txns[id].mfa.Some? && w.txns[id].mfa.value.methods != []
  {
    var mfa := w.txns[id].mfa.value;
    var counted := w.txns[id].(mfa := Some(mfa.(attempts := mfa.attempts + 1)));
    if mfa.attempts + 1 >= MAX_CHALLENGE_ATTEMPTS then Result(DropTxn(w, id), TooManyAttempts)
    else RenderChallenge(PutTxn(w, id, counted), id, Some(used))
  }

  function WithoutPwd(amr: seq<Factor>): seq<Factor> {
    if amr == [] then [] else (if amr[0].Pwd? then [] else [amr[0]]) + WithoutPwd(amr[1..])
  }

  /** After a strong factor: a step-up returns a code or stamps the session, a login goes on. */
  function Succeed(w: World, id: Id, amr: seq<Factor>, acr: Acr): Result
    requires id in w.txns && w.txns[id].mfa.Some? && w.txns[id].mfa.value.sub in w.accounts
  {
    var t, mfa := w.txns[id], w.txns[id].mfa.value;
    match mfa.mode
    case ReturnTo(sid) =>
      if !Allowed(w, t.client, mfa.sub) then Result(DropTxn(w, id), AccessDenied)
      else
        var code := Code(Some(id), t.client, mfa.sub, sid, WithoutPwd(amr), StepUp);
        Result(DropTxn(Mint(w, code), id), ToClient(code))
    case Stamp(sid) =>
      var stamped := if sid in w.sessions && w.sessions[sid].live
                     then w.(sessions := w.sessions[sid := w.sessions[sid].(stamp := MethodFromAmr(amr))]) else w;
      Result(DropTxn(stamped, id), ToLocal)
    case SecondFactor => Result(FinishLogin(w, id, mfa.sub, amr, acr), StayPage)
  }

  function PostChallenge(w: World, id: Id, csrf: Id, chosen: Method, answer: Answer): Result
    requires WellFormed(w)
  {
    if id !in w.txns then Result(w, ExpiredPage)
    else if w.txns[id].kmsi.Some? then Result(w, StayPage)
    else if w.txns[id].mfa.None? then Result(w, ExpiredPage)
    else if csrf != w.txns[id].csrf || chosen !in w.txns[id].mfa.value.methods then Result(w, BadRequest)
    else
      var mfa := w.txns[id].mfa.value;
      match chosen
      case UseTotp =>
        if answer != ByCode(true) then StrongFail(w, id, UseTotp)
        else Succeed(Prove(w, id, mfa.sub, Otp), id, [Pwd, Otp], TwoFactor)
      case UsePasskey =>
        var used := PutTxn(w, id, w.txns[id].(mfa := Some(mfa.(challenge := None))));
        if answer.ByCode? || answer.a.None? || mfa.challenge != Some(answer.a.value.challenge) || answer.a.value.sub != mfa.sub
        then StrongFail(used, id, UsePasskey)
        else Succeed(Prove(used, id, mfa.sub, Passkey), id, [Pwd, Passkey], TwoFactor)
      case UseEmail =>
        if answer != ByCode(true) then RenderChallenge(w, id, Some(UseEmail))
        else Result(FinishLogin(Prove(w, id, mfa.sub, Email), id, mfa.sub, [Pwd, Email], TwoFactor), StayPage)
  }

  /** `cookie` is the session the browser holds: only that one can be made persistent. */
  function PostStay(w: World, id: Id, csrf: Id, yes: bool, cookie: Option<Id>): Result {
    if id !in w.txns || w.txns[id].kmsi.None? then Result(w, ExpiredPage)
    else if csrf != w.txns[id].csrf then Result(w, BadRequest)
    else
      var t, k := w.txns[id], w.txns[id].kmsi.value;
      var kept := if yes && cookie == Some(k.sid) && k.sid in w.sessions && w.sessions[k.sid].live
                  then w.(sessions := w.sessions[k.sid := w.sessions[k.sid].(persistent := true)]) else w;
      if t.local then Result(DropTxn(kept, id), ToLocal)
      else if !Allowed(w, t.client, k.sub) then Result(DropTxn(kept, id), AccessDenied)
      else
        var code := Code(Some(id), t.client, k.sub, k.sid, k.amr, k.acr);
        Result(DropTxn(Mint(kept, code), id), ToClient(code))
  }

  // ---------------------------------------------------------------- steps

  datatype Step =
    | GoAuthorize(r: AuthorizeReq)
    | GoLocal
    | GoAdmin(cookie: Option<Id>, permitted: bool, satisfied: bool)
    | GoLogin(id: Id, wanted: Option<Method>)
    | SubmitLogin(id: Id, csrf: Id, who: Option<Sub>)
    | SubmitPasskey(id: Id, csrf: Id, a: Option<Assertion>)
    | AskEmail(id: Id, csrf: Id, sent: bool)
    | SubmitChallenge(id: Id, csrf: Id, chosen: Method, answer: Answer)
    | SubmitStay(id: Id, csrf: Id, yes: bool, cookie: Option<Id>)
    | Expire(id: Id)
    | ChangeAccount(sub: Sub, account: Account)
    | EndSession(sid: Id)

  function Do(w: World, step: Step): Result
    requires WellFormed(w)
  {
    match step
    case GoAuthorize(r) => Authorize(w, r)
    case GoLocal => StartLocalLogin(w)
    case GoAdmin(cookie, permitted, satisfied) => AdminDoor(w, cookie, permitted, satisfied)
    case GoLogin(id, wanted) => GetLogin(w, id, wanted)
    case SubmitLogin(id, csrf, who) => PostLogin(w, id, csrf, who)
    case SubmitPasskey(id, csrf, a) => PostPasskey(w, id, csrf, a)
    case AskEmail(id, csrf, sent) => SendEmail(w, id, csrf, sent)
    case SubmitChallenge(id, csrf, chosen, answer) => PostChallenge(w, id, csrf, chosen, answer)
    case SubmitStay(id, csrf, yes, cookie) => PostStay(w, id, csrf, yes, cookie)
    case Expire(id) => Result(DropTxn(w, id), ExpiredPage)
    case ChangeAccount(sub, a) => Result(w.(accounts := w.accounts[sub := a]), ToLocal)
    case EndSession(sid) =>
      Result(if sid in w.sessions then w.(sessions := w.sessions[sid := w.sessions[sid].(live := false)]) else w, ToLocal)
  }

  /** A challenge always has a method to offer and concerns an existing account. */
  predicate WellFormed(w: World) {
    forall id :: id in w.txns && w.txns[id].mfa.Some? ==> w.txns[id].mfa.value.methods != [] && w.txns[id].mfa.value.sub in w.accounts
  }
}
