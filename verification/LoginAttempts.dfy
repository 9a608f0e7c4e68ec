// How often a run may guess at the strong factors of one transaction.
module LoginAttempts {
  import opened Common
  import opened Login
  import opened LoginTheorems
  import opened LoginEffects

  /** A wrong answer to an offered strong method, sent with the transaction's own token. */
  predicate WrongGuess(w: World, step: Step, id: Id) {
    && step.SubmitChallenge? && step.id == id && id in w.txns && w.txns[id].kmsi.None? && w.txns[id].mfa.Some?
    && step.csrf == w.txns[id].csrf && step.chosen in w.txns[id].mfa.value.methods
    && match step.chosen
       case UseTotp => step.answer != ByCode(true)
       case UsePasskey =>
         !(step.answer.ByAssertion? && step.answer.a.Some? && step.answer.a.value.sub == w.txns[id].mfa.value.sub
           && w.txns[id].mfa.value.challenge == Some(step.answer.a.value.challenge))
       case UseEmail => false
  }

  /** The wrong guesses at one transaction along a run. */
  function Guesses(w: World, steps: seq<Step>, id: Id): nat
    requires WellFormed(w)
    decreases |steps|
  {
    if steps == [] then 0 else
    (if WrongGuess(w, steps[0], id) then 1 else 0) + (if WellFormed(Do(w, steps[0]).w) then Guesses(Do(w, steps[0]).w, steps[1..], id) else 0)
  }

  /** What the transaction remembers of its wrong guesses. */
  function Remembered(w: World, id: Id): nat {
    if id in w.txns && w.txns[id].mfa.Some? then w.txns[id].mfa.value.attempts else 0
  }

  // ---------------------------------------------------------------- one request

  function Target(step: Step): Option<Id> {
    match step
    case GoLogin(id, _) => Some(id)
    case SubmitLogin(id, _, _) => Some(id)
    case SubmitPasskey(id, _, _) => Some(id)
    case AskEmail(id, _, _) => Some(id)
    case SubmitChallenge(id, _, _, _) => Some(id)
    case SubmitStay(id, _, _, _) => Some(id)
    case Expire(id) => Some(id)
    case _ => None
  }

  lemma PageKeepsOthers(w: World, id: Id, wanted: Option<Method>, other: Id)
    requires id in w.txns && (w.txns[id].mfa.Some? ==> w.txns[id].mfa.value.methods != []) && other != id
    ensures var x := RenderPhase(w, id, wanted).w;
            (other in x.txns <==> other in w.txns) && (other in w.txns ==> x.txns[other] == w.txns[other])
    ensures Remembered(RenderPhase(w, id, wanted).w, id) == Remembered(w, id) && id in RenderPhase(w, id, wanted).w.txns
  {
  }

  lemma ChallengeKeepsOthers(w: World, id: Id, csrf: Id, chosen: Method, answer: Answer, other: Id)
    requires WellFormed(w) && other != id && other in w.txns
    ensures var x := PostChallenge(w, id, csrf, chosen, answer).w; other in x.txns && x.txns[other] == w.txns[other]
  {
  }

  lemma PasswordKeepsOthers(w: World, id: Id, csrf: Id, who: Option<Sub>, other: Id)
    requires WellFormed(w) && other != id && other in w.txns && id in w.txns
    ensures var x := PostLogin(w, id, csrf, who).w; other in x.txns && x.txns[other] == w.txns[other]
  {
    PageKeepsOthers(w, id, None, other);
  }

  lemma PasskeyKeepsOthers(w: World, id: Id, csrf: Id, a: Option<Assertion>, other: Id)
    requires WellFormed(w) && other != id && other in w.txns && id in w.txns
    ensures var x := PostPasskey(w, id, csrf, a).w; other in x.txns && x.txns[other] == w.txns[other]
  {
    PageKeepsOthers(w, id, None, other);
  }

  lemma EntriesKeepOthers(w: World, r: AuthorizeReq, cookie: Option<Id>, permitted: bool, satisfied: bool, other: Id)
    requires other in w.txns && other < w.next
    ensures other in Authorize(w, r).w.txns && Authorize(w, r).w.txns[other] == w.txns[other]
    ensures other in AdminDoor(w, cookie, permitted, satisfied).w.txns && AdminDoor(w, cookie, permitted, satisfied).w.txns[other] == w.txns[other]
  {
  }

  lemma AnswersKeepOthers(w: World, id: Id, csrf: Id, yes: bool, cookie: Option<Id>, sent: bool, other: Id)
    requires WellFormed(w) && other != id && other in w.txns
    ensures var x := PostStay(w, id, csrf, yes, cookie).w; other in x.txns && x.txns[other] == w.txns[other]
    ensures var x := SendEmail(w, id, csrf, sent).w; other in x.txns && x.txns[other] == w.txns[other]
  {
  }

  /** A request leaves every other transaction alone. */
  lemma OthersStay(w: World, step: Step, other: Id)
    requires WellFormed(w) && other in w.txns && other < w.next && Target(step) != Some(other)
    ensures other in Do(w, step).w.txns && Do(w, step).w.txns[other] == w.txns[other]
  {
    match step
    case GoAuthorize(r) => EntriesKeepOthers(w, r, None, false, false, other);
    case GoAdmin(cookie, permitted, satisfied) => EntriesKeepOthers(w, AuthorizeReq(0, false, false, false, None, false, false, false, false), cookie, permitted, satisfied, other);
    case SubmitChallenge(id, csrf, chosen, answer) => ChallengeKeepsOthers(w, id, csrf, chosen, answer, other);
    case GoLogin(id, wanted) => if id in w.txns { PageKeepsOthers(w, id, wanted, other); }
    case SubmitLogin(id, csrf, who) => if id in w.txns { PasswordKeepsOthers(w, id, csrf, who, other); }
    case SubmitPasskey(id, csrf, a) => if id in w.txns { PasskeyKeepsOthers(w, id, csrf, a, other); }
    case AskEmail(id, csrf, sent) => AnswersKeepOthers(w, id, csrf, false, None, sent, other);
    case SubmitStay(id, csrf, yes, cookie) => AnswersKeepOthers(w, id, csrf, yes, cookie, false, other);
    case _ =>
  }

  /** Only wrong guesses are counted, each of them, and the fifth ends the transaction. */
  lemma ChallengeCounts(w: World, id: Id, csrf: Id, chosen: Method, answer: Answer)
    requires WellFormed(w) && id in w.txns && Remembered(w, id) < 5
    ensures var step := SubmitChallenge(id, csrf, chosen, answer);
            var r := PostChallenge(w, id, csrf, chosen, answer);
            && (WrongGuess(w, step, id) && Remembered(w, id) < 4 ==> id in r.w.txns && Remembered(r.w, id) == Remembered(w, id) + 1)
            && (WrongGuess(w, step, id) && Remembered(w, id) == 4 ==> id !in r.w.txns && r.reply == TooManyAttempts)
            && (!WrongGuess(w, step, id) && id in r.w.txns ==> Remembered(r.w, id) == Remembered(w, id))
  {
    ChallengeElsewhere(w, id, csrf, chosen, answer);
    if Challenged(w, id, chosen) && csrf == w.txns[id].csrf {
      match chosen
      case UseTotp => TotpIsExact(w, id, answer);
      case UsePasskey => PasskeyChallengeIsExact(w, id, answer);
      case UseEmail => EmailIsExact(w, id, answer);
    }
  }

  lemma FormCounts(w: World, id: Id, csrf: Id, who: Option<Sub>, a: Option<Assertion>)
    requires WellFormed(w) && id in w.txns
    ensures id in PostLogin(w, id, csrf, who).w.txns ==> Remembered(PostLogin(w, id, csrf, who).w, id) == Remembered(w, id)
    ensures id in PostPasskey(w, id, csrf, a).w.txns ==> Remembered(PostPasskey(w, id, csrf, a).w, id) == Remembered(w, id)
  {
    PageKeepsOthers(w, id, None, id + 1);
    PasswordElsewhere(w, id, csrf, who);
    if w.txns[id].kmsi.None? && w.txns[id].mfa.None? {
      PasswordIsExact(w, id, who);
      PasskeyIsExact(w, id, a);
    }
  }

  /** Every step counts exactly its wrong guess at a living transaction. */
  lemma StepCounts(w: World, step: Step, id: Id)
    requires Inv(w) && WellFormed(w) && id in w.txns
    ensures var r := Do(w, step);
            && (WrongGuess(w, step, id) && Remembered(w, id) == 4 ==> r.reply == TooManyAttempts)
            && (WrongGuess(w, step, id) ==> (id in r.w.txns <==> Remembered(w, id) < 4))
            && (id in r.w.txns ==> Remembered(r.w, id) == Remembered(w, id) + (if WrongGuess(w, step, id) then 1 else 0))
            && Remembered(w, id) <= 4
  {
    TxnFacts(w, id);
    if Target(step) != Some(id) {
      OthersStay(w, step, id);
    } else {
      match step
      case SubmitChallenge(_, csrf, chosen, answer) => ChallengeCounts(w, id, csrf, chosen, answer);
      case GoLogin(_, wanted) => PageKeepsOthers(w, id, wanted, id + 1);
      case SubmitLogin(_, csrf, who) => FormCounts(w, id, csrf, who, None);
      case SubmitPasskey(_, csrf, a) => FormCounts(w, id, csrf, None, a);
      case AskEmail(_, csrf, sent) => SendEmailIsExact(w, id, csrf, sent);
      case SubmitStay(_, csrf, yes, cookie) =>
      case Expire(_) =>
    }
  }

  // ---------------------------------------------------------------- runs

  /** A transaction that has ended is never guessed at again. */
  lemma {:induction false} NoGuessesAfterTheEnd(w: World, steps: seq<Step>, id: Id)
    requires Inv(w) && WellFormed(w) && id !in w.txns && id < w.next
    ensures Guesses(w, steps, id) == 0
    decreases |steps|
  {
    if steps != [] {
      StepKeeps(w, steps[0]);
      InvIsWellFormed(Do(w, steps[0]).w);
      NoGuessesAfterTheEnd(Do(w, steps[0]).w, steps[1..], id);
    }
  }

  /**
   * While a transaction lives it remembers exactly the wrong guesses made at it, and over any run, with its end and
   * everything after it, they are at most five.
   */
  lemma {:induction false} GuessesAreCounted(w: World, steps: seq<Step>, id: Id)
    requires Inv(w) && WellFormed(w) && id in w.txns
    ensures id in Run(w, steps).txns ==> Remembered(Run(w, steps), id) == Remembered(w, id) + Guesses(w, steps, id)
    ensures Remembered(w, id) + Guesses(w, steps, id) <= 5
    decreases |steps|
  {
    TxnFacts(w, id);
    if steps != [] {
      var x := Do(w, steps[0]).w;
      StepCounts(w, steps[0], id);
      StepKeeps(w, steps[0]);
      InvIsWellFormed(x);
      if id in x.txns {
        GuessesAreCounted(x, steps[1..], id);
      } else {
        NoGuessesAfterTheEnd(x, steps[1..], id);
        RunKeeps(x, steps[1..]);
      }
    }
  }

  /** The fifth wrong guess is told so and ends the transaction. */
  lemma FifthGuessEnds(w: World, steps: seq<Step>, last: Step, id: Id)
    requires Inv(w) && WellFormed(w) && id in w.txns && Remembered(w, id) == 0
    requires Guesses(w, steps, id) == 4 && id in Run(w, steps).txns
    requires WellFormed(Run(w, steps)) && WrongGuess(Run(w, steps), last, id)
    ensures Do(Run(w, steps), last).reply == TooManyAttempts && id !in Do(Run(w, steps), last).w.txns
  {
    GuessesAreCounted(w, steps, id);
    RunKeeps(w, steps);
    StepCounts(Run(w, steps), last, id);
  }
}
