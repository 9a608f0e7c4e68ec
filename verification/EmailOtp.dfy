// Emailed one-time codes: what issuing and guessing may do to the codes and the
// send limits of one account.
module EmailOtp {
  import opened Common

  /** Seconds. */
  type Time = int
  type Purpose = nat
  type Guess = nat

  const OTP_TTL: Time := 300
  const MAX_ATTEMPTS: nat := 5
  const COOLDOWN: Time := 60
  const DAILY_CAP: nat := 20
  const DAY: Time := 86_400

  /** `serial` tells minted codes apart, whatever their digits; `readable`: the sealed code opens. */
  datatype Otp = Otp(code: Guess, serial: nat, generatedAt: Time, sentAt: Time, attempts: nat, readable: bool)

  datatype Limit = Limit(firstSent: Time, lastSent: Time, total: nat)

  /** What has happened so far: who minted what, and how its guesses went. */
  datatype History = History(minted: nat, mintedInWindow: nat, wrong: map<nat, nat>, right: map<nat, nat>)

  datatype State = State(otps: map<Purpose, Otp>, limit: Option<Limit>, log: History)

  const EMPTY := State(map[], None, History(0, 0, map[], map[]))

  datatype Issued = Sent(code: Guess) | Cooldown(retryAfter: int) | DailyLimit(retryAfter: int)

  datatype Verified = Valid | Invalid(mustResend: bool)

  function Count(m: map<nat, nat>, serial: nat): nat {
    if serial in m then m[serial] else 0
  }

  // ---------------------------------------------------------------- issuing

  predicate Lapsed(l: Limit, now: Time) {
    l.firstSent < now - DAY
  }

  function Refusal(s: State, now: Time): Option<Issued> {
    if s.limit.None? || Lapsed(s.limit.value, now) then None
    else
      var l := s.limit.value;
      var sinceLast := Max(0, now - l.lastSent);
      if l.total >= DAILY_CAP then Some(DailyLimit(Max(0, l.firstSent + DAY - now)))
      else if sinceLast < COOLDOWN then Some(Cooldown(COOLDOWN - sinceLast))
      else None
  }

  predicate Reusable(s: State, purpose: Purpose, now: Time) {
    && purpose in s.otps && s.otps[purpose].generatedAt > now - OTP_TTL
    && s.otps[purpose].attempts < MAX_ATTEMPTS && s.otps[purpose].readable
  }

  function NextLimit(l: Option<Limit>, now: Time): Limit {
    if l.None? || Lapsed(l.value, now) then Limit(now, now, 1) else Limit(l.value.firstSent, now, l.value.total + 1)
  }

  /** A resend keeps a fresh code and its attempts; otherwise `newCode` is minted. */
  function Issue(s: State, purpose: Purpose, now: Time, newCode: Guess): (State, Issued) {
    if Refusal(s, now).Some? then (s, Refusal(s, now).value) else
    var newWindow := s.limit.None? || Lapsed(s.limit.value, now);
    var inWindow := if newWindow then 0 else s.log.mintedInWindow;
    if Reusable(s, purpose, now) then
      (State(s.otps[purpose := s.otps[purpose].(sentAt := now)], Some(NextLimit(s.limit, now)), s.log.(mintedInWindow := inWindow)),
       Sent(s.otps[purpose].code))
    else
      (State(s.otps[purpose := Otp(newCode, s.log.minted, now, now, 0, true)], Some(NextLimit(s.limit, now)),
             s.log.(minted := s.log.minted + 1, mintedInWindow := inWindow + 1)),
       Sent(newCode))
  }

  // ---------------------------------------------------------------- guessing

  predicate Live(s: State, purpose: Purpose, now: Time) {
    purpose in s.otps && s.otps[purpose].sentAt > now - OTP_TTL && s.otps[purpose].attempts < MAX_ATTEMPTS
  }

  /** `guess` is absent when the submitted text is not six digits. */
  function Verify(s: State, purpose: Purpose, now: Time, guess: Option<Guess>): (State, Verified) {
    if !Live(s, purpose, now) then (s, Invalid(true)) else
    var o := s.otps[purpose];
    if o.readable && guess == Some(o.code) then
      (s.(otps := s.otps - {purpose}, log := s.log.(right := s.log.right[o.serial := Count(s.log.right, o.serial) + 1])), Valid)
    else
      (s.(otps := s.otps[purpose := o.(attempts := o.attempts + 1)],
          log := s.log.(wrong := s.log.wrong[o.serial := Count(s.log.wrong, o.serial) + 1])),
       Invalid(o.attempts + 1 >= MAX_ATTEMPTS))
  }

  // ---------------------------------------------------------------- runs

  /** `Corrupt`: the key that sealed the codes changes. */
  datatype Step = DoIssue(purpose: Purpose, now: Time, newCode: Guess) | DoVerify(purpose: Purpose, now: Time, guess: Option<Guess>) | Corrupt(purpose: Purpose)

  function Do(s: State, step: Step): State {
    match step
    case DoIssue(purpose, now, newCode) => Issue(s, purpose, now, newCode).0
    case DoVerify(purpose, now, guess) => Verify(s, purpose, now, guess).0
    case Corrupt(purpose) => if purpose in s.otps then s.(otps := s.otps[purpose := s.otps[purpose].(readable := false)]) else s
  }

  function Run(s: State, steps: seq<Step>): State {
    if steps == [] then s else Do(Run(s, steps[..|steps| - 1]), steps[|steps| - 1])
  }

  /** The stored counter of a code is the number of its wrong guesses; a stored code has not been used. */
  ghost predicate CodesOk(s: State) {
    && (forall p :: p in s.otps ==>
          var o := s.otps[p];
          && o.serial < s.log.minted && o.attempts <= MAX_ATTEMPTS
          && Count(s.log.wrong, o.serial) == o.attempts && Count(s.log.right, o.serial) == 0)
    && (forall p, q :: p in s.otps && q in s.otps && s.otps[p].serial == s.otps[q].serial ==> p == q)
  }

  ghost predicate LogOk(s: State) {
    && (forall serial :: Count(s.log.wrong, serial) <= MAX_ATTEMPTS && Count(s.log.right, serial) <= 1)
    && (forall serial :: serial >= s.log.minted ==> Count(s.log.wrong, serial) == 0 && Count(s.log.right, serial) == 0)
  }

  ghost predicate LimitOk(s: State) {
    if s.limit.None? then s.log.mintedInWindow == 0 else s.log.mintedInWindow <= s.limit.value.total <= DAILY_CAP
  }

  ghost predicate Inv(s: State) {
    CodesOk(s) && LogOk(s) && LimitOk(s)
  }

  lemma IssueKeeps(s: State, purpose: Purpose, now: Time, newCode: Guess)
    requires Inv(s)
    ensures Inv(Issue(s, purpose, now, newCode).0)
  {
  }

  lemma VerifyKeeps(s: State, purpose: Purpose, now: Time, guess: Option<Guess>)
    requires Inv(s)
    ensures Inv(Verify(s, purpose, now, guess).0)
  {
    var x := Verify(s, purpose, now, guess).0;
    if Live(s, purpose, now) {
      var o := s.otps[purpose];
      forall serial ensures serial != o.serial ==> Count(x.log.wrong, serial) == Count(s.log.wrong, serial) && Count(x.log.right, serial) == Count(s.log.right, serial) {
      }
    }
  }

  lemma {:induction false} RunKeeps(s: State, steps: seq<Step>)
    requires Inv(s)
    ensures Inv(Run(s, steps))
  {
    if steps != [] {
      var before, step := Run(s, steps[..|steps| - 1]), steps[|steps| - 1];
      RunKeeps(s, steps[..|steps| - 1]);
      match step
      case DoIssue(purpose, now, newCode) => IssueKeeps(before, purpose, now, newCode);
      case DoVerify(purpose, now, guess) => VerifyKeeps(before, purpose, now, guess);
      case Corrupt(purpose) =>
    }
  }

  /** Whatever is issued, resent and guessed: a code is compared with at most five wrong guesses and accepted at most once. */
  lemma GuessesAreBounded(steps: seq<Step>, serial: nat)
    ensures Count(Run(EMPTY, steps).log.wrong, serial) <= MAX_ATTEMPTS && Count(Run(EMPTY, steps).log.right, serial) <= 1
    ensures serial >= Run(EMPTY, steps).log.minted ==> Count(Run(EMPTY, steps).log.wrong, serial) == Count(Run(EMPTY, steps).log.right, serial) == 0
  {
    RunKeeps(EMPTY, steps);
  }

  /** At most twenty codes are minted in one limit window, resends included in the count. */
  lemma MintsAreBounded(steps: seq<Step>)
    ensures Run(EMPTY, steps).log.mintedInWindow <= DAILY_CAP
  {
    RunKeeps(EMPTY, steps);
  }

  function Total(m: map<nat, nat>, serials: nat): nat {
    if serials == 0 then 0 else Count(m, serials - 1) + Total(m, serials - 1)
  }

  lemma {:induction false} TotalIsBounded(m: map<nat, nat>, serials: nat, each: nat)
    requires forall serial :: Count(m, serial) <= each
    ensures Total(m, serials) <= each * serials
  {
    if serials > 0 {
      TotalIsBounded(m, serials - 1, each);
    }
  }

  /** All wrong guesses of a run together: five for each code minted. */
  lemma GuessBudget(steps: seq<Step>)
    ensures var log := Run(EMPTY, steps).log; Total(log.wrong, log.minted) <= MAX_ATTEMPTS * log.minted && Total(log.right, log.minted) <= log.minted
  {
    RunKeeps(EMPTY, steps);
    var log := Run(EMPTY, steps).log;
    TotalIsBounded(log.wrong, log.minted, MAX_ATTEMPTS);
    TotalIsBounded(log.right, log.minted, 1);
  }

  /** A resend within the code's life sends the same code, refreshes its time to live and keeps its wrong guesses. */
  lemma ResendKeepsTheCode(s: State, purpose: Purpose, now: Time, newCode: Guess)
    requires Reusable(s, purpose, now) && Refusal(s, now).None?
    ensures var (x, reply) := Issue(s, purpose, now, newCode);
            && reply == Sent(s.otps[purpose].code) && x.log.minted == s.log.minted
            && x.otps[purpose] == s.otps[purpose].(sentAt := now)
            && Verify(x, purpose, now, Some(s.otps[purpose].code)).1 == Valid
  {
  }

  /** If nothing else is sent, a request refused for its cooldown is served once the reported wait is over, or once the day is. */
  lemma CooldownIsExact(s: State, now: Time, later: Time)
    requires Refusal(s, now).Some? && Refusal(s, now).value.Cooldown? && s.limit.value.lastSent <= now <= later
    ensures Refusal(s, later).None? <==> later >= now + Refusal(s, now).value.retryAfter || Lapsed(s.limit.value, later)
  {
  }

  /** The reported cooldown is the shortest wait if and only if it ends before the day does. */
  lemma CooldownIsShortest(s: State, now: Time)
    requires Refusal(s, now).Some? && Refusal(s, now).value.Cooldown? && s.limit.value.lastSent <= now
    ensures var r := Refusal(s, now).value.retryAfter;
            (forall t: Time :: now <= t < now + r ==> Refusal(s, t).Some?) <==> now + r <= s.limit.value.firstSent + DAY + 1
  {
    var l, r := s.limit.value, Refusal(s, now).value.retryAfter;
    if now + r > l.firstSent + DAY + 1 {
      var t := l.firstSent + DAY + 1;
      assert now <= t < now + r && Refusal(s, t).None?;
    }
  }

  /**
   * The wait of a daily refusal names the last refused moment: the strict comparison still refuses then, and serves from
   * the next moment on. So it is never long enough by itself, and never too short by more than one tick of the clock.
   */
  lemma DailyWaitEndsOneTickEarly(s: State, now: Time, later: Time)
    requires Refusal(s, now).Some? && Refusal(s, now).value.DailyLimit? && now <= later
    ensures var r := Refusal(s, now).value.retryAfter;
            && Refusal(s, now + r) == Some(DailyLimit(0))
            && (Refusal(s, later).None? <==> later > now + r)
  {
  }

  // ---------------------------------------------------------------- exactly what happens

  /** A request is refused within a day of the first send for twenty sends, or within a minute of the last one. */
  lemma RefusalIsExact(s: State, now: Time)
    ensures Refusal(s, now).Some? <==>
              && s.limit.Some? && s.limit.value.firstSent >= now - 86_400
              && (s.limit.value.total >= 20 || now - s.limit.value.lastSent < 60)
    ensures Refusal(s, now).Some? && s.limit.value.total >= 20 ==>
              Refusal(s, now) == Some(DailyLimit(s.limit.value.firstSent + 86_400 - now))
    ensures Refusal(s, now).Some? && s.limit.value.total < 20 && now >= s.limit.value.lastSent ==>
              Refusal(s, now) == Some(Cooldown(60 - (now - s.limit.value.lastSent)))
  {
  }

  /** A served request counts as a send; it repeats a readable code younger than 300 s with attempts left, and mints a new one otherwise. */
  lemma IssueIsExact(s: State, purpose: Purpose, now: Time, newCode: Guess)
    ensures var (x, reply) := Issue(s, purpose, now, newCode);
            && (Refusal(s, now).Some? ==> x == s && Some(reply) == Refusal(s, now))
            && (Refusal(s, now).None? ==>
                  var again := && purpose in s.otps && now - s.otps[purpose].generatedAt < 300 && s.otps[purpose].attempts < 5 && s.otps[purpose].readable;
                  && reply == Sent(if again then s.otps[purpose].code else newCode)
                  && x.otps == s.otps[purpose := if again then s.otps[purpose].(sentAt := now) else Otp(newCode, s.log.minted, now, now, 0, true)]
                  && x.limit == Some(if s.limit.Some? && s.limit.value.firstSent >= now - 86_400
                                     then Limit(s.limit.value.firstSent, now, s.limit.value.total + 1) else Limit(now, now, 1))
                  && x.log.minted == s.log.minted + (if again then 0 else 1)
                  && x.log.mintedInWindow == (if s.limit.Some? && s.limit.value.firstSent >= now - 86_400 then s.log.mintedInWindow else 0) + (if again then 0 else 1)
                  && x.log.wrong == s.log.wrong && x.log.right == s.log.right)
  {
  }

  /** The stored code is accepted within 300 s of its last send unless five guesses were wrong; a wrong guess counts, and nothing else changes. */
  lemma VerifyIsExact(s: State, purpose: Purpose, now: Time, guess: Option<Guess>)
    ensures var (x, reply) := Verify(s, purpose, now, guess);
            var live := purpose in s.otps && now - s.otps[purpose].sentAt < 300 && s.otps[purpose].attempts < 5;
            && x.limit == s.limit
            && (!live ==> x == s && reply == Invalid(true))
            && (live && s.otps[purpose].readable && guess == Some(s.otps[purpose].code) ==> reply == Valid && x.otps == s.otps - {purpose})
            && (reply == Valid ==> Count(x.log.right, s.otps[purpose].serial) == Count(s.log.right, s.otps[purpose].serial) + 1 && x.log.wrong == s.log.wrong)
            && (live && reply != Valid ==> Count(x.log.wrong, s.otps[purpose].serial) == Count(s.log.wrong, s.otps[purpose].serial) + 1 && x.log.right == s.log.right)
            && (live && !(s.otps[purpose].readable && guess == Some(s.otps[purpose].code)) ==>
                  && reply == Invalid(s.otps[purpose].attempts == 4)
                  && x.otps == s.otps[purpose := s.otps[purpose].(attempts := s.otps[purpose].attempts + 1)])
  {
  }

  /** A change of the sealing key makes one stored code unreadable, and that alone. */
  lemma CorruptionIsExact(s: State, purpose: Purpose)
    ensures var x := Do(s, Corrupt(purpose));
            && x.otps.Keys == s.otps.Keys && x == s.(otps := x.otps)
            && (forall p :: p in s.otps && p != purpose ==> x.otps[p] == s.otps[p])
            && (purpose in s.otps ==> x.otps[purpose] == s.otps[purpose].(readable := false))
  {
  }

  // ---------------------------------------------------------------- the store

  class Codes {
    var otps: map<Purpose, Otp>
    var limit: Option<Limit>
    ghost var log: History

    ghost function S(): State
      reads this
    {
      State(otps, limit, log)
    }

    constructor ()
      ensures S() == EMPTY
    {
      otps, limit, log := map[], None, History(0, 0, map[], map[]);
    }

    /** `serial` names the code that would be minted. */
    method IssueCode(purpose: Purpose, now: Time, newCode: Guess, serial: nat) returns (r: Issued)
      requires serial == log.minted
      modifies this
      ensures (S(), r) == Issue(old(S()), purpose, now, newCode)
    {
      ghost var newWindow := limit.None? || Lapsed(limit.value, now);
      ghost var inWindow := if newWindow then 0 else log.mintedInWindow;
      if limit.Some? && limit.value.firstSent >= now - DAY {
        var l := limit.value;
        if l.total >= DAILY_CAP {
          return DailyLimit(Max(0, l.firstSent + DAY - now));
        }
        var sinceLast := Max(0, now - l.lastSent);
        if sinceLast < COOLDOWN {
          return Cooldown(COOLDOWN - sinceLast);
        }
      }
      if purpose in otps && otps[purpose].generatedAt > now - OTP_TTL && otps[purpose].attempts < MAX_ATTEMPTS && otps[purpose].readable {
        otps := otps[purpose := otps[purpose].(sentAt := now)];
        log := log.(mintedInWindow := inWindow);
      } else {
        otps := otps[purpose := Otp(newCode, serial, now, now, 0, true)];
        log := log.(minted := log.minted + 1, mintedInWindow := inWindow + 1);
      }
      limit := Some(if limit.None? || limit.value.firstSent < now - DAY then Limit(now, now, 1)
                    else Limit(limit.value.firstSent, now, limit.value.total + 1));
      r := Sent(otps[purpose].code);
    }

    method VerifyCode(purpose: Purpose, now: Time, guess: Option<Guess>) returns (r: Verified)
      modifies this`otps, this`log
      ensures (S(), r) == Verify(old(S()), purpose, now, guess)
    {
      if purpose !in otps || otps[purpose].sentAt <= now - OTP_TTL {
        return Invalid(true);
      }
      var o := otps[purpose];
      if o.attempts >= MAX_ATTEMPTS {
        return Invalid(true);
      }
      if o.readable && guess == Some(o.code) {
        otps := otps - {purpose};
        log := log.(right := log.right[o.serial := Count(log.right, o.serial) + 1]);
        return Valid;
      }
      otps := otps[purpose := o.(attempts := o.attempts + 1)];
      log := log.(wrong := log.wrong[o.serial := Count(log.wrong, o.serial) + 1]);
      r := Invalid(o.attempts + 1 >= MAX_ATTEMPTS);
    }
  }
}
