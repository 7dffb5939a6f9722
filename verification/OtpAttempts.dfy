/** One-time codes of a phone: how often a stored code can be guessed at. Calls
    for a phone are serialised; the store may expire a code or a lock at any time. */
module OtpAttempts {
  import opened Options
  import opened AuthRoles

  const MAX_OTP_ATTEMPTS: int := 3

  /** The hash the store keeps; a late increment can leave one without a code. */
  datatype Stored = Stored(code: Option<string>, attempts: nat)

  /** The phone's keys (`requests` is the rate window's counter), and counts of
      codes stored, compared and accepted. */
  datatype Phone = Phone(otp: Option<Stored>, locked: bool, requests: nat, stored: nat, compared: nat, accepted: nat)

  const FRESH: Phone := Phone(None, false, 0, 0, 0, 0)

  datatype Answer = Sent(registered: bool) | Accepted | NotInvited | OtpLocked | RateLimited | OtpExpired | OtpInvalid

  datatype Reply = Reply(after: Phone, answer: Answer)

  /** What the user table and the active staff rows say of a phone: None when
      unknown, else the roles. */
  type Known = Option<seq<Role>>

  /** Staff and admin apps are closed: the user must exist with a role for the app. */
  predicate Invited(app: App, user: Known) {
    app.ParentApp? || (user.Some? && exists r :: r in user.value && Allowed(app, r))
  }

  /** `requestOtp`: the closed apps' check, then the lock, then the rate limit,
      which counts each request that gets that far. */
  function RequestCall(limit: int, p: Phone, app: App, user: Known, code: string): Reply {
    if !Invited(app, user) then Reply(p, NotInvited)
    else if p.locked then Reply(p, OtpLocked)
    else
      var q := p.(requests := p.requests + 1);
      if q.requests > limit then Reply(q, RateLimited)
      else
        var otp := Stored(if code == "" then None else Some(code), 0);
        Reply(q.(otp := Some(otp), stored := p.stored + 1), Sent(user.Some?))
  }

  predicate HasCode(p: Phone) { p.otp.Some? && p.otp.value.code.Some? }

  /** `consumeOtp`; `expires` is whether the code's time runs out between being
      read and its attempts being counted. */
  function ConsumeCall(p: Phone, submitted: string, expires: bool): Reply {
    if p.locked then Reply(p, OtpLocked)
    else if !HasCode(p) then Reply(p, OtpExpired)
    else
      var o := p.otp.value;
      var q := p.(compared := p.compared + 1);
      if o.code.value == submitted then Reply(q.(otp := None, accepted := p.accepted + 1), Accepted)
      else
        var counted := if expires then Stored(None, 1) else o.(attempts := o.attempts + 1);
        if counted.attempts >= MAX_OTP_ATTEMPTS then Reply(q.(otp := None, locked := true), OtpLocked)
        else Reply(q.(otp := Some(counted)), OtpInvalid)
  }

  datatype Event =
    | Request(app: App, user: Known, code: string)
    | Consume(submitted: string, expires: bool)
    | CodeExpires
    | LockExpires
    | WindowExpires

  function Step(limit: int, p: Phone, e: Event): Phone {
    match e
    case Request(app, user, code) => RequestCall(limit, p, app, user, code).after
    case Consume(submitted, expires) => ConsumeCall(p, submitted, expires).after
    case CodeExpires => p.(otp := None)
    case LockExpires => p.(locked := false)
    case WindowExpires => p.(requests := 0)
  }

  function RunFrom(limit: int, p: Phone, events: seq<Event>): Phone {
    if events == [] then p else Step(limit, RunFrom(limit, p, events[..|events| - 1]), events[|events| - 1])
  }

  /** Guesses the current code still allows. */
  function GuessesLeft(p: Phone): int {
    if HasCode(p) then MAX_OTP_ATTEMPTS - p.otp.value.attempts else 0
  }

  /** Comparisons made and still possible never exceed three a code; acceptances
      and the code at hand never exceed the codes. */
  predicate Sound(p: Phone) {
    && (p.otp.Some? ==> p.otp.value.attempts < MAX_OTP_ATTEMPTS)
    && p.compared + GuessesLeft(p) <= MAX_OTP_ATTEMPTS * p.stored
    && p.accepted + (if HasCode(p) then 1 else 0) <= p.stored
  }

  lemma StepKeepsSound(limit: int, p: Phone, e: Event)
    requires Sound(p)
    ensures Sound(Step(limit, p, e))
  {
    hide Invited;
  }

  lemma {:induction false} RunsAreSound(limit: int, p: Phone, events: seq<Event>)
    requires Sound(p)
    ensures Sound(RunFrom(limit, p, events))
  {
    hide Step, Sound;
    if events != [] {
      RunsAreSound(limit, p, events[..|events| - 1]);
      StepKeepsSound(limit, RunFrom(limit, p, events[..|events| - 1]), events[|events| - 1]);
    }
  }

  /** Over any run from an empty store: at most three comparisons and one
      acceptance per code stored. */
  lemma GuessesAreBounded(limit: int, events: seq<Event>)
    ensures var p := RunFrom(limit, FRESH, events);
      p.compared <= MAX_OTP_ATTEMPTS * p.stored && p.accepted <= p.stored
  {
    RunsAreSound(limit, FRESH, events);
  }

  predicate MayAccept(p: Phone, q: Phone) {
    q.accepted + (if HasCode(q) then 1 else 0) <= p.accepted + (if HasCode(p) then 1 else 0)
  }

  lemma StepSpendsTheCode(limit: int, p: Phone, e: Event)
    requires Sound(p)
    ensures Step(limit, p, e).stored >= p.stored
    ensures var q := Step(limit, p, e);
      q.stored == p.stored ==> MayAccept(p, q) && q.compared + GuessesLeft(q) <= p.compared + GuessesLeft(p)
  {
    hide Invited;
  }

  /** Code by code: until another code is stored, whatever else happens, the
      acceptances made and possible and the comparisons made and possible never
      grow. */
  lemma {:induction false} EachCodeIsSpent(limit: int, p: Phone, events: seq<Event>)
    requires Sound(p)
    ensures RunFrom(limit, p, events).stored >= p.stored
    ensures var q := RunFrom(limit, p, events);
      q.stored == p.stored ==> MayAccept(p, q) && q.compared + GuessesLeft(q) <= p.compared + GuessesLeft(p)
  {
    hide Step, Sound, GuessesLeft;
    if events != [] {
      var before := RunFrom(limit, p, events[..|events| - 1]);
      EachCodeIsSpent(limit, p, events[..|events| - 1]);
      RunsAreSound(limit, p, events[..|events| - 1]);
      StepSpendsTheCode(limit, before, events[|events| - 1]);
    }
  }

  /** Each stored code is compared at most three times and accepted at most once,
      and once accepted it is gone. */
  lemma EachCodeIsAcceptedOnce(limit: int, p: Phone, app: App, user: Known, code: string, events: seq<Event>)
    requires Sound(p) && RequestCall(limit, p, app, user, code).answer.Sent?
    requires RunFrom(limit, RequestCall(limit, p, app, user, code).after, events).stored == p.stored + 1
    ensures var q := RunFrom(limit, RequestCall(limit, p, app, user, code).after, events);
      && q.compared <= p.compared + MAX_OTP_ATTEMPTS
      && q.accepted <= p.accepted + 1
      && (q.accepted == p.accepted + 1 ==> !HasCode(q))
  {
    hide RunFrom;
    var stored := RequestCall(limit, p, app, user, code).after;
    StepKeepsSound(limit, p, Request(app, user, code));
    EachCodeIsSpent(limit, stored, events);
    RunsAreSound(limit, stored, events);
  }

  function Remaining(limit: int, p: Phone): int { if limit > p.requests then limit - p.requests else 0 }

  /** Within a rate window at most the remaining requests store a code. */
  lemma {:induction false} StoresAreRateLimited(limit: int, p: Phone, events: seq<Event>)
    requires WindowExpires !in events
    ensures var q := RunFrom(limit, p, events);
      q.stored + Remaining(limit, q) <= p.stored + Remaining(limit, p)
  {
    if events != [] {
      hide Invited;
      assert forall e :: e in events[..|events| - 1] ==> e in events;
      StoresAreRateLimited(limit, p, events[..|events| - 1]);
      assert events[|events| - 1] in events;
    }
  }

  function Guesses(submitted: seq<string>): seq<Event> {
    seq(|submitted|, i requires 0 <= i < |submitted| => Consume(submitted[i], false))
  }

  /** Wrong guesses at a fresh code lock the phone exactly at the third, which
      also removes the code; before it they only count. */
  lemma {:induction false} ThirdWrongGuessLocks(limit: int, p: Phone, submitted: seq<string>)
    requires HasCode(p) && p.otp.value.attempts == 0 && !p.locked && |submitted| <= MAX_OTP_ATTEMPTS
    requires p.otp.value.code.value !in submitted
    ensures var q := RunFrom(limit, p, Guesses(submitted));
      && q.compared == p.compared + |submitted| && q.accepted == p.accepted
      && (q.locked <==> |submitted| == MAX_OTP_ATTEMPTS)
      && q.otp == if q.locked then None else Some(p.otp.value.(attempts := |submitted|))
  {
    if submitted != [] {
      var n := |submitted| - 1;
      ThirdWrongGuessLocks(limit, p, submitted[..n]);
      assert Guesses(submitted)[..n] == Guesses(submitted[..n]);
      assert submitted[n] in submitted;
    }
  }

  /** Until the lock expires nothing is stored, compared or accepted. */
  lemma {:induction false} LockedMeansNothingHappens(limit: int, p: Phone, events: seq<Event>)
    requires p.locked && LockExpires !in events
    ensures var q := RunFrom(limit, p, events);
      q.locked && q.stored == p.stored && q.compared == p.compared && q.accepted == p.accepted
  {
    if events != [] {
      assert forall e :: e in events[..|events| - 1] ==> e in events;
      LockedMeansNothingHappens(limit, p, events[..|events| - 1]);
      assert events[|events| - 1] in events;
    }
  }

  // ── What each answer means ──────────────────────────────────────────────

  /** A code is at hand and it is this one. */
  predicate Guessed(p: Phone, submitted: string) {
    p.otp.Some? && p.otp.value.code == Some(submitted)
  }

  /** A submission is accepted exactly when the phone is not locked and the stored
      code is the one submitted; then the code is gone, and counted once. */
  lemma AcceptedExactlyWhen(p: Phone, submitted: string, expires: bool)
    ensures var r := ConsumeCall(p, submitted, expires);
      r.answer == Accepted <==> !p.locked && Guessed(p, submitted)
    ensures var r := ConsumeCall(p, submitted, expires);
      r.answer == Accepted ==>
        r.after == p.(otp := None, compared := p.compared + 1, accepted := p.accepted + 1)
  {
  }

  /** Otherwise: locked, without a code, wrong for the third time, or wrong. */
  lemma RejectedExactlyWhen(p: Phone, submitted: string, expires: bool)
    requires Sound(p) && (p.locked || !Guessed(p, submitted))
    ensures var r := ConsumeCall(p, submitted, expires);
      var empty := p.otp.None? || p.otp.value.code.None?;
      var third := !expires && p.otp.Some? && p.otp.value.attempts == 2;
      && (r.answer == OtpExpired <==> !p.locked && empty)
      && (r.answer == OtpLocked <==> p.locked || (!empty && third))
      && (r.answer == OtpInvalid <==> !p.locked && !empty && !third)
      && (p.locked || empty ==> r.after == p)
      && (!p.locked && !empty && third ==> r.after == p.(otp := None, locked := true, compared := p.compared + 1))
      && (r.answer == OtpInvalid ==>
            var left := if expires then Stored(None, 1) else p.otp.value.(attempts := p.otp.value.attempts + 1);
            r.after == p.(otp := Some(left), compared := p.compared + 1))
  {
  }

  /** A code is sent exactly to a phone that is not locked, on the parent app or
      with a role for the app, while requests last; it replaces any other and
      starts without attempts. */
  lemma SentExactlyWhen(limit: int, p: Phone, app: App, user: Known, code: string)
    ensures var r := RequestCall(limit, p, app, user, code);
      var mayUse := app == ParentApp || (user.Some? && exists role :: role in user.value && Allowed(app, role));
      && (r.answer == NotInvited <==> !mayUse)
      && (r.answer == OtpLocked <==> mayUse && p.locked)
      && (r.answer == RateLimited <==> mayUse && !p.locked && p.requests + 1 > limit)
      && (r.answer == Sent(user.Some?) <==> mayUse && !p.locked && p.requests + 1 <= limit)
    ensures var r := RequestCall(limit, p, app, user, code);
      && (r.answer.Sent? ==> r.after == p.(requests := p.requests + 1, stored := p.stored + 1,
                                           otp := Some(Stored(if code == "" then None else Some(code), 0))))
      && (r.answer == RateLimited ==> r.after == p.(requests := p.requests + 1))
      && (r.answer in {NotInvited, OtpLocked} ==> r.after == p)
  {
  }

  /** What runs out takes nothing else with it. */
  lemma ExpiryOutcome(limit: int, p: Phone)
    ensures Step(limit, p, CodeExpires) == p.(otp := None)
    ensures Step(limit, p, LockExpires) == p.(locked := false)
    ensures Step(limit, p, WindowExpires) == p.(requests := 0)
  {
  }

  /** A phone that got a code is let in by it, after up to two wrong guesses. */
  lemma SentCodeIsAccepted(limit: int, p: Phone, app: App, user: Known, code: string, wrong: seq<string>)
    requires RequestCall(limit, p, app, user, code).answer.Sent? && code != ""
    requires |wrong| <= 2 && code !in wrong
    ensures var q := RunFrom(limit, RequestCall(limit, p, app, user, code).after, Guesses(wrong));
      ConsumeCall(q, code, false).answer == Accepted && ConsumeCall(q, code, true).answer == Accepted
  {
    hide RunFrom, Guesses;
    SentExactlyWhen(limit, p, app, user, code);
    ThirdWrongGuessLocks(limit, RequestCall(limit, p, app, user, code).after, wrong);
  }

  /** The store and the service methods over it, for one phone. */
  class OtpService {
    const limit: int
    var otp: Option<Stored>
    var locked: bool
    var requests: nat
    ghost var stored: nat
    ghost var compared: nat
    ghost var accepted: nat

    ghost function Contents(): Phone
      reads this
    {
      Phone(otp, locked, requests, stored, compared, accepted)
    }

    constructor (limit: int)
      ensures Contents() == FRESH && this.limit == limit
    {
      this.limit := limit;
      otp, locked, requests, stored, compared, accepted := None, false, 0, 0, 0, 0;
    }

    method RequestOtp(app: App, user: Known, code: string) returns (a: Answer)
      modifies this
      ensures Reply(Contents(), a) == RequestCall(limit, old(Contents()), app, user, code)
    {
      var registered := user.Some?;
      if app.StaffApp? || app.AdminApp? {
        if user.None? { return NotInvited; }
        if !exists r :: r in user.value && Allowed(app, r) { return NotInvited; }
      }
      if locked { return OtpLocked; }
      requests := requests + 1;
      if requests > limit { return RateLimited; }
      otp := Some(Stored(if code == "" then None else Some(code), 0));
      stored := stored + 1;
      a := Sent(registered);
    }

    method ConsumeOtp(submitted: string, expires: bool) returns (a: Answer)
      modifies this
      ensures Reply(Contents(), a) == ConsumeCall(old(Contents()), submitted, expires)
    {
      if locked { return OtpLocked; }
      if otp.None? || otp.value.code.None? { return OtpExpired; }
      compared := compared + 1;
      if otp.value.code.value == submitted {
        otp := None;
        accepted := accepted + 1;
        return Accepted;
      }
      var attempts := IncrementAttempts(expires);
      if attempts >= MAX_OTP_ATTEMPTS {
        locked := true;
        otp := None;
        return OtpLocked;
      }
      a := OtpInvalid;
    }

    /** Counts on the hash, which is created anew when it has just expired. */
    method IncrementAttempts(expires: bool) returns (attempts: nat)
      requires otp.Some?
      modifies this`otp
      ensures otp == Some(if expires then Stored(None, 1) else old(otp).value.(attempts := old(otp).value.attempts + 1))
      ensures attempts == otp.value.attempts
    {
      if expires { otp := Some(Stored(None, 0)); }
      otp := Some(otp.value.(attempts := otp.value.attempts + 1));
      attempts := otp.value.attempts;
    }
  }
}
