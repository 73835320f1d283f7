/** Login lockout: the failure counter and lock deadline of one user row. Times are nanoseconds. */
module Lockout {

  import opened Wrappers

  const SECOND := 1_000_000_000
  const MAX_LOGIN_FAILURES := 5
  const MIN_LOCK := 15 * 60 * SECOND

  datatype Account = Account(failures: int, lockedUntil: Option<int>)

  const FRESH := Account(0, None)

  datatype Policy = Policy(maxFailures: int, lock: int)

  /** The login part of the policy check, made on the lock cut to whole seconds. */
  predicate Accepted(p: Policy) {
    1 <= p.maxFailures <= MAX_LOGIN_FAILURES && p.lock >= 0 && p.lock / SECOND * SECOND >= MIN_LOCK
  }

  predicate Locked(a: Account, now: int) {
    a.lockedUntil.Some? && now < a.lockedUntil.value
  }

  function AfterFailure(a: Account, max: int, lock: int, now: int): Account {
    var limit := if max <= 0 then 1 else max;
    if a.failures + 1 >= limit then Account(0, Some(now + lock)) else Account(a.failures + 1, None)
  }

  datatype SecondFactor = Passed | Invalid | Unavailable

  /** One login: the lock is read at `checkAt`, the result is recorded at `recordAt`. */
  datatype Attempt = Attempt(
    policy: Policy, orgActive: bool, userActive: bool, checkAt: int, recordAt: int, passwordOk: bool, mfa: SecondFactor)

  datatype Outcome = Disabled | BadPolicy | LockedOut(until: int) | WrongPassword | WrongFactor | FactorError | Authenticated

  function Answer(a: Account, t: Attempt): Outcome {
    if !t.orgActive then Disabled
    else if !Accepted(t.policy) then BadPolicy
    else if !t.userActive then Disabled
    else if Locked(a, t.checkAt) then LockedOut(a.lockedUntil.value)
    else if !t.passwordOk then WrongPassword
    else match t.mfa case Passed => Authenticated case Invalid => WrongFactor case Unavailable => FactorError
  }

  predicate Counted(a: Account, t: Attempt) {
    Answer(a, t).WrongPassword? || Answer(a, t).WrongFactor?
  }

  /** `Clear` is an administrator's unlock or a password reset. */
  datatype Event = Login(attempt: Attempt) | Clear

  function Step(a: Account, e: Event): Account {
    match e
    case Clear => FRESH
    case Login(t) =>
      if Counted(a, t) then AfterFailure(a, t.policy.maxFailures, t.policy.lock, t.recordAt)
      else if Answer(a, t).Authenticated? then FRESH
      else a
  }

  function After(a: Account, events: seq<Event>): Account
    decreases |events|
  {
    if events == [] then a else After(Step(a, events[0]), events[1..])
  }

  function Failures(a: Account, events: seq<Event>): nat
    decreases |events|
  {
    if events == [] then 0
    else (if events[0].Login? && Counted(a, events[0].attempt) then 1 else 0) + Failures(Step(a, events[0]), events[1..])
  }

  /** No event wipes the counter. */
  predicate NothingCleared(a: Account, events: seq<Event>)
    decreases |events|
  {
    events == [] ||
    (events[0].Login? && !Answer(a, events[0].attempt).Authenticated? && NothingCleared(Step(a, events[0]), events[1..]))
  }

  class UserRow {
    var failures: int
    var lockedUntil: Option<int>

    function State(): Account reads this { Account(failures, lockedUntil) }

    constructor ()
      ensures State() == FRESH
    {
      failures, lockedUntil := 0, None;
    }

    method RecordLoginFailure(maxFailures: int, lock: int, now: int)
      modifies this
      ensures State() == AfterFailure(old(State()), maxFailures, lock, now)
      ensures if old(failures) + 1 >= (if maxFailures <= 0 then 1 else maxFailures)
              then failures == 0 && lockedUntil == Some(now + lock)
              else failures == old(failures) + 1 && lockedUntil == None
    {
      var max := maxFailures;
      if max <= 0 { max := 1; }
      failures := failures + 1;
      lockedUntil := None;
      if failures >= max {
        lockedUntil := Some(now + lock);
        failures := 0;
      }
    }

    method ResetLoginFailure()
      modifies this
      ensures State() == FRESH
    {
      failures, lockedUntil := 0, None;
    }

    method LoginWithMFA(t: Attempt) returns (o: Outcome)
      modifies this
      ensures o == Answer(old(State()), t)
      ensures o ==
        if !t.orgActive then Disabled
        else if !(1 <= t.policy.maxFailures <= 5 && t.policy.lock / 1_000_000_000 >= 900) then BadPolicy
        else if !t.userActive then Disabled
        else if old(lockedUntil).Some? && t.checkAt < old(lockedUntil).value then LockedOut(old(lockedUntil).value)
        else if !t.passwordOk then WrongPassword
        else if t.mfa == Invalid then WrongFactor
        else if t.mfa == Unavailable then FactorError
        else Authenticated
      ensures
        if o == WrongPassword || o == WrongFactor then
          if old(failures) + 1 >= t.policy.maxFailures then failures == 0 && lockedUntil == Some(t.recordAt + t.policy.lock)
          else failures == old(failures) + 1 && lockedUntil == None
        else if o == Authenticated then failures == 0 && lockedUntil == None
        else failures == old(failures) && lockedUntil == old(lockedUntil)
      ensures State() == Step(old(State()), Login(t))
    {
      if !t.orgActive { return Disabled; }
      if !Accepted(t.policy) { return BadPolicy; }
      if !t.userActive { return Disabled; }
      if lockedUntil.Some? && t.checkAt < lockedUntil.value { return LockedOut(lockedUntil.value); }
      if !t.passwordOk {
        RecordLoginFailure(t.policy.maxFailures, t.policy.lock, t.recordAt);
        return WrongPassword;
      }
      if t.mfa != Passed {
        if t.mfa == Invalid {
          RecordLoginFailure(t.policy.maxFailures, t.policy.lock, t.recordAt);
          return WrongFactor;
        }
        return FactorError;
      }
      ResetLoginFailure();
      return Authenticated;
    }
  }

  predicate Sound(a: Account) {
    0 <= a.failures < MAX_LOGIN_FAILURES && (a.lockedUntil.Some? ==> a.failures == 0)
  }

  /** However policies change, the stored counter stays below five, and a locked row counts from zero. */
  lemma {:induction false} CounterStaysBelowFive(a: Account, events: seq<Event>)
    requires Sound(a)
    ensures Sound(After(a, events))
    decreases |events|
  {
    if events != [] { CounterStaysBelowFive(Step(a, events[0]), events[1..]); }
  }

  /** While the lock lasts every login is refused, right password or not, and nothing changes. */
  lemma {:induction false} LockHolds(a: Account, events: seq<Event>)
    requires forall e :: e in events ==> e.Login? && Locked(a, e.attempt.checkAt)
    ensures After(a, events) == a && Failures(a, events) == 0
    decreases |events|
  {
    if events != [] { LockHolds(a, events[1..]); }
  }

  /** Recorded inside the window [from, from + 15 min), by a clock that does not run backwards. */
  predicate InWindow(events: seq<Event>, from: int) {
    forall e :: e in events && e.Login? ==>
      e.attempt.checkAt <= e.attempt.recordAt && from <= e.attempt.recordAt < from + MIN_LOCK
  }

  lemma {:induction false} FailuresLeft(a: Account, events: seq<Event>, from: int)
    requires Sound(a) && InWindow(events, from) && NothingCleared(a, events)
    ensures Failures(a, events) <= MAX_LOGIN_FAILURES - a.failures
    decreases |events|
  {
    if events != [] {
      var e, rest := events[0], events[1..];
      var b := Step(a, e);
      if Counted(a, e.attempt) && b.lockedUntil.Some? {
        assert b.lockedUntil.value >= from + MIN_LOCK;
        assert forall r :: r in rest ==> r in events;
        LockedForTheRest(b, rest, from);
      } else {
        FailuresLeft(b, rest, from);
      }
    }
  }

  lemma {:induction false} LockedForTheRest(b: Account, rest: seq<Event>, from: int)
    requires b.lockedUntil.Some? && b.lockedUntil.value >= from + MIN_LOCK
    requires InWindow(rest, from) && NothingCleared(b, rest)
    ensures Failures(b, rest) == 0
    decreases |rest|
  {
    if rest != [] {
      assert Locked(b, rest[0].attempt.checkAt);
      LockedForTheRest(b, rest[1..], from);
    }
  }

  /** After any history, a window shorter than fifteen minutes in which nothing clears the counter
  holds at most five counted failures. */
  lemma FiveFailuresAWindow(history: seq<Event>, window: seq<Event>, from: int)
    requires var a := After(FRESH, history); NothingCleared(a, window)
    requires InWindow(window, from)
    ensures Failures(After(FRESH, history), window) <= 5
  {
    CounterStaysBelowFive(FRESH, history);
    FailuresLeft(After(FRESH, history), window, from);
  }

  /** With one policy, `maxFailures` wrong passwords on an unlocked fresh row lock it, and no fewer do. */
  lemma {:induction false} LocksAtTheLimit(p: Policy, a: Account, attempts: seq<Event>)
    requires Accepted(p) && a.lockedUntil.None? && 0 <= a.failures < p.maxFailures
    requires |attempts| <= p.maxFailures - a.failures
    requires forall e :: e in attempts ==> e.Login? && e.attempt.policy == p && e.attempt.orgActive && e.attempt.userActive && !e.attempt.passwordOk
    ensures Failures(a, attempts) == |attempts|
    ensures var b := After(a, attempts);
            if |attempts| < p.maxFailures - a.failures then b == Account(a.failures + |attempts|, None)
            else b == Account(0, Some(attempts[|attempts| - 1].attempt.recordAt + p.lock))
    decreases |attempts|
  {
    if attempts != [] {
      var b := Step(a, attempts[0]);
      if |attempts| == 1 {
        assert After(b, attempts[1..]) == b;
      } else {
        LocksAtTheLimit(p, b, attempts[1..]);
      }
    }
  }

  /** A failure recorded on a locked row, which module LoginRuns shows to happen when logins overlap, replaces
  the row, so the lock survives exactly under a one-failure policy. */
  lemma LateFailureUnlocks(a: Account, p: Policy, recordAt: int)
    requires Sound(a) && Locked(a, recordAt) && Accepted(p)
    ensures Locked(AfterFailure(a, p.maxFailures, p.lock, recordAt), recordAt) <==> p.maxFailures == 1
  {
  }
}
