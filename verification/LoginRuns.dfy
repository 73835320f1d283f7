/** Logins that overlap on one user row. A login reads the row, checks the lock and the password against what
it read, and records the result in a later statement, whatever has happened to the row meanwhile. */
module LoginRuns {
  import opened Wrappers
  import opened Lockout

  /** A login in flight: it has read the row, or it has also checked and will record its answer. */
  datatype Login = Reading(seen: Account) | Checked(seen: Account, attempt: Attempt)

  datatype World = World(row: Account, logins: map<nat, Login>, clock: int)

  const EMPTY := World(FRESH, map[], 0)

  /** `Wipe` is an administrator's unlock, a password reset or a federated login. */
  datatype Step =
    | Read(k: nat)
    | Check(k: nat, attempt: Attempt)
    | Record(k: nat, now: int)
    | Wipe
    | Drop(k: nat)

  predicate Enabled(w: World, s: Step) {
    match s
    case Read(k) => k !in w.logins
    case Check(k, t) => k in w.logins && w.logins[k].Reading? && w.clock <= t.checkAt
    case Record(k, now) => k in w.logins && w.logins[k].Checked? && w.clock <= now
    case Wipe => true
    case Drop(k) => true
  }

  /** Refused logins and those whose second factor is unavailable record nothing. */
  predicate Records(seen: Account, t: Attempt) {
    Counted(seen, t) || Answer(seen, t).Authenticated?
  }

  /** What a checked login writes at `now`. */
  function Recorded(row: Account, c: Login, now: int): Account
    requires c.Checked?
  {
    if Counted(c.seen, c.attempt) then AfterFailure(row, c.attempt.policy.maxFailures, c.attempt.policy.lock, now) else FRESH
  }

  function Apply(w: World, s: Step): World
    requires Enabled(w, s)
  {
    match s
    case Read(k) => w.(logins := w.logins[k := Reading(w.row)])
    case Check(k, t) =>
      var seen := w.logins[k].seen;
      w.(logins := if Records(seen, t) then w.logins[k := Checked(seen, t)] else w.logins - {k}, clock := t.checkAt)
    case Record(k, now) => World(Recorded(w.row, w.logins[k], now), w.logins - {k}, now)
    case Wipe => w.(row := FRESH)
    case Drop(k) => w.(logins := w.logins - {k})
  }

  predicate Runs(w: World, steps: seq<Step>)
    decreases |steps|
  {
    steps == [] || (Enabled(w, steps[0]) && Runs(Apply(w, steps[0]), steps[1..]))
  }

  function After(w: World, steps: seq<Step>): World
    requires Runs(w, steps)
    decreases |steps|
  {
    if steps == [] then w else After(Apply(w, steps[0]), steps[1..])
  }

  /** The row is sound, and every login that waits to record was let through by the row it read. */
  predicate Inv(w: World) {
    && Sound(w.row)
    && (forall k :: k in w.logins && w.logins[k].Checked? ==>
          Records(w.logins[k].seen, w.logins[k].attempt) && w.logins[k].attempt.checkAt <= w.clock)
  }

  lemma {:induction false} RunKeeps(w: World, steps: seq<Step>)
    requires Inv(w) && Runs(w, steps)
    ensures Inv(After(w, steps))
    decreases |steps|
  {
    if steps != [] { RunKeeps(Apply(w, steps[0]), steps[1..]); }
  }

  // ------------------------------------------------------------------ how many failures

  predicate RecordsFailure(w: World, s: Step)
    requires Enabled(w, s)
  {
    s.Record? && Counted(w.logins[s.k].seen, w.logins[s.k].attempt)
  }

  /** The failures a run records. */
  function Failures(w: World, steps: seq<Step>): nat
    requires Runs(w, steps)
    decreases |steps|
  {
    if steps == [] then 0
    else (if RecordsFailure(w, steps[0]) then 1 else 0) + Failures(Apply(w, steps[0]), steps[1..])
  }

  /** Those among them recorded while the row is locked. */
  function OnLocked(w: World, steps: seq<Step>): nat
    requires Runs(w, steps)
    decreases |steps|
  {
    if steps == [] then 0
    else
      (if RecordsFailure(w, steps[0]) && Locked(w.row, steps[0].now) then 1 else 0)
      + OnLocked(Apply(w, steps[0]), steps[1..])
  }

  /** Recorded inside [from, from + 15 min), and nothing but failures is recorded. */
  predicate InWindow(w: World, steps: seq<Step>, from: int)
    requires Runs(w, steps)
    decreases |steps|
  {
    steps == [] || (
      && !steps[0].Wipe?
      && (steps[0].Record? ==> RecordsFailure(w, steps[0]) && from <= steps[0].now < from + MIN_LOCK)
      && InWindow(Apply(w, steps[0]), steps[1..], from))
  }

  predicate LockedThrough(row: Account, from: int) {
    row.lockedUntil.Some? && row.lockedUntil.value >= from + MIN_LOCK
  }

  /** Every failure recorded on a locked row pays for four more, and for nothing else. */
  lemma {:induction false} FailuresLeft(w: World, steps: seq<Step>, from: int)
    requires Inv(w) && Runs(w, steps) && InWindow(w, steps, from)
    ensures Failures(w, steps) <= 5 * (1 + OnLocked(w, steps)) - w.row.failures
    ensures LockedThrough(w.row, from) ==> Failures(w, steps) <= 5 * OnLocked(w, steps)
    decreases |steps|
  {
    if steps != [] {
      FailuresLeft(Apply(w, steps[0]), steps[1..], from);
    }
  }

  /** After any history of overlapping logins, a window shorter than fifteen minutes without success, unlock or
  reset holds at most 5 * (1 + L) minus the stored count failures, L being those recorded on a locked row;
  so at most five when there is none. */
  lemma OverlappingBound(history: seq<Step>, window: seq<Step>, from: int)
    requires Runs(EMPTY, history)
    requires var w := After(EMPTY, history); Runs(w, window) && InWindow(w, window, from)
    ensures var w := After(EMPTY, history);
            && Failures(w, window) <= 5 * (1 + OnLocked(w, window)) - w.row.failures
            && (OnLocked(w, window) == 0 ==> Failures(w, window) <= 5)
  {
    RunKeeps(EMPTY, history);
    FailuresLeft(After(EMPTY, history), window, from);
  }

  // ------------------------------------------------------------------ when none is recorded on a locked row

  /** A failure meets a locked row only if the row is no longer what the login read. */
  lemma LockedMeansChanged(w: World, s: Step)
    requires Inv(w) && Enabled(w, s) && RecordsFailure(w, s) && Locked(w.row, s.now)
    ensures w.row != w.logins[s.k].seen
  {
  }

  /** Every login records into the row it read. */
  predicate Undisturbed(w: World, steps: seq<Step>)
    requires Runs(w, steps)
    decreases |steps|
  {
    steps == [] || (
      && (steps[0].Record? ==> w.row == w.logins[steps[0].k].seen)
      && Undisturbed(Apply(w, steps[0]), steps[1..]))
  }

  lemma {:induction false} UndisturbedMeetNoLock(w: World, steps: seq<Step>)
    requires Inv(w) && Runs(w, steps) && Undisturbed(w, steps)
    ensures OnLocked(w, steps) == 0
    decreases |steps|
  {
    if steps != [] {
      if RecordsFailure(w, steps[0]) && Locked(w.row, steps[0].now) { LockedMeansChanged(w, steps[0]); }
      UndisturbedMeetNoLock(Apply(w, steps[0]), steps[1..]);
    }
  }

  /** However logins overlap, if each finds the row as it read it the window holds at most five failures. */
  lemma UndisturbedBound(history: seq<Step>, window: seq<Step>, from: int)
    requires Runs(EMPTY, history)
    requires var w := After(EMPTY, history); Runs(w, window) && InWindow(w, window, from) && Undisturbed(w, window)
    ensures Failures(After(EMPTY, history), window) <= 5
  {
    RunKeeps(EMPTY, history);
    UndisturbedMeetNoLock(After(EMPTY, history), window);
    OverlappingBound(history, window, from);
  }

  /** A login that nothing interrupts is such a run, and does what LoginWithMFA promises. */
  lemma LoginIsARun(w: World, k: nat, t: Attempt) returns (steps: seq<Step>)
    requires k !in w.logins && w.clock <= t.checkAt <= t.recordAt
    ensures Runs(w, steps) && Undisturbed(w, steps) && After(w, steps).row == Lockout.Step(w.row, Login(t))
    ensures After(w, steps).logins == w.logins
  {
    var read, check, record := Read(k), Check(k, t), Record(k, t.recordAt);
    var a := Apply(w, read);
    var b := Apply(a, check);
    var rest: seq<Step> := [];
    if Records(w.row, t) {
      Cons(b, record, []);
      rest := [record] + [];
    }
    Cons(a, check, rest);
    Cons(w, read, [check] + rest);
    steps := [read] + ([check] + rest);
    assert After(w, steps).logins == w.logins;
  }

  lemma Cons(w: World, s: Step, rest: seq<Step>)
    requires Enabled(w, s) && Runs(Apply(w, s), rest)
    ensures Runs(w, [s] + rest) && After(w, [s] + rest) == After(Apply(w, s), rest)
    ensures Undisturbed(Apply(w, s), rest) && (s.Record? ==> w.row == w.logins[s.k].seen) ==> Undisturbed(w, [s] + rest)
  {
    assert ([s] + rest)[1..] == rest;
  }

  // ------------------------------------------------------------------ logins that all read before any records

  const FIVE := Policy(5, MIN_LOCK)
  const WRONG := Attempt(FIVE, true, true, 0, 0, false, Passed)

  function Waiting(k: nat): Login { Checked(FRESH, WRONG) }

  function Pending(i: nat, n: nat): map<nat, Login> {
    map k: nat | i <= k < n :: Waiting(k)
  }

  lemma {:induction false} RunsOn(w: World, a: seq<Step>, b: seq<Step>)
    requires Runs(w, a) && Runs(After(w, a), b)
    ensures Runs(w, a + b) && After(w, a + b) == After(After(w, a), b)
    decreases |a|
  {
    if a == [] {
      assert a + b == b;
    } else {
      RunsOn(Apply(w, a[0]), a[1..], b);
      assert (a + b)[1..] == a[1..] + b;
    }
  }

  /** `n` logins read the fresh row and get the password wrong. */
  lemma {:induction false} AllChecked(n: nat) returns (steps: seq<Step>)
    ensures Runs(EMPTY, steps) && After(EMPTY, steps) == World(FRESH, Pending(0, n), 0)
  {
    if n == 0 {
      steps := [];
      assert Pending(0, 0) == map[];
    } else {
      var before := AllChecked(n - 1);
      var w := World(FRESH, Pending(0, n - 1), 0);
      var more := [Read(n - 1)] + ([Check(n - 1, WRONG)] + []);
      Cons(Apply(w, Read(n - 1)), Check(n - 1, WRONG), []);
      Cons(w, Read(n - 1), [Check(n - 1, WRONG)] + []);
      assert w.logins[n - 1 := Reading(FRESH)][n - 1 := Checked(FRESH, WRONG)] == Pending(0, n);
      RunsOn(EMPTY, before, more);
      steps := before + more;
    }
  }

  /** The row after `i` of their failures. */
  function RowAfter(i: nat): Account {
    if i == 0 then FRESH else if i % 5 == 0 then Account(0, Some(MIN_LOCK)) else Account(i % 5, None)
  }

  function RecordAll(i: nat, n: nat): seq<Step>
    decreases n - i
  {
    if i >= n then [] else [Record(i, 0)] + RecordAll(i + 1, n)
  }

  lemma RowAfterOneMore(i: nat)
    ensures AfterFailure(RowAfter(i), 5, MIN_LOCK, 0) == RowAfter(i + 1)
    ensures Locked(RowAfter(i), 0) <==> i > 0 && i % 5 == 0
  {
  }

  lemma OneRecorded(i: nat, n: nat)
    requires i < n
    ensures var w := World(RowAfter(i), Pending(i, n), 0);
            && Enabled(w, Record(i, 0)) && RecordsFailure(w, Record(i, 0))
            && Apply(w, Record(i, 0)) == World(RowAfter(i + 1), Pending(i + 1, n), 0)
            && (Locked(w.row, 0) <==> i > 0 && i % 5 == 0)
  {
    RowAfterOneMore(i);
    assert Pending(i, n)[i] == Waiting(i);
    assert Pending(i, n) - {i} == Pending(i + 1, n);
  }

  /** Each of them is counted; every fifth locks the row and the next one meets the lock. */
  lemma {:induction false} AllCounted(i: nat, n: nat)
    requires 1 <= i <= n
    ensures var w := World(RowAfter(i), Pending(i, n), 0);
            && Runs(w, RecordAll(i, n)) && InWindow(w, RecordAll(i, n), 0)
            && Failures(w, RecordAll(i, n)) == n - i
            && OnLocked(w, RecordAll(i, n)) == (n - 1) / 5 - (i - 1) / 5
    decreases n - i
  {
    if i < n {
      OneRecorded(i, n);
      AllCounted(i + 1, n);
      assert RecordAll(i, n)[1..] == RecordAll(i + 1, n);
    }
  }

  /** Any number of logins that all read the fresh row before the first of them records are all counted, though
  the policy allows five. */
  lemma OverlappingLogins(n: nat) returns (history: seq<Step>)
    requires n >= 1
    ensures Runs(EMPTY, history)
    ensures var w := After(EMPTY, history);
            && Runs(w, RecordAll(0, n)) && InWindow(w, RecordAll(0, n), 0)
            && Failures(w, RecordAll(0, n)) == n && OnLocked(w, RecordAll(0, n)) == (n - 1) / 5
  {
    history := AllChecked(n);
    OneRecorded(0, n);
    AllCounted(1, n);
    assert RecordAll(0, n)[1..] == RecordAll(1, n);
  }

  /** Six failures within one instant, where logins one after another leave five. */
  lemma SixFailures() returns (history: seq<Step>, window: seq<Step>)
    ensures Runs(EMPTY, history)
    ensures var w := After(EMPTY, history); Runs(w, window) && InWindow(w, window, 0) && Failures(w, window) == 6 && OnLocked(w, window) == 1
  {
    history := OverlappingLogins(6);
    window := RecordAll(0, 6);
  }

  /** The bound is reached for every number of failures on a locked row. */
  lemma OverlappingBoundIsTight(onLocked: nat) returns (history: seq<Step>, window: seq<Step>)
    ensures Runs(EMPTY, history)
    ensures var w := After(EMPTY, history);
            && Runs(w, window) && InWindow(w, window, 0) && w.row == FRESH
            && OnLocked(w, window) == onLocked && Failures(w, window) == 5 * (1 + onLocked) - w.row.failures
  {
    var n := 5 * (1 + onLocked);
    history := AllChecked(n);
    OneRecorded(0, n);
    AllCounted(1, n);
    window := RecordAll(0, n);
    assert window[1..] == RecordAll(1, n);
  }
}
