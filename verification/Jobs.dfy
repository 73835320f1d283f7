/** Job runs: validation, the transition function, its audit entries and the retry backoff.
Durations and times are nanoseconds; time 0 is Go's zero time. `trim` is strings.TrimSpace, as
Text.TrimSpace gives it; nothing below depends on which bytes count as space. */
module Jobs {

  const ZERO_TIME := 0
  const SECOND := 1_000_000_000
  const DAY := 24 * 3600 * SECOND

  newtype int64 = x: int | -0x8000_0000_0000_0000 <= x < 0x8000_0000_0000_0000

  datatype State =
    | Pending | Running | Succeeded | Failed | DeadLetter | CompensationPending | Compensating | Compensated
    | RollbackPending | RollingBack | RolledBack | Cancelled

  datatype Action =
    | Start | Succeed | Fail | Retry | RequestCompensation | StartCompensation | CompleteCompensation
    | RequestRollback | StartRollback | CompleteRollback | Cancel | Unsupported(name: string)

  datatype Definition = Definition(
    name: string, maxAttempts: int, base: int64, max: int64, requiresApproval: bool, requiresCompensation: bool)

  datatype Run = Run(
    id: string, jobName: string, org: string, key: string, state: State, attempt: int, maxAttempts: int,
    nextAttemptAt: int, approvalId: string, requestedBy: string, lastError: string, updatedAt: int)

  datatype Request = Request(action: Action, at: int, actor: string, approvalId: string, cause: string)

  datatype Entry = Entry(
    runId: string, jobName: string, action: Action, before: State, after: State, actor: string,
    approvalId: string, at: int, key: string, cause: string)

  datatype Error =
    | NoName | BadMaxAttempts | BadBaseDelay | BadMaxDelay | NoIdentity | DefinitionMismatch | MaxAttemptsMismatch
    | BadAttempt | NoActorOrTime | NoApproval | NoCause | InvalidTransition | BackoffNotElapsed | UnsupportedAction
    | NotRecorded

  datatype Result<+T> = Ok(value: T) | Err(error: Error)

  type Trim = string -> string

  function Truncate(s: string): string { if |s| <= 1000 then s else s[..1000] }

  function ValidateDefinition(trim: Trim, d: Definition): Result<()> {
    if trim(d.name) == "" then Err(NoName)
    else if d.maxAttempts < 1 || d.maxAttempts > 100 then Err(BadMaxAttempts)
    else if d.base as int < SECOND || d.base as int > DAY then Err(BadBaseDelay)
    else if d.max < d.base || d.max as int > 7 * DAY then Err(BadMaxDelay)
    else Ok(())
  }

  function ValidateRun(trim: Trim, d: Definition, run: Run): Result<()> {
    if ValidateDefinition(trim, d).Err? then ValidateDefinition(trim, d)
    else if trim(run.id) == "" || trim(run.jobName) == "" || trim(run.key) == "" then Err(NoIdentity)
    else if run.jobName != d.name then Err(DefinitionMismatch)
    else if run.maxAttempts != d.maxAttempts then Err(MaxAttemptsMismatch)
    else if run.attempt < 0 || run.attempt > run.maxAttempts then Err(BadAttempt)
    else Ok(())
  }

  predicate ValidDelays(d: Definition) {
    SECOND <= d.base as int <= DAY && d.base <= d.max && d.max as int <= 7 * DAY
  }

  function Pow2(n: nat): (p: nat)
    ensures p >= 1
  {
    if n == 0 then 1 else 2 * Pow2(n - 1)
  }

  function Min(a: int, b: int): int { if a <= b then a else b }

  /** The unbounded exponential backoff before capping. */
  function Exponential(d: Definition, attempt: int): int {
    d.base as int * Pow2(if attempt <= 1 then 0 else attempt - 1)
  }

  /** The delay in closed form: capped exponential, except that the loop, which compares with half the
  maximum rounded down, jumps to the maximum when the exponential falls one nanosecond short of it. */
  function Delay(d: Definition, attempt: int): int {
    if attempt >= 2 && Exponential(d, attempt) == d.max as int - 1 then d.max as int
    else Min(Exponential(d, attempt), d.max as int)
  }

  /** Once twice the current delay reaches the maximum, or misses it by one, the delay is the maximum. */
  lemma {:induction false} StaysAtMax(d: Definition, i: int, attempt: int)
    requires ValidDelays(d) && 1 <= i < attempt && Exponential(d, i) >= d.max as int / 2
    ensures Delay(d, attempt) == d.max as int
    decreases attempt - i
  {
    assert Exponential(d, i + 1) == 2 * Exponential(d, i);
    if i + 1 < attempt {
      StaysAtMax(d, i + 1, attempt);
    }
  }

  /** No multiplication overflows: `delay` is a 64-bit value throughout. */
  method RetryDelay(d: Definition, attempt: int) returns (delay: int64)
    requires ValidDelays(d)
    ensures delay as int == Delay(d, attempt)
  {
    delay := d.base;
    var i := 1;
    while i < attempt
      invariant 1 <= i && (i <= attempt || i == 1)
      invariant delay as int == Exponential(d, i)
      invariant i == 1 || delay as int <= d.max as int
      invariant i >= 2 ==> delay as int != d.max as int - 1
    {
      if delay >= d.max / 2 {
        StaysAtMax(d, i, attempt);
        return d.max;
      }
      assert Exponential(d, i + 1) == 2 * Exponential(d, i);
      delay := delay * 2;
      i := i + 1;
    }
    if delay > d.max {
      return d.max;
    }
  }

  lemma {:induction false} Pow2Grows(a: nat, b: nat)
    requires a <= b
    ensures Pow2(a) <= Pow2(b)
  {
    if a < b { Pow2Grows(a, b - 1); }
  }

  lemma ExponentialGrows(d: Definition, a: int, b: int)
    requires ValidDelays(d) && a <= b
    ensures d.base as int <= Exponential(d, a) <= Exponential(d, b)
    ensures 1 <= a < b ==> 2 * Exponential(d, a) <= Exponential(d, b)
  {
    var m, n := (if a <= 1 then 0 else a - 1), (if b <= 1 then 0 else b - 1);
    Pow2Grows(m, n);
    Scale(d.base as int, 1, Pow2(m));
    Scale(d.base as int, Pow2(m), Pow2(n));
    if 1 <= a < b {
      Pow2Grows(m + 1, n);
      Scale(d.base as int, Pow2(m + 1), Pow2(n));
    }
  }

  lemma Scale(c: int, a: int, b: int)
    requires c >= 0 && a <= b
    ensures c * a <= c * b
  {
  }

  /** Between the base and the maximum, growing with the attempt, never below the capped exponential
  and at most one nanosecond above it, exact whenever the maximum is even. */
  lemma DelayLaws(d: Definition, attempt: int, later: int)
    requires ValidDelays(d) && attempt <= later
    ensures d.base as int <= Delay(d, attempt) <= d.max as int
    ensures Delay(d, attempt) <= Delay(d, later)
    ensures var ideal := Min(Exponential(d, attempt), d.max as int);
            ideal <= Delay(d, attempt) <= ideal + 1 && (d.max as int % 2 == 0 ==> Delay(d, attempt) == ideal)
  {
    ExponentialGrows(d, attempt, later);
    if attempt >= 2 {
      assert Exponential(d, attempt) == 2 * Exponential(d, attempt - 1);
    }
  }

  predicate RequiresApproval(a: Action) {
    a.RequestCompensation? || a.StartCompensation? || a.RequestRollback? || a.StartRollback? || a.CompleteRollback? || a.Cancel?
  }

  function Apply(trim: Trim, d: Definition, run: Run, req: Request): Result<(Run, Entry)> {
    if ValidateRun(trim, d, run).Err? then Err(ValidateRun(trim, d, run).error)
    else if trim(req.actor) == "" || req.at == ZERO_TIME then Err(NoActorOrTime)
    else if RequiresApproval(req.action) && trim(req.approvalId) == "" then Err(NoApproval)
    else if d.requiresApproval && req.action.Start? && trim(req.approvalId) == "" then Err(NoApproval)
    else
      var approval := trim(req.approvalId);
      match Switched(trim, d, run, req, WithRequest(run, req, approval))
      case Err(e) => Err(e)
      case Ok(next) => Ok((next, EntryOf(run, req, next, approval)))
  }

  function WithRequest(run: Run, req: Request, approval: string): Run {
    run.(
      updatedAt := req.at, approvalId := approval, requestedBy := req.actor,
      lastError := if req.cause != "" then Truncate(req.cause) else run.lastError)
  }

  function EntryOf(run: Run, req: Request, next: Run, approval: string): Entry {
    Entry(run.id, run.jobName, req.action, run.state, next.state, req.actor, approval, req.at, run.key, Truncate(req.cause))
  }

  /** The transition proper; `next` already carries the request's fields. */
  function Switched(trim: Trim, d: Definition, run: Run, req: Request, next: Run): Result<Run> {
    match req.action
    case Start =>
      if !run.state.Pending? then Err(InvalidTransition) else Ok(next.(state := Running, attempt := 1))
    case Succeed =>
      if !run.state.Running? then Err(InvalidTransition) else Ok(next.(state := Succeeded, lastError := ""))
    case Fail =>
      if !run.state.Running? then Err(InvalidTransition)
      else if trim(req.cause) == "" then Err(NoCause)
      else if run.attempt >= run.maxAttempts then Ok(next.(state := DeadLetter, nextAttemptAt := ZERO_TIME))
      else Ok(next.(state := Failed, nextAttemptAt := req.at + Delay(d, run.attempt)))
    case Retry =>
      if !run.state.Failed? || run.attempt >= run.maxAttempts then Err(InvalidTransition)
      else if req.at < run.nextAttemptAt then Err(BackoffNotElapsed)
      else Ok(next.(state := Running, attempt := run.attempt + 1, nextAttemptAt := ZERO_TIME))
    case RequestCompensation =>
      if !d.requiresCompensation || !(run.state.Failed? || run.state.DeadLetter?) then Err(InvalidTransition)
      else Ok(next.(state := CompensationPending))
    case StartCompensation =>
      if !run.state.CompensationPending? then Err(InvalidTransition) else Ok(next.(state := Compensating))
    case CompleteCompensation =>
      if !run.state.Compensating? then Err(InvalidTransition) else Ok(next.(state := Compensated))
    case RequestRollback =>
      if !run.state.Succeeded? then Err(InvalidTransition) else Ok(next.(state := RollbackPending))
    case StartRollback =>
      if !run.state.RollbackPending? then Err(InvalidTransition) else Ok(next.(state := RollingBack))
    case CompleteRollback =>
      if !run.state.RollingBack? then Err(InvalidTransition) else Ok(next.(state := RolledBack))
    case Cancel =>
      if !(run.state.Pending? || run.state.Failed? || run.state.DeadLetter?) then Err(InvalidTransition)
      else Ok(next.(state := Cancelled))
    case Unsupported(name) => Err(UnsupportedAction)
  }

  /** Which requests are accepted: the definition and the run must be valid, an actor and a time must be named,
  the actions that undo or abandon work need an approval, and each action needs its own state. */
  lemma AcceptedIff(trim: Trim, d: Definition, run: Run, req: Request)
    ensures Apply(trim, d, run, req).Ok? <==>
      && trim(d.name) != "" && 1 <= d.maxAttempts <= 100
      && 1_000_000_000 <= d.base as int <= 86_400_000_000_000 && d.base as int <= d.max as int <= 604_800_000_000_000
      && trim(run.id) != "" && trim(run.jobName) != "" && trim(run.key) != "" && run.jobName == d.name
      && run.maxAttempts == d.maxAttempts && 0 <= run.attempt <= run.maxAttempts
      && trim(req.actor) != "" && req.at != 0
      && match req.action
         case Start => run.state == Pending && (d.requiresApproval ==> trim(req.approvalId) != "")
         case Succeed => run.state == Running
         case Fail => run.state == Running && trim(req.cause) != ""
         case Retry => run.state == Failed && run.attempt < run.maxAttempts && req.at >= run.nextAttemptAt
         case RequestCompensation => d.requiresCompensation && run.state in {Failed, DeadLetter} && trim(req.approvalId) != ""
         case StartCompensation => run.state == CompensationPending && trim(req.approvalId) != ""
         case CompleteCompensation => run.state == Compensating
         case RequestRollback => run.state == Succeeded && trim(req.approvalId) != ""
         case StartRollback => run.state == RollbackPending && trim(req.approvalId) != ""
         case CompleteRollback => run.state == RollingBack && trim(req.approvalId) != ""
         case Cancel => run.state in {Pending, Failed, DeadLetter} && trim(req.approvalId) != ""
         case Unsupported(name) => false
  {
  }

  /** What an accepted request changes, and the entry it leaves. */
  lemma AcceptedWrites(trim: Trim, d: Definition, run: Run, req: Request)
    requires Apply(trim, d, run, req).Ok?
    ensures var (n, e) := Apply(trim, d, run, req).value;
      && n.updatedAt == req.at && n.approvalId == trim(req.approvalId) && n.requestedBy == req.actor
      && n.id == run.id && n.jobName == run.jobName && n.org == run.org && n.key == run.key && n.maxAttempts == run.maxAttempts
      && n.attempt == (if req.action.Start? then 1 else if req.action.Retry? then run.attempt + 1 else run.attempt)
      && n.lastError == (if req.action.Succeed? then "" else if req.cause == "" then run.lastError
                         else if |req.cause| <= 1000 then req.cause else req.cause[..1000])
      && e == Entry(run.id, run.jobName, req.action, run.state, n.state, req.actor, trim(req.approvalId), req.at, run.key,
                    if |req.cause| <= 1000 then req.cause else req.cause[..1000])
    ensures var n := Apply(trim, d, run, req).value.0;
      n.state == match req.action
                 case Start => Running
                 case Succeed => Succeeded
                 case Fail => if run.attempt >= run.maxAttempts then DeadLetter else Failed
                 case Retry => Running
                 case RequestCompensation => CompensationPending
                 case StartCompensation => Compensating
                 case CompleteCompensation => Compensated
                 case RequestRollback => RollbackPending
                 case StartRollback => RollingBack
                 case CompleteRollback => RolledBack
                 case _ => Cancelled
  {
  }

  /** The transition counts only once its entry is recorded. */
  class Auditor {
    var entries: seq<Entry>

    constructor ()
      ensures entries == []
    {
      entries := [];
    }

    method ApplyWithAudit(trim: Trim, recordOk: bool, d: Definition, run: Run, req: Request) returns (r: Result<Run>)
      modifies this
      ensures match Apply(trim, d, run, req)
              case Err(e) => r == Err(e) && entries == old(entries)
              case Ok(p) => if recordOk then r == Ok(p.0) && entries == old(entries) + [p.1]
                            else r == Err(NotRecorded) && entries == old(entries)
    {
      match Apply(trim, d, run, req)
      case Err(e) => return Err(e);
      case Ok(p) =>
        if !recordOk { return Err(NotRecorded); }
        entries := entries + [p.1];
        return Ok(p.0);
    }
  }

  /** A run that is waiting for its first attempt. */
  predicate Initial(run: Run) {
    run.state.Pending? && run.attempt == 0
  }

  type Step = (Run, Request) -> Result<(Run, Entry)>

  function Machine(trim: Trim, d: Definition): Step {
    (run, req) => Apply(trim, d, run, req)
  }

  /** The run after a sequence of accepted requests, with the audit entries they left. */
  ghost predicate Reaches(step: Step, first: Run, requests: seq<Request>, run: Run, entries: seq<Entry>)
    decreases |requests|
  {
    if requests == [] then run == first && entries == []
    else
      var n := |requests| - 1;
      |entries| == n + 1 &&
      exists b :: Reaches(step, first, requests[..n], b, entries[..n]) && step(b, requests[n]) == Ok((run, entries[n]))
  }

  predicate SameIdentity(a: Run, b: Run) {
    a.id == b.id && a.jobName == b.jobName && a.org == b.org && a.key == b.key && a.maxAttempts == b.maxAttempts
  }

  /** What the state says about the attempt counter and the backoff. */
  predicate Consistent(d: Definition, run: Run) {
    match run.state
    case Pending => run.attempt == 0
    case Running => 1 <= run.attempt <= run.maxAttempts
    case Failed => 1 <= run.attempt < run.maxAttempts && run.nextAttemptAt == run.updatedAt + Delay(d, run.attempt)
    case DeadLetter => 1 <= run.attempt == run.maxAttempts && run.nextAttemptAt == ZERO_TIME
    case _ => run.attempt <= run.maxAttempts
  }

  /** The most requests a run can still accept. */
  function Left(run: Run): int {
    match run.state
    case Pending => 2 * run.maxAttempts + 3
    case Running => 2 * (run.maxAttempts - run.attempt) + 4
    case Failed => 2 * (run.maxAttempts - run.attempt) + 3
    case DeadLetter => 3
    case Succeeded => 3
    case CompensationPending => 2
    case RollbackPending => 2
    case Compensating => 1
    case RollingBack => 1
    case _ => 0
  }

  /** What one accepted request keeps and what its entry says. */
  predicate Keeps(d: Definition, run: Run, next: Run, e: Entry) {
    && Consistent(d, next) && SameIdentity(run, next) && 0 <= Left(next) < Left(run)
    && Replayed(d, run, e) == next && e.before == run.state && e.after == next.state
  }

  lemma SwitchKeeps(trim: Trim, d: Definition, run: Run, req: Request, approval: string)
    requires Consistent(d, run) && 1 <= run.maxAttempts && run.attempt <= run.maxAttempts
    requires Switched(trim, d, run, req, WithRequest(run, req, approval)).Ok?
    ensures var next := Switched(trim, d, run, req, WithRequest(run, req, approval)).value;
            Keeps(d, run, next, EntryOf(run, req, next, approval))
  {
  }

  ghost predicate Sound(d: Definition, step: Step) {
    forall run, req :: Consistent(d, run) && step(run, req).Ok? ==>
      Keeps(d, run, step(run, req).value.0, step(run, req).value.1)
  }

  lemma MachineIsSound(trim: Trim, d: Definition)
    ensures Sound(d, Machine(trim, d))
  {
    forall run, req | Consistent(d, run) && Apply(trim, d, run, req).Ok?
      ensures Keeps(d, run, Apply(trim, d, run, req).value.0, Apply(trim, d, run, req).value.1)
    {
      SwitchKeeps(trim, d, run, req, trim(req.approvalId));
    }
  }

  /** Rebuilds the run from what its audit entry records. */
  function Replayed(d: Definition, run: Run, e: Entry): Run {
    run.(
      state := e.after, updatedAt := e.at, approvalId := e.approvalId, requestedBy := e.actor,
      attempt := if e.action.Start? then 1 else if e.action.Retry? then run.attempt + 1 else run.attempt,
      nextAttemptAt := if e.after.Failed? then e.at + Delay(d, run.attempt)
                       else if e.action.Fail? || e.action.Retry? then ZERO_TIME else run.nextAttemptAt,
      lastError := if e.action.Succeed? then "" else if e.cause != "" then e.cause else run.lastError)
  }

  function Replay(d: Definition, first: Run, entries: seq<Entry>): Run {
    if entries == [] then first
    else Replayed(d, Replay(d, first, entries[..|entries| - 1]), entries[|entries| - 1])
  }

  /** The entries link up: each starts in the state the one before it ended in. */
  predicate Linked(first: State, entries: seq<Entry>) {
    && (entries != [] ==> entries[0].before == first)
    && (forall i, j :: 0 <= i < |entries| - 1 && j == i + 1 ==> entries[j].before == entries[i].after)
  }

  predicate Accounted(d: Definition, first: Run, requests: seq<Request>, run: Run, entries: seq<Entry>) {
    && Consistent(d, run) && SameIdentity(first, run)
    && |entries| == |requests| && |requests| + Left(run) <= 2 * first.maxAttempts + 3 && (requests != [] ==> 0 <= Left(run))
    && Replay(d, first, entries) == run && Linked(first.state, entries)
    && run.state == if entries == [] then first.state else entries[|entries| - 1].after
  }

  lemma OneMore(d: Definition, first: Run, requests: seq<Request>, b: Run, run: Run, entries: seq<Entry>)
    requires requests != [] && |entries| == |requests|
    requires var n := |requests| - 1; Accounted(d, first, requests[..n], b, entries[..n]) && Keeps(d, b, run, entries[n])
    ensures Accounted(d, first, requests, run, entries)
  {
  }

  lemma {:induction false} ReachedIsAccounted(step: Step, d: Definition, first: Run, requests: seq<Request>, run: Run, entries: seq<Entry>)
    requires Sound(d, step) && Initial(first) && Reaches(step, first, requests, run, entries)
    ensures Accounted(d, first, requests, run, entries)
    decreases |requests|
  {
    if requests != [] {
      var n := |requests| - 1;
      var b :| Reaches(step, first, requests[..n], b, entries[..n]) && step(b, requests[n]) == Ok((run, entries[n]));
      ReachedIsAccounted(step, d, first, requests[..n], b, entries[..n]);
      OneMore(d, first, requests, b, run, entries);
    }
  }

  lemma AccountedMeans(d: Definition, first: Run, requests: seq<Request>, run: Run, entries: seq<Entry>)
    requires Accounted(d, first, requests, run, entries)
    ensures requests != [] ==> |requests| <= 2 * first.maxAttempts + 3
    ensures run.state.Failed? ==> 1 <= run.attempt < run.maxAttempts
    ensures run.state.DeadLetter? ==> run.attempt == run.maxAttempts
  {
  }

  /** Every accepted sequence is at most 2 * maxAttempts + 3 long, keeps the run's identity and the
  meaning of its state, and leaves audit entries that replay to exactly the current run. */
  lemma AcceptedRuns(trim: Trim, d: Definition, first: Run, requests: seq<Request>, run: Run, entries: seq<Entry>)
    requires Initial(first) && Reaches(Machine(trim, d), first, requests, run, entries)
    ensures requests != [] ==> |requests| <= 2 * first.maxAttempts + 3
    ensures run.state.Failed? ==> 1 <= run.attempt < run.maxAttempts
    ensures run.state.DeadLetter? ==> run.attempt == run.maxAttempts
    ensures SameIdentity(first, run)
    ensures Replay(d, first, entries) == run && Linked(first.state, entries) && |entries| == |requests|
  {
    MachineIsSound(trim, d);
    ReachedIsAccounted(Machine(trim, d), d, first, requests, run, entries);
    AccountedMeans(d, first, requests, run, entries);
  }

  lemma LastStep(step: Step, d: Definition, first: Run, requests: seq<Request>, run: Run, entries: seq<Entry>) returns (b: Run)
    requires requests != [] && Sound(d, step) && Initial(first) && Reaches(step, first, requests, run, entries)
    ensures |entries| == |requests|
    ensures var n := |requests| - 1;
            Consistent(d, b) && step(b, requests[n]) == Ok((run, entries[n])) && Keeps(d, b, run, entries[n])
  {
    var n := |requests| - 1;
    b :| Reaches(step, first, requests[..n], b, entries[..n]) && step(b, requests[n]) == Ok((run, entries[n]));
    ReachedIsAccounted(step, d, first, requests[..n], b, entries[..n]);
  }

  /** Only a failure leads to the state Failed, at the request's own time. */
  lemma FailedByFailure(trim: Trim, d: Definition, b: Run, req: Request)
    requires Apply(trim, d, b, req).Ok? && Apply(trim, d, b, req).value.0.state.Failed?
    ensures req.action.Fail? && Apply(trim, d, b, req).value.0.updatedAt == req.at
  {
  }

  lemma AcceptedRetry(trim: Trim, d: Definition, run: Run, req: Request)
    requires req.action.Retry? && Apply(trim, d, run, req).Ok?
    ensures run.state.Failed? && req.at >= run.nextAttemptAt && run.attempt < run.maxAttempts && ValidDelays(d)
    ensures Apply(trim, d, run, req).value.0.attempt == run.attempt + 1
  {
  }

  /** A retry is accepted only once the full delay since the failure has passed, at least the base delay. */
  lemma RetriesBackOff(trim: Trim, d: Definition, first: Run, requests: seq<Request>, run: Run, entries: seq<Entry>, req: Request)
    requires Initial(first) && Reaches(Machine(trim, d), first, requests, run, entries)
    requires req.action.Retry? && Machine(trim, d)(run, req).Ok?
    ensures requests != [] && requests[|requests| - 1].action.Fail?
    ensures req.at >= requests[|requests| - 1].at + Delay(d, run.attempt)
    ensures Delay(d, run.attempt) >= d.base as int
    ensures Machine(trim, d)(run, req).value.0.attempt == run.attempt + 1 <= first.maxAttempts
  {
    MachineIsSound(trim, d);
    ReachedIsAccounted(Machine(trim, d), d, first, requests, run, entries);
    AcceptedRetry(trim, d, run, req);
    var b := LastStep(Machine(trim, d), d, first, requests, run, entries);
    FailedByFailure(trim, d, b, requests[|requests| - 1]);
    DelayLaws(d, run.attempt, run.attempt);
  }

  /** Fail and retry until the last attempt, succeed there, then roll back. */
  function LongestNext(run: Run, actor: string): Request {
    var action :=
      match run.state
      case Pending => Start
      case Running => if run.attempt < run.maxAttempts then Fail else Succeed
      case Failed => Retry
      case Succeeded => RequestRollback
      case RollbackPending => StartRollback
      case _ => CompleteRollback;
    Request(action, if run.nextAttemptAt > 0 then run.nextAttemptAt else 1, actor, actor, actor)
  }

  predicate OnLongestPath(s: State) {
    s.Pending? || s.Running? || s.Failed? || s.Succeeded? || s.RollbackPending? || s.RollingBack? || s.RolledBack?
  }

  lemma LongestStep(trim: Trim, d: Definition, run: Run, actor: string)
    requires ValidateRun(trim, d, run).Ok? && Consistent(d, run) && OnLongestPath(run.state) && Left(run) > 0 && trim(actor) != ""
    ensures var r := Apply(trim, d, run, LongestNext(run, actor));
            r.Ok? && Left(r.value.0) == Left(run) - 1 && ValidateRun(trim, d, r.value.0).Ok? && OnLongestPath(r.value.0.state)
  {
  }

  lemma Extends(step: Step, first: Run, requests: seq<Request>, b: Run, entries: seq<Entry>, req: Request, run: Run, e: Entry)
    requires Reaches(step, first, requests, b, entries) && step(b, req) == Ok((run, e)) && |entries| == |requests|
    ensures Reaches(step, first, requests + [req], run, entries + [e])
  {
    var n := |requests|;
    assert (requests + [req])[..n] == requests && (entries + [e])[..n] == entries;
  }

  /** The bound is reached by every valid run: it can take any number of steps up to 2 * maxAttempts + 3. */
  lemma {:induction false} LongestRun(trim: Trim, d: Definition, first: Run, actor: string, n: nat)
    returns (requests: seq<Request>, run: Run, entries: seq<Entry>)
    requires ValidateRun(trim, d, first).Ok? && Initial(first) && trim(actor) != "" && n <= 2 * first.maxAttempts + 3
    ensures |requests| == n && Reaches(Machine(trim, d), first, requests, run, entries)
    ensures Left(run) == 2 * first.maxAttempts + 3 - n && ValidateRun(trim, d, run).Ok? && OnLongestPath(run.state)
    decreases n
  {
    if n == 0 {
      return [], first, [];
    }
    var rs, b, es := LongestRun(trim, d, first, actor, n - 1);
    MachineIsSound(trim, d);
    ReachedIsAccounted(Machine(trim, d), d, first, rs, b, es);
    LongestStep(trim, d, b, actor);
    var req := LongestNext(b, actor);
    var p := Machine(trim, d)(b, req).value;
    Extends(Machine(trim, d), first, rs, b, es, req, p.0, p.1);
    requests, run, entries := rs + [req], p.0, es + [p.1];
  }
}
