/** The maker-checker approval engine: requests, tasks, decisions and one-shot execution tickets.

Every operation locks the request row for its whole transaction, so each is one atomic step on one
request. `votes` records who decided what and when; no operation reads it. */
module Approval {

  datatype Status = Pending | Approved | Rejected | Withdrawn | Expired
  datatype Decision = Undecided | Approve | Reject
  datatype TaskStatus = Open | Decided | Cancelled

  datatype Task = Task(assignee: string, status: TaskStatus, decision: Decision)

  datatype Vote = Vote(user: string, decision: Decision, at: int)

  /** `command` is request type, action, resource, resource id and canonical payload. */
  datatype Request = Request(
    org: string, applicant: string, required: int, status: Status, expiresAt: int,
    summary: string, command: seq<string>, digest: string, tasks: seq<Task>, votes: set<Vote>)

  datatype Execution = Execution(request: string, actor: string, digest: string, at: int)

  datatype Db = Db(requests: map<string, Request>, executions: seq<Execution>)

  const EMPTY := Db(map[], [])

  datatype Error = Invalid | MakerChecker | NotPending | NotAssigned | NoRows | DigestMismatch | AlreadyExecuted

  datatype Result<+T> = Ok(value: T) | Err(error: Error)

  // ------------------------------------------------------------------ counting and resolving

  function Count(tasks: seq<Task>, d: Decision): (n: nat)
    ensures n <= |tasks|
  {
    if tasks == [] then 0 else Count(tasks[..|tasks| - 1], d) + if tasks[|tasks| - 1].decision == d then 1 else 0
  }

  function CountOpen(tasks: seq<Task>): (n: nat)
    ensures n <= |tasks|
  {
    if tasks == [] then 0 else CountOpen(tasks[..|tasks| - 1]) + if tasks[|tasks| - 1].status == Open then 1 else 0
  }

  function ResolveStatus(required: int, approved: int, rejected: int, pending: int): Status {
    if rejected > 0 || approved + pending < required then Rejected
    else if approved >= required then Approved
    else Pending
  }

  /** The task assigned to `user`, or the number of tasks. */
  function TaskOf(tasks: seq<Task>, user: string): (i: nat)
    ensures i <= |tasks|
    ensures i < |tasks| ==> tasks[i].assignee == user
    ensures forall k :: 0 <= k < i ==> tasks[k].assignee != user
  {
    if tasks == [] then 0
    else if tasks[0].assignee == user then 0
    else 1 + TaskOf(tasks[1..], user)
  }

  function CancelOpen(tasks: seq<Task>): (r: seq<Task>)
    ensures |r| == |tasks|
    ensures forall i :: 0 <= i < |tasks| ==>
      r[i] == if tasks[i].status == Open then tasks[i].(status := Cancelled) else tasks[i]
  {
    seq(|tasks|, i requires 0 <= i < |tasks| => if tasks[i].status == Open then tasks[i].(status := Cancelled) else tasks[i])
  }

  // ------------------------------------------------------------------ operations on one request

  datatype Mode = Any | All | Quorum | Unknown

  predicate ModeAllows(mode: Mode, required: int, approvers: nat) {
    match mode
    case Any => required == 1
    case All => required == approvers
    case Quorum => 1 <= required <= approvers
    case Unknown => false
  }

  ghost predicate Distinct(users: seq<string>) {
    forall i, j :: 0 <= i < j < |users| ==> users[i] != users[j]
  }

  ghost predicate CreationValid(q: Request, mode: Mode, approvers: seq<string>, now: int) {
    && q.org != "" && q.applicant != "" && |q.command| == 5 && q.command[0] != "" && q.command[1] != "" && q.command[2] != ""
    && q.summary != "" && q.digest != "" && approvers != [] && now < q.expiresAt
    && (forall i :: 0 <= i < |approvers| ==> approvers[i] != "" && approvers[i] != q.applicant)
    && Distinct(approvers) && ModeAllows(mode, q.required, |approvers|)
  }

  /** Accepts exactly the valid creations: distinct approvers, none the applicant, a reachable quorum. */
  method ValidateCreation(q: Request, mode: Mode, approvers: seq<string>, now: int) returns (r: Result<()>)
    requires |q.command| == 5
    ensures r.Ok? <==> CreationValid(q, mode, approvers, now)
    ensures r.Ok? ==>
      && (forall i :: 0 <= i < |approvers| ==> approvers[i] != "" && approvers[i] != q.applicant)
      && (forall i, j :: 0 <= i < j < |approvers| ==> approvers[i] != approvers[j])
      && 1 <= q.required <= |approvers| && now < q.expiresAt && mode != Unknown
      && (mode == Any ==> q.required == 1) && (mode == All ==> q.required == |approvers|)
    ensures r.Ok? <==>
      && q.org != "" && q.applicant != "" && q.command[0] != "" && q.command[1] != "" && q.command[2] != ""
      && q.summary != "" && q.digest != "" && approvers != [] && now < q.expiresAt
      && (forall i :: 0 <= i < |approvers| ==> approvers[i] != "" && approvers[i] != q.applicant)
      && (forall i, j :: 0 <= i < j < |approvers| ==> approvers[i] != approvers[j])
      && mode != Unknown && q.required == (if mode == Any then 1 else if mode == All then |approvers| else q.required)
      && 1 <= q.required <= |approvers|
  {
    if q.org == "" || q.applicant == "" || q.command[0] == "" || q.command[1] == "" || q.command[2] == ""
       || q.summary == "" || q.digest == "" || approvers == [] || q.expiresAt <= now {
      return Err(Invalid);
    }
    var seen: set<string> := {};
    for i := 0 to |approvers|
      invariant seen == set k | 0 <= k < i :: approvers[k]
      invariant forall k :: 0 <= k < i ==> approvers[k] != "" && approvers[k] != q.applicant
      invariant forall j, k :: 0 <= j < k < i ==> approvers[j] != approvers[k]
    {
      if approvers[i] == "" || approvers[i] == q.applicant {
        return Err(MakerChecker);
      }
      if approvers[i] in seen {
        return Err(Invalid);
      }
      seen := seen + {approvers[i]};
    }
    if !ModeAllows(mode, q.required, |approvers|) {
      return Err(Invalid);
    }
    return Ok(());
  }

  function Opened(q: Request, approvers: seq<string>): Request {
    q.(status := Pending, votes := {},
       tasks := seq(|approvers|, i requires 0 <= i < |approvers| => Task(approvers[i], Open, Undecided)))
  }

  /** The expiry update that every read runs first. */
  function Expire(q: Request, now: int): Request {
    if q.status == Pending && q.expiresAt <= now then q.(status := Expired) else q
  }

  function Decide(q: Request, actor: string, d: Decision, now: int): Result<Request> {
    if q.status != Pending || q.expiresAt <= now then Err(NotPending)
    else if q.applicant == actor then Err(MakerChecker)
    else
      var i := TaskOf(q.tasks, actor);
      if i == |q.tasks| then Err(NotAssigned)
      else if q.tasks[i].status != Open then Err(NotPending)
      else Ok(Settle(q, Marked(q.tasks, i, d), Vote(actor, d, now)))
  }

  function Marked(tasks: seq<Task>, i: nat, d: Decision): seq<Task>
    requires i < |tasks|
  {
    tasks[i := tasks[i].(status := Decided, decision := d)]
  }

  /** Counts the decisions, sets the request's status and cancels what is open once it is settled. */
  function Settle(q: Request, tasks: seq<Task>, vote: Vote): Request {
    var status := ResolveStatus(q.required, Count(tasks, Approve), Count(tasks, Reject), CountOpen(tasks));
    q.(status := status, tasks := if status != Pending then CancelOpen(tasks) else tasks, votes := q.votes + {vote})
  }

  function Transfer(q: Request, actor: string, to: string, active: set<string>, now: int): Result<Request> {
    if q.status != Pending || q.expiresAt <= now then Err(NotPending)
    else if to == q.applicant then Err(MakerChecker)
    else if to !in active then Err(NoRows)
    else
      var i := TaskOf(q.tasks, actor);
      if i == |q.tasks| then Err(NotAssigned)
      else if q.tasks[i].status != Open then Err(NotPending)
      else if TaskOf(q.tasks, to) < |q.tasks| then Err(Invalid)
      else Ok(q.(tasks := q.tasks[i := q.tasks[i].(assignee := to)]))
  }

  function Withdraw(q: Request, actor: string): Result<Request> {
    if q.applicant != actor then Err(NoRows)
    else if q.status != Pending then Err(NotPending)
    else Ok(q.(status := Withdrawn, tasks := CancelOpen(q.tasks)))
  }

  predicate Executed(executions: seq<Execution>, id: string) {
    exists i :: 0 <= i < |executions| && executions[i].request == id
  }

  function Claim(db: Db, org: string, id: string, actor: string, digest: string, now: int): Result<Db> {
    if id !in db.requests || db.requests[id].org != org then Err(NoRows)
    else
      var q := db.requests[id];
      if q.applicant != actor then Err(MakerChecker)
      else if q.status != Approved || q.expiresAt <= now then Err(NotPending)
      else if q.digest != digest then Err(DigestMismatch)
      else if Executed(db.executions, id) then Err(AlreadyExecuted)
      else Ok(db.(executions := db.executions + [Execution(id, actor, digest, now)]))
  }

  // ------------------------------------------------------------------ the repository

  datatype Op =
    | Create(id: string, q: Request, mode: Mode, approvers: seq<string>, active: set<string>, now: int)
    | Read(id: string, org: string, now: int)
    | DecideOp(id: string, org: string, actor: string, d: Decision, now: int)
    | TransferOp(id: string, org: string, actor: string, to: string, active: set<string>, now: int)
    | WithdrawOp(id: string, org: string, actor: string)
    | ClaimOp(id: string, org: string, actor: string, digest: string, now: int)

  /** The service admits only these; everything else is refused before the repository is called. */
  ghost predicate Admitted(db: Db, op: Op) {
    match op
    case Create(id, q, mode, approvers, active, now) =>
      && id !in db.requests && CreationValid(q, mode, approvers, now)
    case DecideOp(_, _, _, d, _) => d != Undecided
    case _ => true
  }

  function Put(db: Db, id: string, org: string, g: Request -> Result<Request>): Db {
    if id in db.requests && db.requests[id].org == org then
      match g(db.requests[id])
      case Ok(q) => db.(requests := db.requests[id := q])
      case Err(_) => db
    else db
  }

  /** What the caller of an operation on one request is told. */
  function Answer(db: Db, id: string, org: string, g: Request -> Result<Request>): Result<()> {
    if id in db.requests && db.requests[id].org == org then
      match g(db.requests[id])
      case Ok(_) => Ok(())
      case Err(e) => Err(e)
    else Err(NoRows)
  }

  /** A refused operation rolls back and changes nothing. */
  function Apply(db: Db, op: Op): Db {
    match op
    case Create(id, q, _, approvers, active, _) =>
      if id !in db.requests && q.applicant in active && forall i :: 0 <= i < |approvers| ==> approvers[i] in active
      then db.(requests := db.requests[id := Opened(q, approvers)]) else db
    case Read(id, org, now) => Put(db, id, org, q => Ok(Expire(q, now)))
    case DecideOp(id, org, actor, d, now) => Put(db, id, org, q => Decide(q, actor, d, now))
    case TransferOp(id, org, actor, to, active, now) => Put(db, id, org, q => Transfer(q, actor, to, active, now))
    case WithdrawOp(id, org, actor) => Put(db, id, org, q => Withdraw(q, actor))
    case ClaimOp(id, org, actor, digest, now) =>
      match Claim(db, org, id, actor, digest, now)
      case Ok(d) => d
      case Err(_) => db
  }

  /** What the caller is told, error by error. */
  function Answered(db: Db, op: Op): Result<()> {
    match op
    case Create(id, q, _, approvers, active, _) =>
      if id !in db.requests && q.applicant in active && forall i :: 0 <= i < |approvers| ==> approvers[i] in active
      then Ok(()) else Err(NoRows)
    case Read(id, org, now) => Answer(db, id, org, q => Ok(q))
    case DecideOp(id, org, actor, d, now) => Answer(db, id, org, q => Decide(q, actor, d, now))
    case TransferOp(id, org, actor, to, active, now) => Answer(db, id, org, q => Transfer(q, actor, to, active, now))
    case WithdrawOp(id, org, actor) => Answer(db, id, org, q => Withdraw(q, actor))
    case ClaimOp(id, org, actor, digest, now) =>
      var c := Claim(db, org, id, actor, digest, now);
      if c.Ok? then Ok(()) else Err(c.error)
  }

  ghost predicate Run(ops: seq<Op>, db: Db)
    decreases |ops|
  {
    if ops == [] then db == EMPTY
    else
      var n := |ops| - 1;
      exists b :: Run(ops[..n], b) && Admitted(b, ops[n]) && db == Apply(b, ops[n])
  }

  // ------------------------------------------------------------------ the invariant

  /** A decided task carries a decision, an undecided one does not. */
  predicate TaskOk(t: Task) {
    t.status == Decided <==> t.decision != Undecided
  }

  ghost predicate TasksOk(q: Request) {
    && (forall i, j :: 0 <= i < j < |q.tasks| ==> q.tasks[i].assignee != q.tasks[j].assignee)
    && (forall i :: 0 <= i < |q.tasks| ==> q.tasks[i].assignee != q.applicant && TaskOk(q.tasks[i]))
    && 1 <= q.required <= |q.tasks|
  }

  /** Every decision is backed by a vote of the assignee, cast before expiry. */
  ghost predicate VotesOk(q: Request) {
    && (forall i :: 0 <= i < |q.tasks| && q.tasks[i].decision != Undecided ==>
          exists t :: Vote(q.tasks[i].assignee, q.tasks[i].decision, t) in q.votes)
    && (forall v :: v in q.votes ==> v.at < q.expiresAt && v.user != q.applicant)
  }

  predicate StatusOk(q: Request) {
    && (q.status == Rejected <==> Count(q.tasks, Reject) > 0)
    && (q.status == Approved <==> Count(q.tasks, Reject) == 0 && Count(q.tasks, Approve) >= q.required)
    && (q.status == Pending ==> forall i :: 0 <= i < |q.tasks| ==> q.tasks[i].status != Cancelled)
  }

  ghost predicate RequestOk(q: Request) {
    TasksOk(q) && VotesOk(q) && StatusOk(q)
  }

  ghost predicate ExecutionOk(db: Db, e: Execution) {
    && e.request in db.requests
    && var q := db.requests[e.request];
       q.status == Approved && e.actor == q.applicant && e.digest == q.digest && e.at < q.expiresAt
  }

  ghost predicate Inv(db: Db) {
    && (forall id :: id in db.requests ==> RequestOk(db.requests[id]))
    && (forall i :: 0 <= i < |db.executions| ==> ExecutionOk(db, db.executions[i]))
    && (forall i, j :: 0 <= i < j < |db.executions| ==> db.executions[i].request != db.executions[j].request)
  }

  // ------------------------------------------------------------------ counting lemmas

  /** Every task is counted once. */
  lemma {:induction false} CountsAddUp(tasks: seq<Task>)
    requires forall i :: 0 <= i < |tasks| ==> TaskOk(tasks[i]) && tasks[i].status != Cancelled
    ensures Count(tasks, Approve) + Count(tasks, Reject) + CountOpen(tasks) == |tasks|
  {
    if tasks != [] {
      var n := |tasks| - 1;
      assert TaskOk(tasks[n]);
      CountsAddUp(tasks[..n]);
    }
  }

  lemma {:induction false} CountSame(a: seq<Task>, b: seq<Task>, d: Decision)
    requires |a| == |b| && forall i :: 0 <= i < |a| ==> a[i].decision == b[i].decision
    ensures Count(a, d) == Count(b, d)
  {
    if a != [] { CountSame(a[..|a| - 1], b[..|b| - 1], d); }
  }

  lemma {:induction false} CountUpdate(tasks: seq<Task>, i: nat, t: Task, d: Decision)
    requires i < |tasks| && tasks[i].decision == Undecided && d != Undecided
    ensures Count(tasks[i := t], d) == Count(tasks, d) + if t.decision == d then 1 else 0
  {
    var n := |tasks| - 1;
    if i < n {
      CountUpdate(tasks[..n], i, t, d);
      assert tasks[i := t][..n] == tasks[..n][i := t];
    } else {
      assert tasks[i := t][..n] == tasks[..n];
    }
  }

  lemma {:induction false} CountNone(tasks: seq<Task>, d: Decision)
    requires forall i :: 0 <= i < |tasks| ==> tasks[i].decision != d
    ensures Count(tasks, d) == 0
  {
    if tasks != [] { CountNone(tasks[..|tasks| - 1], d); }
  }

  lemma {:induction false} CountSome(tasks: seq<Task>, d: Decision)
    ensures Count(tasks, d) > 0 <==> exists i :: 0 <= i < |tasks| && tasks[i].decision == d
  {
    if tasks != [] {
      var n := |tasks| - 1;
      CountSome(tasks[..n], d);
      if exists i :: 0 <= i < n && tasks[i].decision == d {
        var i :| 0 <= i < n && tasks[i].decision == d;
        assert tasks[..n][i].decision == d;
      }
    }
  }

  function Deciders(tasks: seq<Task>, d: Decision): set<string> {
    set i | 0 <= i < |tasks| && tasks[i].decision == d :: tasks[i].assignee
  }

  lemma DecidersSnoc(tasks: seq<Task>, t: Task, d: Decision)
    ensures Deciders(tasks + [t], d) == Deciders(tasks, d) + if t.decision == d then {t.assignee} else {}
  {
    var all := tasks + [t];
    assert all[|tasks|] == t && forall i :: 0 <= i < |tasks| ==> all[i] == tasks[i];
  }

  /** With distinct assignees, counted decisions are distinct people. */
  lemma {:induction false} DecidersCounted(tasks: seq<Task>, d: Decision)
    requires forall i, j :: 0 <= i < j < |tasks| ==> tasks[i].assignee != tasks[j].assignee
    ensures |Deciders(tasks, d)| == Count(tasks, d)
  {
    if tasks != [] {
      var n := |tasks| - 1;
      var front, t := tasks[..n], tasks[n];
      DecidersCounted(front, d);
      NotYetDecider(front, t, d);
      DecidersSnoc(front, t, d);
      assert tasks == front + [t];
    }
  }

  lemma NotYetDecider(tasks: seq<Task>, t: Task, d: Decision)
    requires forall i :: 0 <= i < |tasks| ==> tasks[i].assignee != t.assignee
    ensures t.assignee !in Deciders(tasks, d)
  {
  }

  // ------------------------------------------------------------------ every operation keeps it

  lemma OpenedOk(q: Request, mode: Mode, approvers: seq<string>, now: int)
    requires CreationValid(q, mode, approvers, now)
    ensures RequestOk(Opened(q, approvers))
  {
    var p := Opened(q, approvers);
    CountNone(p.tasks, Approve);
    CountNone(p.tasks, Reject);
  }

  /** The second disjunct of ResolveStatus never fires on its own: with no rejection every task is still
  open or approved, and there are at least `required` of them. */
  lemma DecideResolves(q: Request, i: nat, d: Decision)
    requires TasksOk(q) && StatusOk(q) && q.status == Pending && d != Undecided
    requires i < |q.tasks| && q.tasks[i].status == Open
    ensures var tasks := Marked(q.tasks, i, d);
            var status := ResolveStatus(q.required, Count(tasks, Approve), Count(tasks, Reject), CountOpen(tasks));
            && (status == Rejected <==> Count(tasks, Reject) > 0) && (status == Rejected <==> d == Reject)
            && (status == Approved <==> Count(tasks, Reject) == 0 && Count(tasks, Approve) >= q.required)
            && (status == Rejected || status == Approved || status == Pending)
  {
    var t := q.tasks[i].(status := Decided, decision := d);
    assert TaskOk(q.tasks[i]);
    CountUpdate(q.tasks, i, t, Approve);
    CountUpdate(q.tasks, i, t, Reject);
    CountsAddUp(Marked(q.tasks, i, d));
  }

  lemma CancelKeepsCounts(tasks: seq<Task>)
    ensures Count(CancelOpen(tasks), Approve) == Count(tasks, Approve)
    ensures Count(CancelOpen(tasks), Reject) == Count(tasks, Reject)
  {
    CountSame(CancelOpen(tasks), tasks, Approve);
    CountSame(CancelOpen(tasks), tasks, Reject);
  }

  /** Votes stay in order when decided tasks keep their assignee and decision. */
  lemma VotesStay(q: Request, p: Request)
    requires VotesOk(q) && p.votes == q.votes && p.expiresAt == q.expiresAt && p.applicant == q.applicant
    requires |p.tasks| == |q.tasks|
    requires forall k :: 0 <= k < |p.tasks| && p.tasks[k].decision != Undecided ==>
      p.tasks[k].assignee == q.tasks[k].assignee && p.tasks[k].decision == q.tasks[k].decision
    ensures VotesOk(p)
  {
  }

  lemma SettleVotes(q: Request, i: nat, d: Decision, now: int)
    requires VotesOk(q) && i < |q.tasks| && now < q.expiresAt && q.tasks[i].assignee != q.applicant
    ensures VotesOk(Settle(q, Marked(q.tasks, i, d), Vote(q.tasks[i].assignee, d, now)))
  {
  }

  lemma SettleStatus(q: Request, i: nat, d: Decision, vote: Vote)
    requires TasksOk(q) && StatusOk(q) && q.status == Pending && d != Undecided
    requires i < |q.tasks| && q.tasks[i].status == Open
    ensures StatusOk(Settle(q, Marked(q.tasks, i, d), vote))
  {
    DecideResolves(q, i, d);
    CancelKeepsCounts(Marked(q.tasks, i, d));
  }

  lemma SettleTasks(q: Request, i: nat, d: Decision, vote: Vote)
    requires TasksOk(q) && d != Undecided && i < |q.tasks|
    ensures TasksOk(Settle(q, Marked(q.tasks, i, d), vote))
  {
  }

  lemma DecideOk(q: Request, actor: string, d: Decision, now: int)
    requires RequestOk(q) && d != Undecided && Decide(q, actor, d, now).Ok?
    ensures RequestOk(Decide(q, actor, d, now).value)
  {
    var i, vote := TaskOf(q.tasks, actor), Vote(actor, d, now);
    SettleTasks(q, i, d, vote);
    SettleStatus(q, i, d, vote);
    SettleVotes(q, i, d, now);
  }

  lemma TransferOk(q: Request, actor: string, to: string, active: set<string>, now: int)
    requires RequestOk(q) && Transfer(q, actor, to, active, now).Ok?
    ensures RequestOk(Transfer(q, actor, to, active, now).value)
  {
    var p := Transfer(q, actor, to, active, now).value;
    CountSame(p.tasks, q.tasks, Approve);
    CountSame(p.tasks, q.tasks, Reject);
    assert TaskOk(q.tasks[TaskOf(q.tasks, actor)]);
    VotesStay(q, p);
  }

  lemma WithdrawOk(q: Request, actor: string)
    requires RequestOk(q) && Withdraw(q, actor).Ok?
    ensures RequestOk(Withdraw(q, actor).value)
  {
    CancelKeepsCounts(q.tasks);
    VotesStay(q, Withdraw(q, actor).value);
  }

  lemma ExpireOk(q: Request, now: int)
    requires RequestOk(q)
    ensures RequestOk(Expire(q, now))
  {
  }

  lemma RequestsOk(db: Db, op: Op, id: string)
    requires Inv(db) && Admitted(db, op) && id in Apply(db, op).requests
    ensures RequestOk(Apply(db, op).requests[id])
  {
    if id in db.requests && Apply(db, op).requests[id] == db.requests[id] {
      assert RequestOk(db.requests[id]);
    } else {
      match op
      case Create(_, q, mode, approvers, _, now) => OpenedOk(q, mode, approvers, now);
      case Read(_, _, now) => ExpireOk(db.requests[id], now);
      case DecideOp(_, _, actor, d, now) => DecideOk(db.requests[id], actor, d, now);
      case TransferOp(_, _, actor, to, active, now) => TransferOk(db.requests[id], actor, to, active, now);
      case WithdrawOp(_, _, actor) => WithdrawOk(db.requests[id], actor);
    }
  }

  /** A status other than PENDING is final, and nothing else about the request changes either. */
  lemma SettledIsFinal(db: Db, op: Op, id: string)
    requires Admitted(db, op) && id in db.requests && db.requests[id].status != Pending
    ensures id in Apply(db, op).requests && Apply(db, op).requests[id] == db.requests[id]
  {
  }

  ghost predicate Leads(b: Db, ops: seq<Op>, db: Db)
    decreases |ops|
  {
    if ops == [] then db == b else Admitted(b, ops[0]) && Leads(Apply(b, ops[0]), ops[1..], db)
  }

  /** So once settled it stays as it is, whatever operations follow. */
  lemma {:induction false} SettledForever(b: Db, ops: seq<Op>, db: Db, id: string)
    requires Leads(b, ops, db) && id in b.requests && b.requests[id].status != Pending
    ensures id in db.requests && db.requests[id] == b.requests[id]
    decreases |ops|
  {
    if ops != [] {
      SettledIsFinal(b, ops[0], id);
      SettledForever(Apply(b, ops[0]), ops[1..], db, id);
    }
  }

  lemma StepKeeps(db: Db, op: Op)
    requires Inv(db) && Admitted(db, op)
    ensures Inv(Apply(db, op))
  {
    var b := Apply(db, op);
    forall id | id in b.requests ensures RequestOk(b.requests[id]) { RequestsOk(db, op, id); }
    forall i | 0 <= i < |b.executions| ensures ExecutionOk(b, b.executions[i]) {
      if i < |db.executions| { ExecutionStays(db, op, i); }
    }
  }

  lemma ExecutionStays(db: Db, op: Op, i: nat)
    requires Admitted(db, op) && i < |db.executions| && ExecutionOk(db, db.executions[i])
    ensures i < |Apply(db, op).executions| && Apply(db, op).executions[i] == db.executions[i]
    ensures ExecutionOk(Apply(db, op), db.executions[i])
  {
  }

  lemma {:induction false} RunKeeps(ops: seq<Op>, db: Db)
    requires Run(ops, db)
    ensures Inv(db)
    decreases |ops|
  {
    if ops != [] {
      var n := |ops| - 1;
      var b :| Run(ops[..n], b) && Admitted(b, ops[n]) && db == Apply(b, ops[n]);
      RunKeeps(ops[..n], b);
      StepKeeps(b, ops[n]);
    }
  }

  // ------------------------------------------------------------------ what every run guarantees

  /** A vote in a request's record was cast by a decide operation of that run. */
  lemma {:induction false} VotesWereCast(ops: seq<Op>, db: Db, id: string, v: Vote)
    requires Run(ops, db) && id in db.requests && v in db.requests[id].votes
    ensures exists k :: 0 <= k < |ops| && ops[k].DecideOp? && ops[k].id == id
                        && v == Vote(ops[k].actor, ops[k].d, ops[k].now)
    decreases |ops|
  {
    if ops != [] {
      var n := |ops| - 1;
      var b :| Run(ops[..n], b) && Admitted(b, ops[n]) && db == Apply(b, ops[n]);
      if id in b.requests && v in b.requests[id].votes {
        VotesWereCast(ops[..n], b, id, v);
        var k :| 0 <= k < n && ops[..n][k].DecideOp? && ops[..n][k].id == id
                 && v == Vote(ops[..n][k].actor, ops[..n][k].d, ops[..n][k].now);
        assert ops[k] == ops[..n][k];
      } else {
        VoteIsNew(b, ops[n], id, v);
      }
    }
  }

  lemma VoteIsNew(b: Db, op: Op, id: string, v: Vote)
    requires id in Apply(b, op).requests && v in Apply(b, op).requests[id].votes
    requires id in b.requests ==> v !in b.requests[id].votes
    ensures op.DecideOp? && op.id == id && v == Vote(op.actor, op.d, op.now)
  {
  }

  /** APPROVED means that at least the required number of different people, none of them the
  applicant, each approved before the request expired. */
  lemma ApprovedByQuorum(ops: seq<Op>, db: Db, id: string) returns (who: set<string>)
    requires Run(ops, db) && id in db.requests && db.requests[id].status == Approved
    ensures |who| >= db.requests[id].required >= 1
    ensures forall u :: u in who ==>
      u != db.requests[id].applicant && exists t :: t < db.requests[id].expiresAt && Vote(u, Approve, t) in db.requests[id].votes
  {
    RunKeeps(ops, db);
    var q := db.requests[id];
    assert RequestOk(q);
    who := Deciders(q.tasks, Approve);
    DecidersCounted(q.tasks, Approve);
    forall u | u in who ensures u != q.applicant && exists t :: t < q.expiresAt && Vote(u, Approve, t) in q.votes {
      var i :| 0 <= i < |q.tasks| && q.tasks[i].decision == Approve && q.tasks[i].assignee == u;
      var t :| Vote(q.tasks[i].assignee, q.tasks[i].decision, t) in q.votes;
      assert Vote(u, Approve, t).at < q.expiresAt;
    }
  }

  /** REJECTED exactly when an assignee rejected; assignees are distinct and never the applicant. */
  lemma RejectedByAssignee(ops: seq<Op>, db: Db, id: string)
    requires Run(ops, db) && id in db.requests
    ensures var q := db.requests[id];
            && (q.status == Rejected <==> exists i :: 0 <= i < |q.tasks| && q.tasks[i].decision == Reject)
            && TasksOk(q)
  {
    RunKeeps(ops, db);
    assert RequestOk(db.requests[id]);
    CountSome(db.requests[id].tasks, Reject);
  }

  /** An approval is executed at most once, by its applicant, while approved and unexpired, for the
  digest that was approved. */
  lemma {:induction false} ExecutedOnce(ops: seq<Op>, db: Db, i: nat, j: nat)
    requires Run(ops, db) && i < |db.executions| && j < |db.executions|
    requires db.executions[i].request == db.executions[j].request
    ensures i == j && ExecutionOk(db, db.executions[i])
  {
    RunKeeps(ops, db);
  }

  lemma DigestStep(digest: seq<string> -> string, b: Db, op: Op, id: string)
    requires Admitted(b, op) && id in Apply(b, op).requests
    requires op.Create? ==> op.q.digest == digest(op.q.command)
    requires id in b.requests ==> b.requests[id].digest == digest(b.requests[id].command)
    ensures Apply(b, op).requests[id].digest == digest(Apply(b, op).requests[id].command)
  {
  }

  /** The service stores the digest of the command, and no operation changes either. */
  lemma {:induction false} DigestsStay(digest: seq<string> -> string, ops: seq<Op>, db: Db, id: string)
    requires forall op :: op in ops && op.Create? ==> op.q.digest == digest(op.q.command)
    requires Run(ops, db) && id in db.requests
    ensures db.requests[id].digest == digest(db.requests[id].command)
    decreases |ops|
  {
    if ops != [] {
      var n := |ops| - 1;
      var b :| Run(ops[..n], b) && Admitted(b, ops[n]) && db == Apply(b, ops[n]);
      if id in b.requests { DigestsStay(digest, ops[..n], b, id); }
      DigestStep(digest, b, ops[n], id);
    }
  }

  /** With an injective digest, the executed command is the approved one, field by field. */
  lemma ExecutedWhatWasApproved(digest: seq<string> -> string, ops: seq<Op>, db: Db, i: nat, command: seq<string>)
    requires forall x, y :: digest(x) == digest(y) ==> x == y
    requires forall op :: op in ops && op.Create? ==> op.q.digest == digest(op.q.command)
    requires Run(ops, db) && i < |db.executions| && db.executions[i].digest == digest(command)
    ensures db.executions[i].request in db.requests && db.requests[db.executions[i].request].command == command
  {
    RunKeeps(ops, db);
    assert ExecutionOk(db, db.executions[i]);
    DigestsStay(digest, ops, db, db.executions[i].request);
  }

  // ------------------------------------------------------------------ the repository's methods

  class Repo {
    var requests: map<string, Request>
    var executions: seq<Execution>

    constructor ()
      ensures State() == EMPTY
    {
      requests, executions := map[], [];
    }

    ghost function State(): Db
      reads this
    {
      Db(requests, executions)
    }

    /** Refuses unless applicant and approvers are active and the id is new; then inserts the request and its
    tasks. */
    method Create(id: string, q: Request, approvers: seq<string>, active: set<string>) returns (ok: bool)
      modifies this
      ensures ok <==> id !in old(requests) && q.applicant in active && forall i :: 0 <= i < |approvers| ==> approvers[i] in active
      ensures forall mode, now :: State() == Apply(old(State()), Op.Create(id, q, mode, approvers, active, now))
      ensures ok ==> id in requests && requests[id] == q.(status := Pending, votes := {}, tasks := requests[id].tasks)
      ensures ok ==>
        && |requests[id].tasks| == |approvers|
        && forall i :: 0 <= i < |approvers| ==> requests[id].tasks[i] == Task(approvers[i], Open, Undecided)
    {
      if q.applicant !in active {
        return false;
      }
      for i := 0 to |approvers|
        invariant forall k :: 0 <= k < i ==> approvers[k] in active
        invariant unchanged(this)
      {
        if approvers[i] !in active {
          return false;
        }
      }
      if id in requests {
        return false;
      }
      var tasks := [];
      for i := 0 to |approvers|
        invariant |tasks| == i && forall k :: 0 <= k < i ==> tasks[k] == Task(approvers[k], Open, Undecided)
        invariant unchanged(this)
      {
        tasks := tasks + [Task(approvers[i], Open, Undecided)];
      }
      assert tasks == Opened(q, approvers).tasks;
      requests := requests[id := q.(status := Pending, tasks := tasks, votes := {})];
      return true;
    }

    /** Runs the expiry update, then returns the row. */
    method ByID(org: string, id: string, now: int) returns (r: Result<Request>)
      modifies this
      ensures State() == Apply(old(State()), Read(id, org, now))
      ensures r == if id in old(requests) && old(requests)[id].org == org then Ok(requests[id]) else Err(NoRows)
      ensures r.Ok? ==> !(r.value.status == Pending && r.value.expiresAt <= now)
      ensures r.Ok? ==>
        var was := old(requests)[id];
        r.value == was.(status := if was.status == Pending && was.expiresAt <= now then Expired else was.status)
    {
      if id !in requests || requests[id].org != org {
        return Err(NoRows);
      }
      if requests[id].status == Pending && requests[id].expiresAt <= now {
        requests := requests[id := requests[id].(status := Expired)];
      } else {
        assert requests == requests[id := requests[id]];
      }
      return Ok(requests[id]);
    }

    method Decide(org: string, id: string, actor: string, d: Decision, now: int) returns (error: Result<()>)
      modifies this
      ensures State() == Apply(old(State()), DecideOp(id, org, actor, d, now))
      ensures error == Answered(old(State()), DecideOp(id, org, actor, d, now))
      ensures error.Ok? <==>
        && id in old(requests) && old(requests)[id].org == org
        && var q := old(requests)[id];
        && q.status == Pending && now < q.expiresAt && actor != q.applicant
        && exists i :: 0 <= i < |q.tasks| && q.tasks[i].assignee == actor && q.tasks[i].status == Open
                       && forall k :: 0 <= k < i ==> q.tasks[k].assignee != actor
      ensures error.Err? ==> unchanged(this)
    {
      if id !in requests || requests[id].org != org {
        return Err(NoRows);
      }
      var q := requests[id];
      if q.status != Pending || q.expiresAt <= now {
        return Err(NotPending);
      }
      if q.applicant == actor {
        return Err(MakerChecker);
      }
      var i := TaskOf(q.tasks, actor);
      if i == |q.tasks| {
        return Err(NotAssigned);
      }
      if q.tasks[i].status != Open {
        return Err(NotPending);
      }
      q := q.(tasks := q.tasks[i := q.tasks[i].(status := Decided, decision := d)], votes := q.votes + {Vote(actor, d, now)});
      var approved, rejected, pending := Count(q.tasks, Approve), Count(q.tasks, Reject), CountOpen(q.tasks);
      q := q.(status := ResolveStatus(q.required, approved, rejected, pending));
      if q.status != Pending {
        q := q.(tasks := CancelOpen(q.tasks));
      }
      requests := requests[id := q];
      return Ok(());
    }

    method Transfer(org: string, id: string, actor: string, to: string, active: set<string>, now: int)
      returns (error: Result<()>)
      modifies this
      ensures State() == Apply(old(State()), TransferOp(id, org, actor, to, active, now))
      ensures error == Answered(old(State()), TransferOp(id, org, actor, to, active, now))
      ensures error.Ok? <==>
        && id in old(requests) && old(requests)[id].org == org
        && var q := old(requests)[id];
        && q.status == Pending && now < q.expiresAt && to != q.applicant && to in active
        && (forall k :: 0 <= k < |q.tasks| ==> q.tasks[k].assignee != to)
        && exists i :: 0 <= i < |q.tasks| && q.tasks[i].assignee == actor && q.tasks[i].status == Open
                       && forall k :: 0 <= k < i ==> q.tasks[k].assignee != actor
      ensures error.Err? ==> unchanged(this)
    {
      if id !in requests || requests[id].org != org {
        return Err(NoRows);
      }
      var q := requests[id];
      if q.status != Pending || q.expiresAt <= now {
        return Err(NotPending);
      }
      if to == q.applicant {
        return Err(MakerChecker);
      }
      if to !in active {
        return Err(NoRows);
      }
      var i := TaskOf(q.tasks, actor);
      if i == |q.tasks| {
        return Err(NotAssigned);
      }
      if q.tasks[i].status != Open {
        return Err(NotPending);
      }
      if TaskOf(q.tasks, to) < |q.tasks| {
        return Err(Invalid);
      }
      requests := requests[id := q.(tasks := q.tasks[i := q.tasks[i].(assignee := to)])];
      return Ok(());
    }

    method Withdraw(org: string, id: string, actor: string) returns (error: Result<()>)
      modifies this
      ensures State() == Apply(old(State()), WithdrawOp(id, org, actor))
      ensures error == Answered(old(State()), WithdrawOp(id, org, actor))
      ensures error.Ok? <==> id in old(requests) && old(requests)[id].org == org &&
                             old(requests)[id].applicant == actor && old(requests)[id].status == Pending
      ensures error.Ok? ==> id in requests && requests[id].status == Withdrawn
      ensures error.Err? ==> unchanged(this)
    {
      if id !in requests || requests[id].org != org || requests[id].applicant != actor {
        return Err(NoRows);
      }
      if requests[id].status != Pending {
        return Err(NotPending);
      }
      requests := requests[id := requests[id].(status := Withdrawn)];
      requests := requests[id := requests[id].(tasks := CancelOpen(requests[id].tasks))];
      return Ok(());
    }

    method ClaimExecution(org: string, id: string, actor: string, digest: string, now: int) returns (error: Result<()>)
      modifies this
      ensures State() == Apply(old(State()), ClaimOp(id, org, actor, digest, now))
      ensures error == Answered(old(State()), ClaimOp(id, org, actor, digest, now))
      ensures error.Ok? <==>
        && id in old(requests) && old(requests)[id].org == org
        && var q := old(requests)[id];
        && q.applicant == actor && q.status == Approved && now < q.expiresAt && q.digest == digest
        && forall i :: 0 <= i < |old(executions)| ==> old(executions)[i].request != id
      ensures requests == old(requests)
      ensures executions == old(executions) + if error.Ok? then [Execution(id, actor, digest, now)] else []
    {
      if id !in requests || requests[id].org != org {
        return Err(NoRows);
      }
      var q := requests[id];
      if q.applicant != actor {
        return Err(MakerChecker);
      }
      if q.status != Approved || q.expiresAt <= now {
        return Err(NotPending);
      }
      if q.digest != digest {
        return Err(DigestMismatch);
      }
      if Executed(executions, id) {
        return Err(AlreadyExecuted);
      }
      executions := executions + [Execution(id, actor, digest, now)];
      return Ok(());
    }
  }
}
