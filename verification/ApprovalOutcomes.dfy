/** What an approval request does when people act on it: which operations are accepted, what each changes, and
that requests do get approved and rejected. */
module ApprovalOutcomes {
  import opened Approval

  lemma OneTask(q: Request, actor: string, i: nat)
    requires TasksOk(q) && i < |q.tasks| && q.tasks[i].assignee == actor
    ensures TaskOf(q.tasks, actor) == i
  {
  }

  /** A decision is accepted if and only if the request is pending and unexpired and an open task belongs to the
  actor, who is not the applicant. */
  lemma DecideIff(q: Request, actor: string, d: Decision, now: int)
    requires RequestOk(q)
    ensures Decide(q, actor, d, now).Ok? <==>
            && q.status == Pending && now < q.expiresAt && actor != q.applicant
            && exists i :: 0 <= i < |q.tasks| && q.tasks[i].assignee == actor && q.tasks[i].status == Open
  {
    if i :| 0 <= i < |q.tasks| && q.tasks[i].assignee == actor && q.tasks[i].status == Open { OneTask(q, actor, i); }
  }

  lemma DecideTasks(q: Request, actor: string, d: Decision, now: int)
    requires TasksOk(q) && Decide(q, actor, d, now).Ok?
    ensures var n := Decide(q, actor, d, now).value;
      && n == q.(tasks := n.tasks, status := n.status, votes := q.votes + {Vote(actor, d, now)})
      && |n.tasks| == |q.tasks|
      && (forall i :: 0 <= i < |q.tasks| && q.tasks[i].assignee == actor ==> n.tasks[i] == Task(actor, Decided, d))
      && (forall i :: 0 <= i < |q.tasks| && q.tasks[i].assignee != actor ==>
            n.tasks[i] == if q.tasks[i].status == Open && n.status != Pending then q.tasks[i].(status := Cancelled) else q.tasks[i])
  {
    var k := TaskOf(q.tasks, actor);
    forall i | 0 <= i < |q.tasks| && q.tasks[i].assignee == actor ensures i == k { OneTask(q, actor, i); }
  }

  lemma DecideStatus(q: Request, actor: string, d: Decision, now: int)
    requires RequestOk(q) && d != Undecided && Decide(q, actor, d, now).Ok?
    ensures var n := Decide(q, actor, d, now).value;
      n.status == if d == Reject then Rejected else if |Deciders(n.tasks, Approve)| >= q.required then Approved else Pending
  {
    var n, i := Decide(q, actor, d, now).value, TaskOf(q.tasks, actor);
    DecideResolves(q, i, d);
    SettleTasks(q, i, d, Vote(actor, d, now));
    CancelKeepsCounts(Marked(q.tasks, i, d));
    DecidersCounted(n.tasks, Approve);
  }

  /** An accepted decision settles exactly the actor's task; a rejection rejects the request, the approval that
  completes the required number approves it, and only settling cancels what is still open. */
  lemma DecideEffect(q: Request, actor: string, d: Decision, now: int)
    requires RequestOk(q) && d != Undecided && Decide(q, actor, d, now).Ok?
    ensures var n := Decide(q, actor, d, now).value;
      && n == q.(tasks := n.tasks, status := n.status, votes := q.votes + {Vote(actor, d, now)})
      && |n.tasks| == |q.tasks|
      && (forall i :: 0 <= i < |q.tasks| ==> n.tasks[i].assignee == q.tasks[i].assignee)
      && (forall i :: 0 <= i < |q.tasks| && q.tasks[i].assignee == actor ==> n.tasks[i] == Task(actor, Decided, d))
      && (forall i :: 0 <= i < |q.tasks| && q.tasks[i].assignee != actor ==>
            && n.tasks[i].decision == q.tasks[i].decision
            && n.tasks[i].status == if q.tasks[i].status == Open && n.status != Pending then Cancelled else q.tasks[i].status)
      && n.status == (if d == Reject then Rejected
                      else if |set i | 0 <= i < |n.tasks| && n.tasks[i].decision == Approve :: n.tasks[i].assignee| >= q.required
                      then Approved else Pending)
  {
    DecideTasks(q, actor, d, now);
    DecideStatus(q, actor, d, now);
    var n := Decide(q, actor, d, now).value;
    assert Deciders(n.tasks, Approve) == set i | 0 <= i < |n.tasks| && n.tasks[i].decision == Approve :: n.tasks[i].assignee;
  }

  /** A transfer is accepted exactly from the holder of an open task of a pending, unexpired request to an active
  user who is neither the applicant nor an assignee, and changes that task's assignee. */
  lemma TransferIff(q: Request, actor: string, to: string, active: set<string>, now: int)
    requires RequestOk(q)
    ensures Transfer(q, actor, to, active, now).Ok? <==>
            && q.status == Pending && now < q.expiresAt && to != q.applicant && to in active
            && (exists i :: 0 <= i < |q.tasks| && q.tasks[i].assignee == actor && q.tasks[i].status == Open)
            && (forall i :: 0 <= i < |q.tasks| ==> q.tasks[i].assignee != to)
    ensures Transfer(q, actor, to, active, now).Ok? ==>
      var n := Transfer(q, actor, to, active, now).value;
      && n == q.(tasks := n.tasks) && |n.tasks| == |q.tasks|
      && forall i :: 0 <= i < |q.tasks| ==>
           n.tasks[i] == if q.tasks[i].assignee == actor then Task(to, Open, Undecided) else q.tasks[i]
  {
    if i :| 0 <= i < |q.tasks| && q.tasks[i].assignee == actor && q.tasks[i].status == Open {
      OneTask(q, actor, i);
      assert TaskOk(q.tasks[i]);
    }
  }

  /** Only the applicant withdraws, only while the request is pending; what is open is cancelled. */
  lemma WithdrawIff(q: Request, actor: string)
    ensures Withdraw(q, actor).Ok? <==> q.applicant == actor && q.status == Pending
    ensures Withdraw(q, actor).Ok? ==>
      var n := Withdraw(q, actor).value;
      && n == q.(status := Withdrawn, tasks := n.tasks) && |n.tasks| == |q.tasks|
      && forall i :: 0 <= i < |q.tasks| ==>
           n.tasks[i] == if q.tasks[i].status == Open then q.tasks[i].(status := Cancelled) else q.tasks[i]
  {
  }

  // ------------------------------------------------------------------ runs

  lemma Snoc(ops: seq<Op>, b: Db, op: Op)
    requires Run(ops, b) && Admitted(b, op)
    ensures Run(ops + [op], Apply(b, op))
  {
    assert (ops + [op])[..|ops|] == ops;
  }

  /** A fresh request. */
  lemma Filed(id: string, q: Request, mode: Mode, approvers: seq<string>, active: set<string>, now: int) returns (ops: seq<Op>, db: Db)
    requires CreationValid(q, mode, approvers, now) && q.applicant in active && forall i :: 0 <= i < |approvers| ==> approvers[i] in active
    ensures Run(ops, db) && id in db.requests && db.requests[id] == q.(status := Pending, votes := {}, tasks := db.requests[id].tasks)
    ensures RequestOk(db.requests[id]) && |db.requests[id].tasks| == |approvers|
    ensures forall i :: 0 <= i < |approvers| ==> db.requests[id].tasks[i] == Task(approvers[i], Open, Undecided)
  {
    var create := Op.Create(id, q, mode, approvers, active, now);
    assert Run([], EMPTY);
    Snoc([], EMPTY, create);
    ops, db := [] + [create], Apply(EMPTY, create);
    FiledRow(id, q, mode, approvers, active, now);
    OpenedOk(q, mode, approvers, now);
  }

  lemma FiledRow(id: string, q: Request, mode: Mode, approvers: seq<string>, active: set<string>, now: int)
    requires q.applicant in active && forall i :: 0 <= i < |approvers| ==> approvers[i] in active
    ensures var db := Apply(EMPTY, Op.Create(id, q, mode, approvers, active, now));
            id in db.requests && db.requests[id] == Opened(q, approvers)
  {
  }

  lemma DecidedRow(b: Db, id: string, actor: string, d: Decision, at: int)
    requires id in b.requests && Decide(b.requests[id], actor, d, at).Ok?
    ensures var db := Apply(b, DecideOp(id, b.requests[id].org, actor, d, at));
            id in db.requests && db.requests[id] == Decide(b.requests[id], actor, d, at).value
  {
  }

  /** One assignee's rejection ends a fresh request as REJECTED, whatever the number of approvals asked for. */
  lemma OneRejectionRejects(id: string, q: Request, mode: Mode, approvers: seq<string>, active: set<string>, now: int, i: nat, at: int)
    returns (ops: seq<Op>, db: Db)
    requires CreationValid(q, mode, approvers, now) && q.applicant in active && forall k :: 0 <= k < |approvers| ==> approvers[k] in active
    requires i < |approvers| && at < q.expiresAt
    ensures Run(ops, db) && id in db.requests && db.requests[id].status == Rejected
  {
    var before, b := Filed(id, q, mode, approvers, active, now);
    var op := DecideOp(id, q.org, approvers[i], Reject, at);
    var r := b.requests[id];
    assert r.tasks[i].assignee == approvers[i] && r.tasks[i].status == Open;
    DecideIff(r, approvers[i], Reject, at);
    DecideEffect(r, approvers[i], Reject, at);
    DecidedRow(b, id, approvers[i], Reject, at);
    Snoc(before, b, op);
    ops, db := before + [op], Apply(b, op);
  }

  /** After `k` approvals of a fresh request. */
  predicate Approving(q: Request, approvers: seq<string>, k: nat) {
    && |q.tasks| == |approvers| && k <= q.required <= |approvers|
    && (forall i :: 0 <= i < |approvers| ==> q.tasks[i].assignee == approvers[i])
    && (forall i :: 0 <= i < |approvers| ==> q.tasks[i].decision == if i < k then Approve else Undecided)
    && (k < q.required ==> q.status == Pending && forall i :: k <= i < |approvers| ==> q.tasks[i].status == Open)
    && (k == q.required ==> q.status == Approved)
  }

  lemma FirstApprovers(tasks: seq<Task>, approvers: seq<string>, k: nat)
    requires |tasks| == |approvers| && k <= |approvers| && Distinct(approvers)
    requires forall i :: 0 <= i < |tasks| ==> tasks[i].assignee == approvers[i] && (tasks[i].decision == Approve <==> i < k)
    ensures |set i | 0 <= i < |tasks| && tasks[i].decision == Approve :: tasks[i].assignee| == k
  {
    DistinctPrefix(approvers, k);
    assert (set i | 0 <= i < |tasks| && tasks[i].decision == Approve :: tasks[i].assignee) == set i | 0 <= i < k :: approvers[i];
  }

  lemma {:induction false} DistinctPrefix(users: seq<string>, k: nat)
    requires k <= |users| && Distinct(users)
    ensures |set i | 0 <= i < k :: users[i]| == k
  {
    if k > 0 {
      DistinctPrefix(users, k - 1);
      assert (set i | 0 <= i < k :: users[i]) == (set i | 0 <= i < k - 1 :: users[i]) + {users[k - 1]};
    }
  }

  lemma NextApproval(q: Request, approvers: seq<string>, k: nat, at: int)
    requires RequestOk(q) && Distinct(approvers) && Approving(q, approvers, k) && k < q.required && at < q.expiresAt
    ensures Decide(q, approvers[k], Approve, at).Ok? && Approving(Decide(q, approvers[k], Approve, at).value, approvers, k + 1)
  {
    assert q.tasks[k].assignee == approvers[k] && q.tasks[k].status == Open;
    DecideIff(q, approvers[k], Approve, at);
    DecideEffect(q, approvers[k], Approve, at);
    var n := Decide(q, approvers[k], Approve, at).value;
    FirstApprovers(n.tasks, approvers, k + 1);
  }

  /** As many approvals as required end a fresh request as APPROVED, and no fewer do. */
  lemma {:induction false} EnoughApprovalsApprove(id: string, q: Request, mode: Mode, approvers: seq<string>, active: set<string>, now: int, k: nat, at: int)
    returns (ops: seq<Op>, db: Db)
    requires CreationValid(q, mode, approvers, now) && q.applicant in active && forall i :: 0 <= i < |approvers| ==> approvers[i] in active
    requires k <= q.required && at < q.expiresAt
    ensures Run(ops, db) && id in db.requests && db.requests[id].status == if k == q.required then Approved else Pending
    ensures Approving(db.requests[id], approvers, k) && RequestOk(db.requests[id])
    ensures db.requests[id].org == q.org && db.requests[id].expiresAt == q.expiresAt && db.requests[id].required == q.required
    decreases k
  {
    if k == 0 {
      ops, db := Filed(id, q, mode, approvers, active, now);
    } else {
      var before, b := EnoughApprovalsApprove(id, q, mode, approvers, active, now, k - 1, at);
      var r, op := b.requests[id], DecideOp(id, q.org, approvers[k - 1], Approve, at);
      NextApproval(r, approvers, k - 1, at);
      DecideEffect(r, approvers[k - 1], Approve, at);
      DecideOk(r, approvers[k - 1], Approve, at);
      DecidedRow(b, id, approvers[k - 1], Approve, at);
      Snoc(before, b, op);
      ops, db := before + [op], Apply(b, op);
    }
  }
}
