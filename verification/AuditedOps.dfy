/** Transactions that join the enclosing one, the audited wrapper around business operations, and what
they give together with one-shot approval tickets. */
module AuditedOps {
  import opened Approval

  /** What a statement sequence leaves behind, and whether it returned an error. */
  datatype Outcome<S> = Outcome(state: S, ok: bool)

  function Then<S>(f: S -> Outcome<S>, g: S -> Outcome<S>): S -> Outcome<S> {
    s => if f(s).ok then g(f(s).state) else f(s)
  }

  class Database<S(0)> {
    var committed: S
    var working: S
    var open: bool

    constructor (initial: S)
      ensures committed == initial && !open
    {
      committed, working, open := initial, initial, false;
    }

    /** WithTx and WithinTx: inside a transaction the function simply runs in it; outside, the function
    runs in a new one that commits only if the function succeeds and the commit goes through. */
    method WithinTx(fn: S -> Outcome<S>, commitOk: bool) returns (ok: bool)
      modifies this
      ensures open == old(open)
      ensures old(open) ==>
        committed == old(committed) && working == fn(old(working)).state && ok == fn(old(working)).ok
      ensures !old(open) ==> ok == (fn(old(committed)).ok && commitOk)
      ensures !old(open) ==> committed == if ok then fn(old(committed)).state else old(committed)
    {
      if open {
        var r := fn(working);
        working := r.state;
        return r.ok;
      }
      open, working := true, committed;
      var r := fn(working);
      working := r.state;
      if r.ok && commitOk {
        committed := working;
        ok := true;
      } else {
        ok := false;
      }
      open := false;
    }

    /** A transaction whose body makes two nested transactional calls: both take effect or neither. */
    method NestedCalls(f: S -> Outcome<S>, g: S -> Outcome<S>, commitOk: bool) returns (ok: bool)
      requires !open
      modifies this
      ensures !open
      ensures ok == (Then(f, g)(old(committed)).ok && commitOk)
      ensures committed == if ok then Then(f, g)(old(committed)).state else old(committed)
    {
      open, working := true, committed;
      ok := WithinTx(f, true);
      if ok {
        ok := WithinTx(g, true);
      }
      if ok && commitOk {
        committed := working;
      } else {
        ok := false;
      }
      open := false;
    }

    /** The audited wrapper: the operation and its success event commit together; otherwise neither is
    kept, and at most the failure event is added in a transaction of its own. Inside an open transaction it
    joins: all of it stays or goes with that transaction. */
    method Audited(operation: S -> Outcome<S>, success: S -> Outcome<S>, failure: S -> Outcome<S>,
                   commitOk: bool, failureCommitOk: bool) returns (ok: bool)
      modifies this
      ensures open == old(open)
      ensures old(open) ==>
        var r := Then(operation, success)(old(working));
        committed == old(committed) && ok == r.ok && working == if ok then r.state else failure(r.state).state
      ensures !old(open) ==>
        var r := Then(operation, success)(old(committed));
        && (ok <==> r.ok && commitOk) && (ok ==> committed == r.state)
        && (!ok ==> committed == if failure(old(committed)).ok && failureCommitOk then failure(old(committed)).state else old(committed))
      ensures !old(open) ==> Outcome(committed, ok) == AuditedResult(old(committed), operation, success, failure, commitOk, failureCommitOk)
    {
      ok := WithinTx(Then(operation, success), commitOk);
      if ok {
        return true;
      }
      var recorded := WithinTx(failure, failureCommitOk);
      return false;
    }
  }

  function AuditedResult<S>(s: S, operation: S -> Outcome<S>, success: S -> Outcome<S>, failure: S -> Outcome<S>,
                            commitOk: bool, failureCommitOk: bool): Outcome<S> {
    var r := Then(operation, success)(s);
    if r.ok && commitOk then Outcome(r.state, true)
    else if failure(s).ok && failureCommitOk then Outcome(failure(s).state, false)
    else Outcome(s, false)
  }

  // ------------------------------------------------------------------ tickets, changes and events

  datatype Event = Event(approval: string, success: bool)

  /** Approval tables, business changes (by the approval that allowed them) and audit events. */
  datatype System = System(db: Db, changes: seq<string>, log: seq<Event>)

  const START := System(EMPTY, [], [])

  /** One gated call: who asks, and which of its parts fail. */
  datatype Call = Call(
    id: string, org: string, actor: string, digest: string, now: int,
    businessOk: bool, eventOk: bool, failureOk: bool, commitOk: bool, failureCommitOk: bool)

  /** Take the ticket, then make the change; a failing change leaves the taken ticket in the transaction. */
  function Operation(c: Call): System -> Outcome<System> {
    (s: System) =>
      match Claim(s.db, c.org, c.id, c.actor, c.digest, c.now)
      case Err(_) => Outcome(s, false)
      case Ok(db) =>
        if c.businessOk then Outcome(s.(db := db, changes := s.changes + [c.id]), true)
        else Outcome(s.(db := db), false)
  }

  function Record(c: Call, success: bool, ok: bool): System -> Outcome<System> {
    (s: System) => Outcome(s.(log := s.log + [Event(c.id, success)]), ok)
  }

  function Gated(s: System, c: Call): System {
    AuditedResult(s, Operation(c), Record(c, true, c.eventOk), Record(c, false, c.failureOk),
                  c.commitOk, c.failureCommitOk).state
  }

  datatype Step = Execute(call: Call) | Approve(op: Op)

  ghost predicate Run(steps: seq<Step>, s: System)
    decreases |steps|
  {
    if steps == [] then s == START
    else
      var n := |steps| - 1;
      exists r :: Run(steps[..n], r) && Next(r, steps[n], s)
  }

  ghost predicate Next(r: System, step: Step, s: System) {
    match step
    case Execute(c) => s == Gated(r, c)
    case Approve(op) => !op.ClaimOp? && Admitted(r.db, op) && s == r.(db := Apply(r.db, op))
  }

  function Tickets(executions: seq<Execution>): seq<string> {
    if executions == [] then [] else Tickets(executions[..|executions| - 1]) + [executions[|executions| - 1].request]
  }

  function Successes(log: seq<Event>): seq<string> {
    if log == [] then []
    else
      var e := log[|log| - 1];
      Successes(log[..|log| - 1]) + if e.success then [e.approval] else []
  }

  /** One gated call either adds one ticket, one change and one success event, all for the same approval,
  or changes none of these and adds at most one failure event. */
  lemma AllOrNothing(s: System, c: Call)
    ensures var t := Gated(s, c);
      || (&& |t.db.executions| == |s.db.executions| + 1 && t.db.executions[|s.db.executions|].request == c.id
          && t.db.executions[..|s.db.executions|] == s.db.executions && t.db.requests == s.db.requests
          && t.changes == s.changes + [c.id] && t.log == s.log + [Event(c.id, true)])
      || (t.db == s.db && t.changes == s.changes && (t.log == s.log || t.log == s.log + [Event(c.id, false)]))
  {
  }

  /** It succeeds exactly when the ticket is due and every part goes through; otherwise the failure event is
  written if that part does. */
  lemma SucceedsIff(s: System, c: Call)
    ensures var succeeds :=
              && c.id in s.db.requests && s.db.requests[c.id].org == c.org && s.db.requests[c.id].applicant == c.actor
              && s.db.requests[c.id].status == Approved && c.now < s.db.requests[c.id].expiresAt && s.db.requests[c.id].digest == c.digest
              && (forall i :: 0 <= i < |s.db.executions| ==> s.db.executions[i].request != c.id)
              && c.businessOk && c.eventOk && c.commitOk;
            Gated(s, c).log == s.log + if succeeds then [Event(c.id, true)] else if c.failureOk && c.failureCommitOk then [Event(c.id, false)] else []
  {
  }

  /** In every run, tickets taken, changes made and success events written are the same list. */
  lemma {:induction false} LedgersAgree(steps: seq<Step>, s: System)
    requires Run(steps, s)
    ensures Tickets(s.db.executions) == s.changes == Successes(s.log)
    ensures Inv(s.db)
    decreases |steps|
  {
    if steps != [] {
      var n := |steps| - 1;
      var r :| Run(steps[..n], r) && Next(r, steps[n], s);
      LedgersAgree(steps[..n], r);
      match steps[n]
      case Execute(c) => GatedAgrees(r, c);
      case Approve(op) => StepKeeps(r.db, op);
    }
  }

  lemma GatedAgrees(r: System, c: Call)
    requires Tickets(r.db.executions) == r.changes == Successes(r.log) && Inv(r.db)
    ensures Tickets(Gated(r, c).db.executions) == Gated(r, c).changes == Successes(Gated(r, c).log)
    ensures Inv(Gated(r, c).db)
  {
    AllOrNothing(r, c);
    SameLedgers(r, Gated(r, c), c.id);
    GatedDb(r, c);
    StepKeeps(r.db, ClaimOp(c.id, c.org, c.actor, c.digest, c.now));
  }

  lemma SameLedgers(s: System, t: System, id: string)
    requires Tickets(s.db.executions) == s.changes == Successes(s.log)
    requires || (|t.db.executions| == |s.db.executions| + 1 && t.db.executions[|s.db.executions|].request == id
                 && t.db.executions[..|s.db.executions|] == s.db.executions
                 && t.changes == s.changes + [id] && t.log == s.log + [Event(id, true)])
             || (t.db == s.db && t.changes == s.changes && (t.log == s.log || t.log == s.log + [Event(id, false)]))
    ensures Tickets(t.db.executions) == t.changes == Successes(t.log)
  {
    assert t.log != s.log ==> t.log[..|t.log| - 1] == s.log;
  }

  lemma GatedDb(s: System, c: Call)
    ensures Gated(s, c).db == s.db || Gated(s, c).db == Apply(s.db, ClaimOp(c.id, c.org, c.actor, c.digest, c.now))
  {
  }

  lemma {:induction false} TicketAt(executions: seq<Execution>, i: nat)
    requires i < |executions|
    ensures |Tickets(executions)| == |executions| && Tickets(executions)[i] == executions[i].request
  {
    var n := |executions| - 1;
    if n > 0 { TicketAt(executions[..n], if i < n then i else 0); }
  }

  lemma {:induction false} TicketsLength(executions: seq<Execution>)
    ensures |Tickets(executions)| == |executions|
  {
    if executions != [] { TicketsLength(executions[..|executions| - 1]); }
  }

  /** So no approval ever pays for two business changes, whatever fails along the way. */
  lemma OneChangePerApproval(steps: seq<Step>, s: System, i: nat, j: nat)
    requires Run(steps, s) && i < |s.changes| && j < |s.changes| && s.changes[i] == s.changes[j]
    ensures i == j
  {
    LedgersAgree(steps, s);
    TicketsLength(s.db.executions);
    TicketAt(s.db.executions, i);
    TicketAt(s.db.executions, j);
  }
}
