/** What a release record says: which operations are accepted, what each writes, and where the evidence and the
reasons in it come from. */
module ReleaseRecords {
  import opened Wrappers
  import opened Release
  import opened ReleaseRuns

  /** Each operation needs its own state and a named actor; votes need a new voter other than the requester,
  the start needs the window, and evidence and reasons must not be blank. */
  lemma AcceptedIff(trim: Trim, op: Op, r: Record, now: int)
    ensures TheRules(trim).decide(op, r, now).Ok? <==>
      && trim(op.actor) != ""
      && match op
         case RequestApproval(actor) => r.state == Draft
         case Approve(who) => r.state == PendingApproval && who != r.req.requestedBy && who !in r.approvers
         case Begin(actor) => r.state == State.Approved && r.req.windowStart <= now < r.req.windowEnd
         case Succeed(actor, evidence) => r.state == Executing && trim(evidence) != ""
         case Fail(actor, reason) => r.state == Executing && trim(reason) != ""
         case RequestRollback(actor, reason) => r.state == Succeeded && trim(reason) != ""
         case ApproveRollback(who) => r.state == RollbackRequested && who != r.req.requestedBy && who !in r.rollbackApprovers
         case BeginRollback(actor) => r.state == RollbackApproved
         case CompleteRollback(actor, evidence) => r.state == RollingBack && trim(evidence) != ""
  {
  }

  /** Field by field: only Succeed writes the deployment evidence, only Fail and RequestRollback the reason, only
  CompleteRollback the rollback evidence, and only votes add voters. */
  lemma AcceptedWrites(trim: Trim, op: Op, r: Record, now: int)
    requires TheRules(trim).decide(op, r, now).Ok?
    ensures var n := TheRules(trim).decide(op, r, now).value.0;
      && n.req == r.req && n.createdAt == r.createdAt && n.updatedAt == now
      && n.deploymentEvidence == (if op.Succeed? then op.evidence else r.deploymentEvidence)
      && n.rollbackEvidence == (if op.CompleteRollback? then op.evidence else r.rollbackEvidence)
      && n.failureReason == (if op.Fail? || op.RequestRollback? then op.reason else r.failureReason)
      && n.approvers == r.approvers + (if op.Approve? then [op.actor] else [])
      && n.rollbackApprovers == (if op.RequestRollback? then [] else r.rollbackApprovers) + (if op.ApproveRollback? then [op.actor] else [])
    ensures var n := TheRules(trim).decide(op, r, now).value.0;
      n.state == match op
                 case RequestApproval(actor) => PendingApproval
                 case Approve(who) => if |r.approvers| + 1 >= r.req.requiredApprovals then State.Approved else PendingApproval
                 case Begin(actor) => Executing
                 case Succeed(actor, evidence) => Succeeded
                 case Fail(actor, reason) => Failed
                 case RequestRollback(actor, reason) => RollbackRequested
                 case ApproveRollback(who) =>
                   if |r.rollbackApprovers| + 1 >= r.req.requiredApprovals then RollbackApproved else RollbackRequested
                 case BeginRollback(actor) => RollingBack
                 case CompleteRollback(actor, evidence) => RolledBack
    ensures var e := TheRules(trim).decide(op, r, now).value.1;
      e.id == r.req.id && e.actor == op.actor && e.from == Some(r.state) && e.at == now
  {
  }

  /** A call of the controller files exactly what the operation writes, with its event, or changes nothing. */
  lemma PerformedWrites(trim: Trim, db: Db, id: string, op: Op, now: int)
    ensures var (t, r) := Performed(trim, db, id, op, now);
      if id in db.records && TheRules(trim).decide(op, db.records[id], now).Ok? then
        var p := TheRules(trim).decide(op, db.records[id], now).value;
        r == Ok(p.0) && t == Db(db.records[id := p.0], db.audit + [p.1])
      else r.Err? && t == db
  {
  }

  // ------------------------------------------------------------------ over runs

  predicate Deployed(s: State) {
    s == Succeeded || s == RollbackRequested || s == RollbackApproved || s == RollingBack || s == RolledBack
  }

  /** One of the first `i` steps wrote release `id` by an operation that passes `test`. */
  ghost predicate Wrote(worlds: seq<World>, steps: seq<Step>, i: nat, id: string, test: Op -> bool)
    requires i <= |steps| <= |worlds|
  {
    exists j :: 0 <= j < i && steps[j].Write? && steps[j].worker in worlds[j].held
                && worlds[j].held[steps[j].worker].req.id == id && test(steps[j].op)
  }

  function Success(trim: Trim, evidence: string): Op -> bool {
    (op: Op) => op.Succeed? && op.evidence == evidence && trim(evidence) != ""
  }

  function Failing(trim: Trim, reason: string): Op -> bool {
    (op: Op) => op.Fail? && op.reason == reason && trim(reason) != ""
  }

  function Rolling(trim: Trim, reason: string): Op -> bool {
    (op: Op) => op.RequestRollback? && op.reason == reason && trim(reason) != ""
  }

  function Completing(trim: Trim, evidence: string): Op -> bool {
    (op: Op) => op.CompleteRollback? && op.evidence == evidence && trim(evidence) != ""
  }

  /** Every field of evidence or reason is what the operation that wrote it was given, and empty before. */
  ghost predicate Sourced(trim: Trim, worlds: seq<World>, steps: seq<Step>, i: nat, r: Record)
    requires i <= |steps| <= |worlds|
  {
    && (if Deployed(r.state) then Wrote(worlds, steps, i, r.req.id, Success(trim, r.deploymentEvidence)) else r.deploymentEvidence == "")
    && (if r.state == Failed then Wrote(worlds, steps, i, r.req.id, Failing(trim, r.failureReason))
        else if Deployed(r.state) && r.state != Succeeded then Wrote(worlds, steps, i, r.req.id, Rolling(trim, r.failureReason))
        else r.failureReason == "")
    && (if r.state == RolledBack then Wrote(worlds, steps, i, r.req.id, Completing(trim, r.rollbackEvidence)) else r.rollbackEvidence == "")
  }

  lemma WroteStays(worlds: seq<World>, steps: seq<Step>, i: nat, id: string, test: Op -> bool)
    requires i < |steps| <= |worlds| && Wrote(worlds, steps, i, id, test)
    ensures Wrote(worlds, steps, i + 1, id, test)
  {
  }

  lemma SourcedStays(trim: Trim, worlds: seq<World>, steps: seq<Step>, i: nat, r: Record)
    requires i < |steps| <= |worlds| && Sourced(trim, worlds, steps, i, r)
    ensures Sourced(trim, worlds, steps, i + 1, r)
  {
  }

  lemma WriteIsSourced(trim: Trim, worlds: seq<World>, steps: seq<Step>, i: nat, op: Op, h: Record, now: int)
    requires i < |steps| <= |worlds| && Sourced(trim, worlds, steps, i, h) && TheRules(trim).decide(op, h, now).Ok?
    requires steps[i].Write? && steps[i].op == op && steps[i].worker in worlds[i].held && worlds[i].held[steps[i].worker] == h
    ensures Sourced(trim, worlds, steps, i + 1, TheRules(trim).decide(op, h, now).value.0)
  {
    AcceptedIff(trim, op, h, now);
    AcceptedWrites(trim, op, h, now);
    SourcedStays(trim, worlds, steps, i, h);
    var n := TheRules(trim).decide(op, h, now).value.0;
    match op
    case Succeed(_, evidence) => WroteNow(worlds, steps, i, h.req.id, Success(trim, evidence));
    case Fail(_, reason) => WroteNow(worlds, steps, i, h.req.id, Failing(trim, reason));
    case RequestRollback(_, reason) => WroteNow(worlds, steps, i, h.req.id, Rolling(trim, reason));
    case CompleteRollback(_, evidence) => WroteNow(worlds, steps, i, h.req.id, Completing(trim, evidence));
    case _ =>
  }

  lemma WroteNow(worlds: seq<World>, steps: seq<Step>, i: nat, id: string, test: Op -> bool)
    requires i < |steps| <= |worlds| && steps[i].Write? && steps[i].worker in worlds[i].held
    requires worlds[i].held[steps[i].worker].req.id == id && test(steps[i].op)
    ensures Wrote(worlds, steps, i + 1, id, test)
  {
  }

  ghost predicate AllSourced(trim: Trim, worlds: seq<World>, steps: seq<Step>, i: nat)
    requires i <= |steps| && |worlds| == |steps| + 1
  {
    && (forall id :: id in worlds[i].db.records ==>
          worlds[i].db.records[id].req.id == id && Sourced(trim, worlds, steps, i, worlds[i].db.records[id]))
    && (forall k :: k in worlds[i].held ==> Sourced(trim, worlds, steps, i, worlds[i].held[k]))
  }

  lemma StepSourced(trim: Trim, worlds: seq<World>, steps: seq<Step>, i: nat)
    requires |worlds| == |steps| + 1 && i < |steps| && AllSourced(trim, worlds, steps, i)
    requires Next(TheRules(trim), worlds[i], steps[i], worlds[i + 1])
    ensures AllSourced(trim, worlds, steps, i + 1)
  {
    var w, s, w' := worlds[i], steps[i], worlds[i + 1];
    if s.Write? { WriteIsSourced(trim, worlds, steps, i, s.op, w.held[s.worker], s.now); }
    forall id | id in w'.db.records ensures w'.db.records[id].req.id == id && Sourced(trim, worlds, steps, i + 1, w'.db.records[id]) {
      if id in w.db.records { SourcedStays(trim, worlds, steps, i, w.db.records[id]); }
      if s.Write? { AcceptedWrites(trim, s.op, w.held[s.worker], s.now); }
    }
    forall k | k in w'.held ensures Sourced(trim, worlds, steps, i + 1, w'.held[k]) {
      if k in w.held { SourcedStays(trim, worlds, steps, i, w.held[k]); }
    }
  }

  /** The same, written out for a filed record. */
  lemma EvidenceWasGiven(trim: Trim, worlds: seq<World>, steps: seq<Step>, i: nat, id: string)
    requires Trace(TheRules(trim), worlds, steps) && i < |worlds| && id in worlds[i].db.records
    ensures var r := worlds[i].db.records[id];
      r.state in {Succeeded, RollbackRequested, RollbackApproved, RollingBack, RolledBack} ==>
        exists j :: 0 <= j < i && steps[j].Write? && steps[j].worker in worlds[j].held && worlds[j].held[steps[j].worker].req.id == id
                    && steps[j].op.Succeed? && steps[j].op.evidence == r.deploymentEvidence && trim(r.deploymentEvidence) != ""
    ensures var r := worlds[i].db.records[id];
      r.state == Failed ==>
        exists j :: 0 <= j < i && steps[j].Write? && steps[j].worker in worlds[j].held && worlds[j].held[steps[j].worker].req.id == id
                    && steps[j].op.Fail? && steps[j].op.reason == r.failureReason && trim(r.failureReason) != ""
    ensures var r := worlds[i].db.records[id];
      r.state in {RollbackRequested, RollbackApproved, RollingBack, RolledBack} ==>
        exists j :: 0 <= j < i && steps[j].Write? && steps[j].worker in worlds[j].held && worlds[j].held[steps[j].worker].req.id == id
                    && steps[j].op.RequestRollback? && steps[j].op.reason == r.failureReason && trim(r.failureReason) != ""
    ensures var r := worlds[i].db.records[id];
      r.state == RolledBack ==>
        exists j :: 0 <= j < i && steps[j].Write? && steps[j].worker in worlds[j].held && worlds[j].held[steps[j].worker].req.id == id
                    && steps[j].op.CompleteRollback? && steps[j].op.evidence == r.rollbackEvidence && trim(r.rollbackEvidence) != ""
  {
    EvidenceIsSourced(trim, worlds, steps, i);
    assert Sourced(trim, worlds, steps, i, worlds[i].db.records[id]);
  }

  /** In every interleaving and at every point of it, the evidence and the reasons of every record are those
  given to the operation that brought it there, never blank, and empty before: the deployment evidence from
  Succeed, in Succeeded and all later states; the reason from Fail in Failed and from RequestRollback from
  RollbackRequested on; the rollback evidence from CompleteRollback in RolledBack. */
  lemma {:induction false} EvidenceIsSourced(trim: Trim, worlds: seq<World>, steps: seq<Step>, i: nat)
    requires Trace(TheRules(trim), worlds, steps) && i < |worlds|
    ensures AllSourced(trim, worlds, steps, i)
  {
    if i > 0 {
      EvidenceIsSourced(trim, worlds, steps, i - 1);
      assert Next(TheRules(trim), worlds[i - 1], steps[i - 1], worlds[i]);
      StepSourced(trim, worlds, steps, i - 1);
    }
  }
}
