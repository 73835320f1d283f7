/** Production releases: approval, execution and rollback through a store whose compare-and-swap
looks only at the state, so writers may hold stale copies of the record. `trim` is strings.TrimSpace;
time 0 is Go's zero time. */
module Release {
  import opened Wrappers

  const ZERO_TIME := 0

  type Trim = string -> string

  datatype State =
    | Draft | PendingApproval | Approved | Executing | Succeeded | Failed | RollbackRequested | RollbackApproved
    | RollingBack | RolledBack

  datatype Request = Request(
    id: string, version: string, environment: string, artifactDigest: string, sbomDigest: string, commit: string,
    provenance: string, tests: string, vulnerability: string, license: string, rollbackPlan: string,
    requestedBy: string, requiredApprovals: int, windowStart: int, windowEnd: int)

  datatype Record = Record(
    req: Request, state: State, approvers: seq<string>, rollbackApprovers: seq<string>, deploymentEvidence: string,
    rollbackEvidence: string, failureReason: string, createdAt: int, updatedAt: int)

  datatype Kind =
    | Creation | ApprovalRequest | Approval | Start | Success | Failure | RollbackRequest | RollbackApproval
    | RollbackStart | RollbackCompletion

  datatype Event = Event(id: string, kind: Kind, actor: string, from: Option<State>, to: State, at: int)

  datatype Error =
    | InvalidRequest | Exists | NotFound | WrongState | OwnRelease | AlreadyApproved | OutsideWindow | NoReason
    | NoEvidence | NoActor | Conflict

  datatype Result<+T> = Ok(value: T) | Err(error: Error)

  predicate HexDigit(c: char) { '0' <= c <= '9' || 'a' <= c <= 'f' || 'A' <= c <= 'F' }

  predicate ValidDigest(trim: Trim, value: string) {
    var v := trim(value);
    var d := if "sha256:" <= v then v[7..] else v;
    |d| == 64 && forall i :: 0 <= i < |d| ==> HexDigit(d[i])
  }

  predicate ValidRequest(trim: Trim, q: Request) {
    && trim(q.id) != "" && trim(q.version) != "" && trim(q.environment) != "" && trim(q.commit) != ""
    && trim(q.provenance) != "" && trim(q.tests) != "" && trim(q.rollbackPlan) != "" && trim(q.requestedBy) != ""
    && ValidDigest(trim, q.artifactDigest) && ValidDigest(trim, q.sbomDigest)
    && q.vulnerability == "passed" && q.license == "passed"
    && q.requiredApprovals >= 2
    && q.windowStart != ZERO_TIME && q.windowEnd != ZERO_TIME && q.windowEnd > q.windowStart
  }

  function NewRecord(q: Request, now: int): Record {
    Record(q, Draft, [], [], "", "", "", now, now)
  }

  datatype Op =
    | RequestApproval(actor: string)
    | Approve(actor: string)
    | Begin(actor: string)
    | Succeed(actor: string, evidence: string)
    | Fail(actor: string, reason: string)
    | RequestRollback(actor: string, reason: string)
    | ApproveRollback(actor: string)
    | BeginRollback(actor: string)
    | CompleteRollback(actor: string, evidence: string)

  /** Checked before the record is read. */
  function Precheck(trim: Trim, op: Op): Option<Error> {
    match op
    case Succeed(_, evidence) => if trim(evidence) == "" then Some(NoEvidence) else None
    case CompleteRollback(_, evidence) => if trim(evidence) == "" then Some(NoEvidence) else None
    case Fail(_, reason) => if trim(reason) == "" then Some(NoReason) else None
    case RequestRollback(_, reason) => if trim(reason) == "" then Some(NoReason) else None
    case _ => None
  }

  function Move(trim: Trim, r: Record, mutated: Record, actor: string, kind: Kind, to: State, at: int): Result<(Record, Event)> {
    if trim(actor) == "" then Err(NoActor)
    else Ok((mutated.(state := to, updatedAt := at), Event(r.req.id, kind, actor, Some(r.state), to, at)))
  }

  function Vote(trim: Trim, r: Record, given: seq<string>, who: string): Result<seq<string>> {
    if trim(who) == "" || who == r.req.requestedBy then Err(OwnRelease)
    else if who in given then Err(AlreadyApproved)
    else Ok(given + [who])
  }

  /** What the controller writes, given the copy it read and the clock. */
  function Decide(trim: Trim, op: Op, r: Record, now: int): Result<(Record, Event)> {
    match op
    case RequestApproval(actor) =>
      if r.state != Draft then Err(WrongState) else Move(trim, r, r, actor, ApprovalRequest, PendingApproval, now)
    case Approve(who) =>
      if r.state != PendingApproval then Err(WrongState)
      else (
        match Vote(trim, r, r.approvers, who)
        case Err(e) => Err(e)
        case Ok(given) =>
          var to := if |given| >= r.req.requiredApprovals then Approved else PendingApproval;
          Ok((r.(approvers := given, state := to, updatedAt := now), Event(r.req.id, Approval, who, Some(r.state), to, now))))
    case Begin(actor) =>
      if r.state != Approved then Err(WrongState)
      else if now < r.req.windowStart || now >= r.req.windowEnd then Err(OutsideWindow)
      else Move(trim, r, r, actor, Start, Executing, now)
    case Succeed(actor, evidence) =>
      if r.state != Executing then Err(WrongState)
      else Move(trim, r, r.(deploymentEvidence := evidence), actor, Success, Succeeded, now)
    case Fail(actor, reason) =>
      if r.state != Executing then Err(WrongState)
      else Move(trim, r, r.(failureReason := reason), actor, Failure, Failed, now)
    case RequestRollback(actor, reason) =>
      if r.state != Succeeded then Err(WrongState)
      else Move(trim, r, r.(failureReason := reason, rollbackApprovers := []), actor, RollbackRequest, RollbackRequested, now)
    case ApproveRollback(who) =>
      if r.state != RollbackRequested then Err(WrongState)
      else (
        match Vote(trim, r, r.rollbackApprovers, who)
        case Err(e) => Err(e)
        case Ok(given) =>
          var to := if |given| >= r.req.requiredApprovals then RollbackApproved else RollbackRequested;
          Ok((r.(rollbackApprovers := given, state := to, updatedAt := now),
              Event(r.req.id, RollbackApproval, who, Some(r.state), to, now))))
    case BeginRollback(actor) =>
      if r.state != RollbackApproved then Err(WrongState) else Move(trim, r, r, actor, RollbackStart, RollingBack, now)
    case CompleteRollback(actor, evidence) =>
      if r.state != RollingBack then Err(WrongState)
      else Move(trim, r, r.(rollbackEvidence := evidence), actor, RollbackCompletion, RolledBack, now)
  }

  datatype Db = Db(records: map<string, Record>, audit: seq<Event>)

  predicate CanSwap(db: Db, id: string, expected: State) {
    id in db.records && db.records[id].state == expected
  }

  function Written(db: Db, id: string, next: Record, e: Event): Db {
    Db(db.records[id := next], db.audit + [e])
  }

  /** One uninterrupted call. */
  function Performed(trim: Trim, db: Db, id: string, op: Op, now: int): (Db, Result<Record>) {
    if Precheck(trim, op).Some? then (db, Err(Precheck(trim, op).value))
    else if id !in db.records then (db, Err(NotFound))
    else match Decide(trim, op, db.records[id], now)
      case Err(e) => (db, Err(e))
      case Ok(p) => (Written(db, id, p.0, p.1), Ok(p.0))
  }

  method Contains(values: seq<string>, value: string) returns (found: bool)
    ensures found <==> value in values
  {
    for i := 0 to |values|
      invariant value !in values[..i]
    {
      if values[i] == value { return true; }
      assert values[..i + 1] == values[..i] + [values[i]];
    }
    assert values[..|values|] == values;
    return false;
  }

  /** The store with the controller on top of it. Every record is filed under its own id. */
  class Controller {
    var records: map<string, Record>
    var audit: seq<Event>

    function State(): Db reads this { Db(records, audit) }

    ghost predicate Filed() reads this { forall id :: id in records ==> records[id].req.id == id }

    constructor ()
      ensures State() == Db(map[], []) && Filed()
    {
      records, audit := map[], [];
    }

    method Create(trim: Trim, q: Request, now: int) returns (r: Result<Record>)
      requires Filed()
      modifies this
      ensures Filed()
      ensures r.Ok? <==> ValidRequest(trim, q) && q.id !in old(records)
      ensures r.Ok? ==>
        && (forall s :: s in [q.id, q.version, q.environment, q.commit, q.provenance, q.tests, q.rollbackPlan, q.requestedBy] ==> trim(s) != "")
        && 64 <= |trim(q.artifactDigest)| <= 71 && 64 <= |trim(q.sbomDigest)| <= 71
        && q.vulnerability == "passed" && q.license == "passed" && q.requiredApprovals >= 2
        && q.windowStart != 0 && q.windowEnd != 0 && q.windowStart < q.windowEnd
      ensures r.Ok? ==> r.value == NewRecord(q, now) &&
                        State() == Written(old(State()), q.id, NewRecord(q, now), Event(q.id, Creation, q.requestedBy, None, Draft, now))
      ensures r.Err? ==> State() == old(State())
    {
      if !ValidRequest(trim, q) { return Err(InvalidRequest); }
      if q.id in records { return Err(Exists); }
      var record := NewRecord(q, now);
      records := records[q.id := record];
      audit := audit + [Event(q.id, Creation, q.requestedBy, None, Draft, now)];
      return Ok(record);
    }

    method Transition(id: string, expected: State, next: Record, e: Event) returns (ok: bool)
      requires Filed() && next.req.id == id
      modifies this
      ensures Filed()
      ensures ok <==> CanSwap(old(State()), id, expected)
      ensures State() == if ok then Written(old(State()), id, next, e) else old(State())
    {
      if id !in records || records[id].state != expected { return false; }
      records := records[id := next];
      audit := audit + [e];
      return true;
    }

    method TransitionAt(trim: Trim, record: Record, mutated: Record, actor: string, kind: Kind, to: State, at: int)
      returns (r: Result<Record>)
      requires Filed() && record.req == mutated.req && record.req.id in records && records[record.req.id] == record
      modifies this
      ensures Filed()
      ensures match Move(trim, record, mutated, actor, kind, to, at)
              case Err(e) => r == Err(e) && State() == old(State())
              case Ok(p) => r == Ok(p.0) && State() == Written(old(State()), record.req.id, p.0, p.1)
    {
      if trim(actor) == "" { return Err(NoActor); }
      var next := mutated.(state := to, updatedAt := at);
      var ok := Transition(record.req.id, record.state, next, Event(record.req.id, kind, actor, Some(record.state), to, at));
      return Ok(next);
    }

    method CastApproval(trim: Trim, id: string, who: string, now: int) returns (r: Result<Record>)
      requires Filed()
      modifies this
      ensures Filed() && (State(), r) == Performed(trim, old(State()), id, Approve(who), now)
    {
      if id !in records { return Err(NotFound); }
      var record := records[id];
      if record.state != PendingApproval { return Err(WrongState); }
      if trim(who) == "" || who == record.req.requestedBy { return Err(OwnRelease); }
      var already := Contains(record.approvers, who);
      if already { return Err(AlreadyApproved); }
      var next := record.(approvers := record.approvers + [who]);
      var to := PendingApproval;
      if |next.approvers| >= record.req.requiredApprovals { to := Approved; }
      next := next.(state := to, updatedAt := now);
      var ok := Transition(id, record.state, next, Event(id, Approval, who, Some(record.state), to, now));
      return Ok(next);
    }

    method CastRollbackApproval(trim: Trim, id: string, who: string, now: int) returns (r: Result<Record>)
      requires Filed()
      modifies this
      ensures Filed() && (State(), r) == Performed(trim, old(State()), id, ApproveRollback(who), now)
    {
      if id !in records { return Err(NotFound); }
      var record := records[id];
      if record.state != RollbackRequested { return Err(WrongState); }
      if trim(who) == "" || who == record.req.requestedBy { return Err(OwnRelease); }
      var already := Contains(record.rollbackApprovers, who);
      if already { return Err(AlreadyApproved); }
      var next := record.(rollbackApprovers := record.rollbackApprovers + [who]);
      var to := RollbackRequested;
      if |next.rollbackApprovers| >= record.req.requiredApprovals { to := RollbackApproved; }
      next := next.(state := to, updatedAt := now);
      var ok := Transition(id, record.state, next, Event(id, RollbackApproval, who, Some(record.state), to, now));
      return Ok(next);
    }

    /** Every operation of the controller; all but the two votes go through TransitionAt. */
    method Perform(trim: Trim, id: string, op: Op, now: int) returns (r: Result<Record>)
      requires Filed()
      modifies this
      ensures Filed() && (State(), r) == Performed(trim, old(State()), id, op, now)
    {
      if Precheck(trim, op).Some? { return Err(Precheck(trim, op).value); }
      if id !in records { return Err(NotFound); }
      var record := records[id];
      match op
      case Approve(who) => r := CastApproval(trim, id, who, now);
      case ApproveRollback(who) => r := CastRollbackApproval(trim, id, who, now);
      case RequestApproval(actor) =>
        if record.state != Draft { return Err(WrongState); }
        r := TransitionAt(trim, record, record, actor, ApprovalRequest, PendingApproval, now);
      case Begin(actor) =>
        if record.state != Approved { return Err(WrongState); }
        if now < record.req.windowStart || now >= record.req.windowEnd { return Err(OutsideWindow); }
        r := TransitionAt(trim, record, record, actor, Start, Executing, now);
      case Succeed(actor, evidence) =>
        if record.state != Executing { return Err(WrongState); }
        r := TransitionAt(trim, record, record.(deploymentEvidence := evidence), actor, Success, Succeeded, now);
      case Fail(actor, reason) =>
        if record.state != Executing { return Err(WrongState); }
        r := TransitionAt(trim, record, record.(failureReason := reason), actor, Failure, Failed, now);
      case RequestRollback(actor, reason) =>
        if record.state != Succeeded { return Err(WrongState); }
        r := TransitionAt(trim, record, record.(failureReason := reason, rollbackApprovers := []), actor, RollbackRequest, RollbackRequested, now);
      case BeginRollback(actor) =>
        if record.state != RollbackApproved { return Err(WrongState); }
        r := TransitionAt(trim, record, record, actor, RollbackStart, RollingBack, now);
      case CompleteRollback(actor, evidence) =>
        if record.state != RollingBack { return Err(WrongState); }
        r := TransitionAt(trim, record, record.(rollbackEvidence := evidence), actor, RollbackCompletion, RolledBack, now);
    }
  }
}
