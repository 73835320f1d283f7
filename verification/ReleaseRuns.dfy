/** Every interleaving of release controllers: each reads a copy of the record, decides, and later
writes it back if the state alone still matches. */
module ReleaseRuns {
  import opened Wrappers
  import opened Release

  /** The controller as the runs see it: which requests it files and what it writes back. */
  datatype Rules = Rules(valid: Request -> bool, decide: (Op, Record, int) -> Result<(Record, Event)>)

  function TheRules(trim: Trim): Rules {
    Rules(q => ValidRequest(trim, q),
          (op, r, now) => if Precheck(trim, op).Some? then Err(Precheck(trim, op).value) else Decide(trim, op, r, now))
  }

  function Rank(s: State): nat {
    match s
    case Draft => 0
    case PendingApproval => 1
    case Approved => 2
    case Executing => 3
    case Succeeded => 4
    case Failed => 4
    case RollbackRequested => 5
    case RollbackApproved => 6
    case RollingBack => 7
    case RolledBack => 8
  }

  predicate SameVotes(r: Record, n: Record) {
    n.approvers == r.approvers && n.rollbackApprovers == r.rollbackApprovers
  }

  /** One vote: a new voter who is not the requester; the count alone decides whether the state advances. */
  predicate Counts(r: Record, before: seq<string>, after: seq<string>, who: string, stay: State, advance: State, to: State) {
    && r.state == stay && who != r.req.requestedBy && who !in before && after == before + [who]
    && to == if |after| >= r.req.requiredApprovals then advance else stay
  }

  /** The allowed edges. */
  predicate Edge(r: Record, n: Record, e: Event) {
    && n.req == r.req && e.id == r.req.id && e.from == Some(r.state) && e.to == n.state
    && match e.kind
       case Creation => false
       case ApprovalRequest => r.state.Draft? && n.state.PendingApproval? && SameVotes(r, n)
       case Approval =>
         Counts(r, r.approvers, n.approvers, e.actor, PendingApproval, State.Approved, n.state) && n.rollbackApprovers == r.rollbackApprovers
       case Start => r.state.Approved? && n.state.Executing? && SameVotes(r, n) && r.req.windowStart <= e.at < r.req.windowEnd
       case Success => r.state.Executing? && n.state.Succeeded? && SameVotes(r, n)
       case Failure => r.state.Executing? && n.state.Failed? && SameVotes(r, n)
       case RollbackRequest =>
         r.state.Succeeded? && n.state.RollbackRequested? && n.approvers == r.approvers && n.rollbackApprovers == []
       case RollbackApproval =>
         Counts(r, r.rollbackApprovers, n.rollbackApprovers, e.actor, RollbackRequested, RollbackApproved, n.state) && n.approvers == r.approvers
       case RollbackStart => r.state.RollbackApproved? && n.state.RollingBack? && SameVotes(r, n)
       case RollbackCompletion => r.state.RollingBack? && n.state.RolledBack? && SameVotes(r, n)
  }

  ghost predicate Lawful(R: Rules) {
    && (forall q :: R.valid(q) ==> q.requiredApprovals >= 2 && q.windowEnd > q.windowStart)
    && (forall op, r, now :: R.decide(op, r, now).Ok? ==> Edge(r, R.decide(op, r, now).value.0, R.decide(op, r, now).value.1))
  }

  lemma DecisionIsEdge(trim: Trim, op: Op, r: Record, now: int)
    requires Decide(trim, op, r, now).Ok?
    ensures Edge(r, Decide(trim, op, r, now).value.0, Decide(trim, op, r, now).value.1)
  {
  }

  lemma TheRulesAreLawful(trim: Trim)
    ensures Lawful(TheRules(trim))
  {
    forall op, r, now | TheRules(trim).decide(op, r, now).Ok?
      ensures Edge(r, TheRules(trim).decide(op, r, now).value.0, TheRules(trim).decide(op, r, now).value.1)
    {
      DecisionIsEdge(trim, op, r, now);
    }
  }

  /** `held` is the copy each worker read and has not yet written back. */
  datatype World = World(db: Db, held: map<nat, Record>)

  const EMPTY := World(Db(map[], []), map[])

  /** A failed check, a lost compare-and-swap and a crash all end in `Drop`. */
  datatype Step =
    | Create(q: Request, at: int)
    | Get(worker: nat, id: string)
    | Write(worker: nat, op: Op, now: int)
    | Drop(worker: nat)

  predicate Enabled(R: Rules, w: World, s: Step) {
    match s
    case Create(q, at) => R.valid(q) && q.id !in w.db.records
    case Get(k, id) => id in w.db.records
    case Write(k, op, now) =>
      k in w.held && R.decide(op, w.held[k], now).Ok? && CanSwap(w.db, w.held[k].req.id, w.held[k].state)
    case Drop(k) => true
  }

  function Apply(R: Rules, w: World, s: Step): World
    requires Enabled(R, w, s)
  {
    match s
    case Create(q, at) =>
      w.(db := Written(w.db, q.id, NewRecord(q, at), Event(q.id, Creation, q.requestedBy, None, Draft, at)))
    case Get(k, id) => w.(held := w.held[k := w.db.records[id]])
    case Write(k, op, now) =>
      var p := R.decide(op, w.held[k], now).value;
      World(Written(w.db, w.held[k].req.id, p.0, p.1), w.held - {k})
    case Drop(k) => w.(held := w.held - {k})
  }

  predicate Next(R: Rules, w: World, s: Step, w': World) {
    Enabled(R, w, s) && w' == Apply(R, w, s)
  }

  ghost predicate Trace(R: Rules, worlds: seq<World>, steps: seq<Step>) {
    && |worlds| == |steps| + 1 && worlds[0] == EMPTY
    && forall i {:trigger steps[i]} :: 0 <= i < |steps| ==> Next(R, worlds[i], steps[i], worlds[i + 1])
  }

  predicate Distinct(s: seq<string>) {
    forall i, j :: 0 <= i < j < |s| ==> s[i] != s[j]
  }

  /** `who` voted on the release before position `n` of the audit log. */
  ghost predicate Voted(audit: seq<Event>, n: nat, id: string, kind: Kind, who: string) {
    exists i :: 0 <= i < n && i < |audit| && audit[i].id == id && audit[i].kind == kind && audit[i].actor == who
  }

  ghost predicate Panel(audit: seq<Event>, n: nat, q: Request, kind: Kind, voters: seq<string>) {
    && Distinct(voters) && q.requestedBy !in voters
    && (forall v :: v in voters ==> Voted(audit, n, q.id, kind, v))
  }

  /** The log shows the start at `k`, with the panel complete before it. */
  ghost predicate StartedAt(audit: seq<Event>, k: nat, r: Record) {
    && k < |audit| && audit[k].id == r.req.id && audit[k].kind == Start
    && r.req.windowStart <= audit[k].at < r.req.windowEnd
    && Panel(audit, k, r.req, Approval, r.approvers)
  }

  ghost predicate RollbackStartedAt(audit: seq<Event>, k: nat, r: Record) {
    && k < |audit| && audit[k].id == r.req.id && audit[k].kind == RollbackStart
    && Panel(audit, k, r.req, RollbackApproval, r.rollbackApprovers)
  }

  ghost predicate Good(audit: seq<Event>, r: Record) {
    && r.req.requiredApprovals >= 2 && r.req.windowEnd > r.req.windowStart
    && Panel(audit, |audit|, r.req, Approval, r.approvers)
    && Panel(audit, |audit|, r.req, RollbackApproval, r.rollbackApprovers)
    && (Rank(r.state) >= 2 ==> |r.approvers| >= r.req.requiredApprovals)
    && (Rank(r.state) >= 3 ==> exists k :: StartedAt(audit, k, r))
    && (Rank(r.state) >= 6 ==> |r.rollbackApprovers| >= r.req.requiredApprovals)
    && (Rank(r.state) >= 7 ==> exists k :: RollbackStartedAt(audit, k, r))
  }

  lemma PanelGrows(audit: seq<Event>, e: Event, n: nat, m: nat, q: Request, kind: Kind, voters: seq<string>)
    requires Panel(audit, n, q, kind, voters) && n <= m
    ensures Panel(audit + [e], m, q, kind, voters)
  {
    forall v | v in voters ensures Voted(audit + [e], m, q.id, kind, v) {
      assert Voted(audit, n, q.id, kind, v);
      var i :| 0 <= i < n && i < |audit| && audit[i].id == q.id && audit[i].kind == kind && audit[i].actor == v;
      assert (audit + [e])[i] == audit[i];
    }
  }

  lemma PanelGains(audit: seq<Event>, e: Event, q: Request, kind: Kind, voters: seq<string>)
    requires Panel(audit, |audit|, q, kind, voters)
    requires e.id == q.id && e.kind == kind && e.actor != q.requestedBy && e.actor !in voters
    ensures Panel(audit + [e], |audit| + 1, q, kind, voters + [e.actor])
  {
    PanelGrows(audit, e, |audit|, |audit| + 1, q, kind, voters);
    assert (audit + [e])[|audit|] == e;
  }

  lemma StartRemembered(audit: seq<Event>, e: Event, k: nat, r: Record, n: Record)
    requires StartedAt(audit, k, r) && n.req == r.req && n.approvers == r.approvers
    ensures StartedAt(audit + [e], k, n)
  {
    PanelGrows(audit, e, k, k, r.req, Approval, r.approvers);
  }

  lemma RollbackStartRemembered(audit: seq<Event>, e: Event, k: nat, r: Record, n: Record)
    requires RollbackStartedAt(audit, k, r) && n.req == r.req && n.rollbackApprovers == r.rollbackApprovers
    ensures RollbackStartedAt(audit + [e], k, n)
  {
    PanelGrows(audit, e, k, k, r.req, RollbackApproval, r.rollbackApprovers);
  }

  /** A longer log keeps every record and every held copy good. */
  lemma GoodGrows(audit: seq<Event>, e: Event, r: Record)
    requires Good(audit, r)
    ensures Good(audit + [e], r)
  {
    PanelGrows(audit, e, |audit|, |audit| + 1, r.req, Approval, r.approvers);
    PanelGrows(audit, e, |audit|, |audit| + 1, r.req, RollbackApproval, r.rollbackApprovers);
    if Rank(r.state) >= 3 {
      var k :| StartedAt(audit, k, r);
      StartRemembered(audit, e, k, r, r);
    }
    if Rank(r.state) >= 7 {
      var k :| RollbackStartedAt(audit, k, r);
      RollbackStartRemembered(audit, e, k, r, r);
    }
  }

  lemma PanelsFollow(audit: seq<Event>, r: Record, n: Record, e: Event)
    requires Good(audit, r) && Edge(r, n, e)
    ensures Panel(audit + [e], |audit| + 1, n.req, Approval, n.approvers)
    ensures Panel(audit + [e], |audit| + 1, n.req, RollbackApproval, n.rollbackApprovers)
  {
    if e.kind == Approval { PanelGains(audit, e, r.req, Approval, r.approvers); }
    else { PanelGrows(audit, e, |audit|, |audit| + 1, r.req, Approval, r.approvers); }
    if e.kind == RollbackApproval { PanelGains(audit, e, r.req, RollbackApproval, r.rollbackApprovers); }
    else { PanelGrows(audit, e, |audit|, |audit| + 1, r.req, RollbackApproval, r.rollbackApprovers); }
  }

  lemma StartsFollow(audit: seq<Event>, r: Record, n: Record, e: Event)
    requires Good(audit, r) && Edge(r, n, e)
    ensures Rank(n.state) >= 3 ==> exists k :: StartedAt(audit + [e], k, n)
    ensures Rank(n.state) >= 7 ==> exists k :: RollbackStartedAt(audit + [e], k, n)
  {
    assert (audit + [e])[|audit|] == e;
    if Rank(n.state) >= 3 {
      if e.kind == Start {
        PanelGrows(audit, e, |audit|, |audit|, r.req, Approval, r.approvers);
        assert StartedAt(audit + [e], |audit|, n);
      } else {
        var k :| StartedAt(audit, k, r);
        StartRemembered(audit, e, k, r, n);
      }
    }
    if Rank(n.state) >= 7 {
      if e.kind == RollbackStart {
        PanelGrows(audit, e, |audit|, |audit|, r.req, RollbackApproval, r.rollbackApprovers);
        assert RollbackStartedAt(audit + [e], |audit|, n);
      } else {
        var k :| RollbackStartedAt(audit, k, r);
        RollbackStartRemembered(audit, e, k, r, n);
      }
    }
  }

  /** Whatever is written back from a good copy is good, stale or not. */
  lemma EdgeKeepsGood(audit: seq<Event>, r: Record, n: Record, e: Event)
    requires Good(audit, r) && Edge(r, n, e)
    ensures Good(audit + [e], n) && Rank(r.state) <= Rank(n.state)
  {
    PanelsFollow(audit, r, n, e);
    StartsFollow(audit, r, n, e);
  }

  /** The log of one release is ordered: an event starts no lower than any earlier one ended. */
  predicate Ordered(audit: seq<Event>) {
    forall i, j :: 0 <= i < j < |audit| && audit[i].id == audit[j].id ==>
      audit[j].from.Some? && Rank(audit[i].to) <= Rank(audit[j].from.value)
  }

  predicate Behind(db: Db, e: Event) {
    e.id in db.records && Rank(e.to) <= Rank(db.records[e.id].state)
  }

  ghost predicate Held(db: Db, r: Record) {
    && Good(db.audit, r) && r.req.id in db.records
    && db.records[r.req.id].req == r.req && Rank(r.state) <= Rank(db.records[r.req.id].state)
  }

  ghost predicate Inv(w: World) {
    && (forall id :: id in w.db.records ==> w.db.records[id].req.id == id && Good(w.db.audit, w.db.records[id]))
    && (forall k :: k in w.held ==> Held(w.db, w.held[k]))
    && (forall i :: 0 <= i < |w.db.audit| ==> Behind(w.db, w.db.audit[i]))
    && (forall i :: 0 <= i < |w.db.audit| ==> (w.db.audit[i].kind == Start ==> w.db.audit[i].from == Some(State.Approved) && w.db.audit[i].to == Executing))
    && Ordered(w.db.audit)
  }

  /** One write of a good record that moves the stored state up, or files a new release. */
  lemma WriteKeeps(w: World, id: string, n: Record, e: Event, held: map<nat, Record>)
    requires Inv(w) && e.id == id == n.req.id && e.to == n.state && Good(w.db.audit + [e], n)
    requires id in w.db.records ==> e.from == Some(w.db.records[id].state) && n.req == w.db.records[id].req && Rank(w.db.records[id].state) <= Rank(n.state)
    requires e.kind == Start ==> e.from == Some(State.Approved) && e.to == Executing
    requires forall k :: k in held ==> k in w.held && held[k] == w.held[k]
    ensures Inv(World(Written(w.db, id, n, e), held))
  {
    RecordsStayGood(w, id, n, e);
    CopiesStayGood(w, id, n, e, held);
    LogStaysBehind(w, id, n, e);
    OrderedGrows(w, id, e);
  }

  lemma RecordsStayGood(w: World, id: string, n: Record, e: Event)
    requires Inv(w) && n.req.id == id && Good(w.db.audit + [e], n)
    ensures var db := Written(w.db, id, n, e);
            forall x :: x in db.records ==> db.records[x].req.id == x && Good(db.audit, db.records[x])
  {
    forall x | x in w.db.records ensures Good(w.db.audit + [e], w.db.records[x]) {
      GoodGrows(w.db.audit, e, w.db.records[x]);
    }
  }

  lemma CopiesStayGood(w: World, id: string, n: Record, e: Event, held: map<nat, Record>)
    requires Inv(w) && (id in w.db.records ==> n.req == w.db.records[id].req && Rank(w.db.records[id].state) <= Rank(n.state))
    requires forall k :: k in held ==> k in w.held && held[k] == w.held[k]
    ensures forall k :: k in held ==> Held(Written(w.db, id, n, e), held[k])
  {
    forall k | k in held ensures Held(Written(w.db, id, n, e), held[k]) {
      assert Held(w.db, w.held[k]);
      GoodGrows(w.db.audit, e, w.held[k]);
    }
  }

  lemma LogStaysBehind(w: World, id: string, n: Record, e: Event)
    requires Inv(w) && e.id == id && e.to == n.state
    requires id in w.db.records ==> Rank(w.db.records[id].state) <= Rank(n.state)
    ensures var db := Written(w.db, id, n, e); forall i :: 0 <= i < |db.audit| ==> Behind(db, db.audit[i])
  {
  }

  lemma OrderedGrows(w: World, id: string, e: Event)
    requires Inv(w) && e.id == id && (id in w.db.records ==> e.from == Some(w.db.records[id].state))
    ensures Ordered(w.db.audit + [e])
  {
  }

  lemma StepKeeps(R: Rules, w: World, s: Step)
    requires Lawful(R) && Inv(w) && Enabled(R, w, s)
    ensures Inv(Apply(R, w, s))
  {
    match s
    case Create(q, at) =>
      WriteKeeps(w, q.id, NewRecord(q, at), Event(q.id, Creation, q.requestedBy, None, Draft, at), w.held);
    case Write(k, op, now) =>
      var r, p := w.held[k], R.decide(op, w.held[k], now).value;
      EdgeKeepsGood(w.db.audit, r, p.0, p.1);
      WriteKeeps(w, r.req.id, p.0, p.1, w.held - {k});
    case Get(k, id) =>
    case Drop(k) =>
  }

  lemma {:induction false} TraceKeeps(R: Rules, worlds: seq<World>, steps: seq<Step>, i: nat)
    requires Lawful(R) && Trace(R, worlds, steps) && i < |worlds|
    ensures Inv(worlds[i])
  {
    if i > 0 {
      TraceKeeps(R, worlds, steps, i - 1);
      assert Next(R, worlds[i - 1], steps[i - 1], worlds[i]);
      StepKeeps(R, worlds[i - 1], steps[i - 1]);
    }
  }

  lemma {:induction false} DistinctCount(s: seq<string>)
    requires Distinct(s)
    ensures |set v | v in s| == |s|
  {
    if s != [] {
      var n := |s| - 1;
      DistinctCount(s[..n]);
      assert (set v | v in s) == (set v | v in s[..n]) + {s[n]};
    }
  }

  /** Enough different people, none of them the requester, had voted before position `k` of the log. */
  ghost predicate ApprovedBefore(audit: seq<Event>, k: nat, q: Request, kind: Kind) {
    exists people: set<string> ::
      |people| >= q.requiredApprovals >= 2 && q.requestedBy !in people && forall v :: v in people ==> Voted(audit, k, q.id, kind, v)
  }

  lemma PanelIsEnough(audit: seq<Event>, k: nat, q: Request, kind: Kind, voters: seq<string>)
    requires Panel(audit, k, q, kind, voters) && |voters| >= q.requiredApprovals >= 2
    ensures ApprovedBefore(audit, k, q, kind)
  {
    DistinctCount(voters);
    var people := set v | v in voters;
    assert |people| >= q.requiredApprovals >= 2 && q.requestedBy !in people && forall v :: v in people ==> Voted(audit, k, q.id, kind, v);
  }

  /** A release that is or has been executing was started inside its window, after at least
  requiredApprovals (two or more) people other than the requester had approved it. */
  lemma ExecutingWasApproved(trim: Trim, worlds: seq<World>, steps: seq<Step>, i: nat, id: string)
    requires Trace(TheRules(trim), worlds, steps) && i < |worlds|
    requires id in worlds[i].db.records && Rank(worlds[i].db.records[id].state) >= Rank(Executing)
    ensures var db := worlds[i].db; var q := db.records[id].req;
            exists k: nat :: k < |db.audit| && db.audit[k].id == id && db.audit[k].kind == Start &&
              q.windowStart <= db.audit[k].at < q.windowEnd && ApprovedBefore(db.audit, k, q, Approval)
  {
    TheRulesAreLawful(trim);
    TraceKeeps(TheRules(trim), worlds, steps, i);
    var db := worlds[i].db;
    var r := db.records[id];
    assert Good(db.audit, r);
    var k :| StartedAt(db.audit, k, r);
    PanelIsEnough(db.audit, k, r.req, Approval, r.approvers);
  }

  /** The same for a rollback, with approvals given for the rollback itself. */
  lemma RollingBackWasApproved(trim: Trim, worlds: seq<World>, steps: seq<Step>, i: nat, id: string)
    requires Trace(TheRules(trim), worlds, steps) && i < |worlds|
    requires id in worlds[i].db.records && Rank(worlds[i].db.records[id].state) >= Rank(RollingBack)
    ensures var db := worlds[i].db; var q := db.records[id].req;
            exists k: nat :: k < |db.audit| && db.audit[k].id == id && db.audit[k].kind == RollbackStart &&
              ApprovedBefore(db.audit, k, q, RollbackApproval)
  {
    TheRulesAreLawful(trim);
    TraceKeeps(TheRules(trim), worlds, steps, i);
    var db := worlds[i].db;
    var r := db.records[id];
    assert Good(db.audit, r);
    var k :| RollbackStartedAt(db.audit, k, r);
    PanelIsEnough(db.audit, k, r.req, RollbackApproval, r.rollbackApprovers);
  }

  /** From `a` to `b` the release keeps its request, its state does not fall and the log only grows. */
  predicate Forward(a: Db, b: Db, id: string) {
    && id in a.records && id in b.records && a.records[id].req == b.records[id].req
    && Rank(a.records[id].state) <= Rank(b.records[id].state) && a.audit <= b.audit
  }

  lemma StepForward(R: Rules, w: World, s: Step, id: string)
    requires Lawful(R) && Inv(w) && Enabled(R, w, s) && id in w.db.records
    ensures Forward(w.db, Apply(R, w, s).db, id)
  {
    match s
    case Write(k, op, now) =>
      var r, p := w.held[k], R.decide(op, w.held[k], now).value;
      EdgeKeepsGood(w.db.audit, r, p.0, p.1);
    case _ =>
  }

  lemma ForwardTransitive(a: Db, b: Db, c: Db, id: string)
    requires Forward(a, b, id) && Forward(b, c, id)
    ensures Forward(a, c, id)
  {
  }

  lemma TraceStep(R: Rules, worlds: seq<World>, steps: seq<Step>, i: nat, id: string)
    requires Lawful(R) && Trace(R, worlds, steps) && i < |steps| && id in worlds[i].db.records
    ensures Forward(worlds[i].db, worlds[i + 1].db, id)
  {
    TraceKeeps(R, worlds, steps, i);
    assert Next(R, worlds[i], steps[i], worlds[i + 1]);
    StepForward(R, worlds[i], steps[i], id);
  }

  /** Over any stretch of a run a release keeps its request and its state never falls in rank. */
  lemma {:induction false} StateMovesForward(R: Rules, worlds: seq<World>, steps: seq<Step>, i: nat, j: nat, id: string)
    requires Lawful(R) && Trace(R, worlds, steps) && i <= j < |worlds| && id in worlds[i].db.records
    ensures Forward(worlds[i].db, worlds[j].db, id)
    decreases j
  {
    if i < j {
      StateMovesForward(R, worlds, steps, i, j - 1, id);
      TraceStep(R, worlds, steps, j - 1, id);
      ForwardTransitive(worlds[i].db, worlds[j - 1].db, worlds[j].db, id);
    }
  }

  /** However many controllers race, a release is started at most once. */
  lemma StartedOnce(R: Rules, worlds: seq<World>, steps: seq<Step>, n: nat, i: nat, j: nat)
    requires Lawful(R) && Trace(R, worlds, steps) && n < |worlds|
    requires var audit := worlds[n].db.audit;
             i < |audit| && j < |audit| && audit[i].id == audit[j].id && audit[i].kind == Start && audit[j].kind == Start
    ensures i == j
  {
    TraceKeeps(R, worlds, steps, n);
  }
}
