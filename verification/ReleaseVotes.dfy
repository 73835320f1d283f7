/** Which votes a release record still lists: the log has them all, the record may have lost some. */
module ReleaseVotes {
  import opened Wrappers
  import opened Release
  import opened ReleaseRuns

  /** Approvals can be lost: two copies read together are both written back while the state stays the
  same, and the second write drops the first voter, whose vote remains only in the log. */
  lemma ApprovalCanBeLost(trim: Trim, db: Db, id: string, a: string, b: string, now: int)
    requires id in db.records && db.records[id].req.id == id && a != b
    requires Decide(trim, Approve(a), db.records[id], now).Ok? && Decide(trim, Approve(b), db.records[id], now).Ok?
    requires |db.records[id].approvers| + 1 < db.records[id].req.requiredApprovals
    ensures var r := db.records[id];
            var first, second := Decide(trim, Approve(a), r, now).value, Decide(trim, Approve(b), r, now).value;
            var db1 := Written(db, id, first.0, first.1); var db2 := Written(db1, id, second.0, second.1);
            && CanSwap(db, id, r.state) && CanSwap(db1, id, r.state)
            && a !in db2.records[id].approvers && b in db2.records[id].approvers
            && Voted(db2.audit, |db2.audit|, id, Approval, a)
  {
    var r := db.records[id];
    var first, second := Decide(trim, Approve(a), r, now).value, Decide(trim, Approve(b), r, now).value;
    assert (db.audit + [first.1] + [second.1])[|db.audit|] == first.1;
  }

  lemma TraceSnoc(R: Rules, worlds: seq<World>, steps: seq<Step>, s: Step, w: World)
    requires Trace(R, worlds, steps) && Next(R, worlds[|steps|], s, w)
    ensures Trace(R, worlds + [w], steps + [s])
  {
  }

  /** A release that awaits approval, read by the workers 1 and 2. */
  lemma TwoCopies(R: Rules, q: Request, actor: string, at: int, n: Record, e: Event) returns (worlds: seq<World>, steps: seq<Step>)
    requires R.valid(q) && R.decide(RequestApproval(actor), NewRecord(q, at), at) == Ok((n, e))
    ensures Trace(R, worlds, steps)
    ensures var w := worlds[|steps|]; w.db.records == map[q.id := n] && w.held == map[1 := n, 2 := n]
  {
    var r := NewRecord(q, at);
    var w1 := Apply(R, ReleaseRuns.EMPTY, Create(q, at));
    var w2 := Apply(R, w1, Get(0, q.id));
    var w3 := Apply(R, w2, Write(0, RequestApproval(actor), at));
    var w4 := Apply(R, w3, Get(1, q.id));
    var w5 := Apply(R, w4, Get(2, q.id));
    TraceSnoc(R, [ReleaseRuns.EMPTY], [], Create(q, at), w1);
    TraceSnoc(R, [ReleaseRuns.EMPTY] + [w1], [] + [Create(q, at)], Get(0, q.id), w2);
    var ws, ss := [ReleaseRuns.EMPTY] + [w1] + [w2], [] + [Create(q, at)] + [Get(0, q.id)];
    TraceSnoc(R, ws, ss, Write(0, RequestApproval(actor), at), w3);
    ws, ss := ws + [w3], ss + [Write(0, RequestApproval(actor), at)];
    TraceSnoc(R, ws, ss, Get(1, q.id), w4);
    ws, ss := ws + [w4], ss + [Get(1, q.id)];
    TraceSnoc(R, ws, ss, Get(2, q.id), w5);
    worlds, steps := ws + [w5], ss + [Get(2, q.id)];
  }

  /** Every valid request has a run from the empty store in which the first approval is lost. */
  lemma ApprovalIsLost(trim: Trim, q: Request, a: string, b: string, at: int) returns (worlds: seq<World>, steps: seq<Step>)
    requires ValidRequest(trim, q) && a != b && trim(a) != "" && trim(b) != "" && q.requestedBy !in {a, b}
    ensures Trace(TheRules(trim), worlds, steps)
    ensures var db := worlds[|steps|].db;
            && q.id in db.records && db.records[q.id].approvers == [b]
            && Voted(db.audit, |db.audit|, q.id, Approval, a)
  {
    var R := TheRules(trim);
    var pending := NewRecord(q, at).(state := PendingApproval);
    var asked := Event(q.id, ApprovalRequest, a, Some(Draft), PendingApproval, at);
    worlds, steps := TwoCopies(R, q, a, at, pending, asked);
    var w := worlds[|steps|];
    var w1 := Apply(R, w, Write(1, Approve(a), at));
    var w2 := Apply(R, w1, Write(2, Approve(b), at));
    TraceSnoc(R, worlds, steps, Write(1, Approve(a), at), w1);
    TraceSnoc(R, worlds + [w1], steps + [Write(1, Approve(a), at)], Write(2, Approve(b), at), w2);
    worlds, steps := worlds + [w1] + [w2], steps + [Write(1, Approve(a), at)] + [Write(2, Approve(b), at)];
    assert w2.db.audit[|w.db.audit|] == Event(q.id, Approval, a, Some(PendingApproval), PendingApproval, at);
  }

  function Voters(audit: seq<Event>, id: string, kind: Kind): seq<string> {
    if audit == [] then []
    else
      var n := |audit| - 1;
      Voters(audit[..n], id, kind) + if audit[n].id == id && audit[n].kind == kind then [audit[n].actor] else []
  }

  lemma VotersStep(audit: seq<Event>, e: Event, id: string, kind: Kind)
    ensures Voters(audit + [e], id, kind) == Voters(audit, id, kind) + if e.id == id && e.kind == kind then [e.actor] else []
  {
  }

  datatype Call = File(q: Request, at: int) | Perform(id: string, op: Op, now: int)

  /** Uninterrupted calls, one after another. */
  function Called(R: Rules, db: Db, c: Call): Db {
    match c
    case File(q, at) =>
      if R.valid(q) && q.id !in db.records
      then Written(db, q.id, NewRecord(q, at), Event(q.id, Creation, q.requestedBy, None, Draft, at)) else db
    case Perform(id, op, now) =>
      if id in db.records && R.decide(op, db.records[id], now).Ok?
      then Written(db, id, R.decide(op, db.records[id], now).value.0, R.decide(op, db.records[id], now).value.1) else db
  }

  /** `Called` is what the controller's methods do. */
  lemma CalledIsPerformed(trim: Trim, db: Db, id: string, op: Op, now: int)
    ensures Called(TheRules(trim), db, Perform(id, op, now)) == Performed(trim, db, id, op, now).0
  {
  }

  function AllCalled(R: Rules, calls: seq<Call>): Db {
    if calls == [] then Db(map[], []) else Called(R, AllCalled(R, calls[..|calls| - 1]), calls[|calls| - 1])
  }

  predicate EveryVoteKept(audit: seq<Event>, r: Record) {
    && r.approvers == Voters(audit, r.req.id, Approval)
    && r.rollbackApprovers == Voters(audit, r.req.id, RollbackApproval)
    && (Rank(r.state) < 5 ==> r.rollbackApprovers == [])
  }

  ghost predicate Kept(db: Db) {
    && (forall id :: id in db.records ==> db.records[id].req.id == id && EveryVoteKept(db.audit, db.records[id]))
    && (forall id :: id !in db.records ==> Voters(db.audit, id, Approval) == [] && Voters(db.audit, id, RollbackApproval) == [])
  }

  lemma EdgeKeepsVotes(audit: seq<Event>, r: Record, n: Record, e: Event)
    requires EveryVoteKept(audit, r) && Edge(r, n, e)
    ensures EveryVoteKept(audit + [e], n)
  {
  }

  lemma OthersKeepVotes(db: Db, id: string, n: Record, e: Event)
    requires Kept(db) && e.id == id == n.req.id && EveryVoteKept(db.audit + [e], n)
    ensures Kept(Written(db, id, n, e))
  {
    forall x ensures x != id ==> Voters(db.audit + [e], x, Approval) == Voters(db.audit, x, Approval) &&
                                 Voters(db.audit + [e], x, RollbackApproval) == Voters(db.audit, x, RollbackApproval)
    {
      VotersStep(db.audit, e, x, Approval);
      VotersStep(db.audit, e, x, RollbackApproval);
    }
  }

  lemma CallKeepsVotes(R: Rules, db: Db, c: Call)
    requires Lawful(R) && Kept(db)
    ensures Kept(Called(R, db, c))
  {
    match c
    case File(q, at) =>
      var e := Event(q.id, Creation, q.requestedBy, None, Draft, at);
      if q.id !in db.records {
        VotersStep(db.audit, e, q.id, Approval);
        VotersStep(db.audit, e, q.id, RollbackApproval);
        OthersKeepVotes(db, q.id, NewRecord(q, at), e);
      }
    case Perform(id, op, now) =>
      if id in db.records && R.decide(op, db.records[id], now).Ok? {
        var p := R.decide(op, db.records[id], now).value;
        EdgeKeepsVotes(db.audit, db.records[id], p.0, p.1);
        OthersKeepVotes(db, id, p.0, p.1);
      }
  }

  /** When calls do not overlap nothing is lost: the record lists exactly the logged voters, in order. */
  lemma {:induction false} SerialCallsKeepEveryVote(R: Rules, calls: seq<Call>)
    requires Lawful(R)
    ensures Kept(AllCalled(R, calls))
  {
    if calls != [] {
      SerialCallsKeepEveryVote(R, calls[..|calls| - 1]);
      CallKeepsVotes(R, AllCalled(R, calls[..|calls| - 1]), calls[|calls| - 1]);
    }
  }

  // ------------------------------------------------------------------ exactly when no vote is lost

  /** Never more votes than the log has, and no rollback votes before a rollback is requested. */
  predicate Short(audit: seq<Event>, r: Record) {
    && |r.approvers| <= |Voters(audit, r.req.id, Approval)|
    && |r.rollbackApprovers| <= |Voters(audit, r.req.id, RollbackApproval)|
    && (Rank(r.state) < 5 ==> r.rollbackApprovers == [])
  }

  /** How a held copy `h` compares with the stored record `r`. In the same state the votes can differ only
  where votes are being cast, and a copy with every logged vote has the stored ones. */
  predicate Tracks(audit: seq<Event>, h: Record, r: Record) {
    && h.req == r.req && Rank(h.state) <= Rank(r.state) && Short(audit, h)
    && (h.state == r.state && !h.state.PendingApproval? ==> h.approvers == r.approvers)
    && (h.state == r.state && !h.state.RollbackRequested? ==> h.rollbackApprovers == r.rollbackApprovers)
    && (h.approvers == Voters(audit, h.req.id, Approval) ==> h.approvers == r.approvers)
    && (h.rollbackApprovers == Voters(audit, h.req.id, RollbackApproval) ==> h.rollbackApprovers == r.rollbackApprovers)
  }

  ghost predicate VotesInv(w: World) {
    && (forall id :: id in w.db.records ==> w.db.records[id].req.id == id && Short(w.db.audit, w.db.records[id]))
    && (forall k :: k in w.held ==>
          w.held[k].req.id in w.db.records && Tracks(w.db.audit, w.held[k], w.db.records[w.held[k].req.id]))
  }

  /** A write from copy `h` leaves every logged vote in the record if and only if they were all there and
  `h` has the votes of the stored record. A lost vote never comes back. */
  lemma WriteKeepsVotesIff(audit: seq<Event>, h: Record, r: Record, n: Record, e: Event)
    requires Tracks(audit, h, r) && Short(audit, r) && h.state == r.state && Edge(h, n, e)
    ensures EveryVoteKept(audit + [e], n) <==> EveryVoteKept(audit, r) && SameVotes(r, h)
  {
    VotersStep(audit, e, r.req.id, Approval);
    VotersStep(audit, e, r.req.id, RollbackApproval);
    if e.kind == Approval { SameFront(h.approvers, Voters(audit, r.req.id, Approval), e.actor); }
    if e.kind == RollbackApproval { SameFront(h.rollbackApprovers, Voters(audit, r.req.id, RollbackApproval), e.actor); }
  }

  lemma SameFront(a: seq<string>, b: seq<string>, x: string)
    ensures a + [x] == b + [x] <==> a == b
  {
    if a + [x] == b + [x] {
      assert (a + [x])[..|a|] == a && (b + [x])[..|b|] == b;
    }
  }

  lemma WriteIsShort(audit: seq<Event>, h: Record, n: Record, e: Event)
    requires Short(audit, h) && Edge(h, n, e)
    ensures Short(audit + [e], n)
  {
    VotersStep(audit, e, h.req.id, Approval);
    VotersStep(audit, e, h.req.id, RollbackApproval);
  }

  lemma ShortStays(audit: seq<Event>, e: Event, r: Record)
    requires Short(audit, r)
    ensures Short(audit + [e], r)
  {
    VotersStep(audit, e, r.req.id, Approval);
    VotersStep(audit, e, r.req.id, RollbackApproval);
  }

  /** Another worker's copy still tracks the record after a write from copy `h`. */
  lemma OthersTrack(audit: seq<Event>, o: Record, h: Record, r: Record, n: Record, e: Event)
    requires Tracks(audit, o, r) && Tracks(audit, h, r) && h.state == r.state && Edge(h, n, e)
    ensures Tracks(audit + [e], o, n)
  {
    ShortStays(audit, e, o);
    VotersStep(audit, e, r.req.id, Approval);
    VotersStep(audit, e, r.req.id, RollbackApproval);
  }

  lemma UnrelatedTracks(audit: seq<Event>, e: Event, o: Record, r: Record)
    requires Tracks(audit, o, r) && e.id != o.req.id
    ensures Tracks(audit + [e], o, r)
  {
    VotersStep(audit, e, o.req.id, Approval);
    VotersStep(audit, e, o.req.id, RollbackApproval);
  }

  lemma StepKeepsVotesInv(R: Rules, w: World, s: Step)
    requires Lawful(R) && VotesInv(w) && Enabled(R, w, s)
    ensures VotesInv(Apply(R, w, s))
  {
    if s.Write? {
      var p := R.decide(s.op, w.held[s.worker], s.now).value;
      WriteKeepsVotesInv(w, s.worker, p.0, p.1);
    } else if s.Create? {
      CreateKeepsVotesInv(w, s.q, s.at);
    }
  }

  lemma WriteKeepsVotesInv(w: World, worker: nat, n: Record, e: Event)
    requires VotesInv(w) && worker in w.held && CanSwap(w.db, w.held[worker].req.id, w.held[worker].state)
    requires Edge(w.held[worker], n, e)
    ensures VotesInv(World(Written(w.db, w.held[worker].req.id, n, e), w.held - {worker}))
  {
    var h := w.held[worker];
    var db := Written(w.db, h.req.id, n, e);
    forall id | id in db.records ensures db.records[id].req.id == id && Short(db.audit, db.records[id]) {
      if id == h.req.id { WriteIsShort(w.db.audit, h, n, e); } else { ShortStays(w.db.audit, e, w.db.records[id]); }
    }
    forall k | k in w.held && k != worker
      ensures w.held[k].req.id in db.records && Tracks(db.audit, w.held[k], db.records[w.held[k].req.id])
    {
      var o := w.held[k];
      if o.req.id == h.req.id { OthersTrack(w.db.audit, o, h, w.db.records[h.req.id], n, e); }
      else { UnrelatedTracks(w.db.audit, e, o, w.db.records[o.req.id]); }
    }
  }

  lemma CreateKeepsVotesInv(w: World, q: Request, at: int)
    requires VotesInv(w) && q.id !in w.db.records
    ensures VotesInv(w.(db := Written(w.db, q.id, NewRecord(q, at), Event(q.id, Creation, q.requestedBy, None, Draft, at))))
  {
    var e := Event(q.id, Creation, q.requestedBy, None, Draft, at);
    forall id | id in w.db.records ensures Short(w.db.audit + [e], w.db.records[id]) { ShortStays(w.db.audit, e, w.db.records[id]); }
    forall k | k in w.held ensures Tracks(w.db.audit + [e], w.held[k], w.db.records[w.held[k].req.id]) {
      UnrelatedTracks(w.db.audit, e, w.held[k], w.db.records[w.held[k].req.id]);
    }
  }

  lemma {:induction false} TraceKeepsVotesInv(R: Rules, worlds: seq<World>, steps: seq<Step>, n: nat)
    requires Lawful(R) && Trace(R, worlds, steps) && n < |worlds|
    ensures VotesInv(worlds[n])
  {
    if n > 0 {
      TraceKeepsVotesInv(R, worlds, steps, n - 1);
      assert Next(R, worlds[n - 1], steps[n - 1], worlds[n]);
      StepKeepsVotesInv(R, worlds[n - 1], steps[n - 1]);
    }
  }

  /** A step that writes release `id` does so from a copy with the votes of the stored record. */
  predicate Current(w: World, s: Step, id: string) {
    s.Write? && s.worker in w.held && w.held[s.worker].req.id == id && id in w.db.records ==>
      SameVotes(w.db.records[id], w.held[s.worker])
  }

  ghost predicate AllCurrent(worlds: seq<World>, steps: seq<Step>, n: nat, id: string)
    requires n <= |steps| && n < |worlds|
  {
    forall i :: 0 <= i < n ==> Current(worlds[i], steps[i], id)
  }

  lemma {:induction false} NoVotersYet(audit: seq<Event>, id: string, kind: Kind)
    requires forall i :: 0 <= i < |audit| ==> audit[i].id != id
    ensures Voters(audit, id, kind) == []
  {
    if audit != [] { NoVotersYet(audit[..|audit| - 1], id, kind); }
  }

  /** One step of a run: the votes of a release stay complete exactly when the step is current. */
  lemma StepCompleteIff(R: Rules, w: World, s: Step, id: string)
    requires Lawful(R) && ReleaseRuns.Inv(w) && VotesInv(w) && Enabled(R, w, s) && id in Apply(R, w, s).db.records
    ensures var w' := Apply(R, w, s);
            EveryVoteKept(w'.db.audit, w'.db.records[id]) <==>
            (id in w.db.records ==> EveryVoteKept(w.db.audit, w.db.records[id])) && Current(w, s, id)
  {
    if s.Write? {
      var h := w.held[s.worker];
      var p := R.decide(s.op, h, s.now).value;
      assert Edge(h, p.0, p.1) && CanSwap(w.db, h.req.id, h.state);
      if h.req.id == id { WriteKeepsVotesIff(w.db.audit, h, w.db.records[id], p.0, p.1); }
      else { UnrelatedVotes(w.db.audit, p.1, w.db.records[id], id); }
    } else if s.Create? {
      CreateCompleteIff(w, s.q, s.at, id);
    }
  }

  lemma UnrelatedVotes(audit: seq<Event>, e: Event, r: Record, id: string)
    requires r.req.id == id && (e.id == id ==> e.kind != Approval && e.kind != RollbackApproval)
    ensures EveryVoteKept(audit + [e], r) <==> EveryVoteKept(audit, r)
  {
    VotersStep(audit, e, id, Approval);
    VotersStep(audit, e, id, RollbackApproval);
  }

  lemma CreateCompleteIff(w: World, q: Request, at: int, id: string)
    requires ReleaseRuns.Inv(w) && q.id !in w.db.records && (id in w.db.records || id == q.id)
    ensures var e := Event(q.id, Creation, q.requestedBy, None, Draft, at);
            var db := Written(w.db, q.id, NewRecord(q, at), e);
            EveryVoteKept(db.audit, db.records[id]) <==> (id in w.db.records ==> EveryVoteKept(w.db.audit, w.db.records[id]))
  {
    var e := Event(q.id, Creation, q.requestedBy, None, Draft, at);
    if id in w.db.records {
      UnrelatedVotes(w.db.audit, e, w.db.records[id], id);
    } else {
      forall i | 0 <= i < |w.db.audit| ensures w.db.audit[i].id != id { assert Behind(w.db, w.db.audit[i]); }
      NoVotersYet(w.db.audit, id, Approval);
      NoVotersYet(w.db.audit, id, RollbackApproval);
      UnrelatedVotes(w.db.audit, e, NewRecord(q, at), id);
    }
  }

  /** At any point of any interleaving a release lists every logged vote, in order, if and only if every
  write to it so far came from a copy with the votes stored at that moment. */
  lemma {:induction false} VotesCompleteIff(R: Rules, worlds: seq<World>, steps: seq<Step>, n: nat, id: string)
    requires Lawful(R) && Trace(R, worlds, steps) && n < |worlds| && id in worlds[n].db.records
    ensures EveryVoteKept(worlds[n].db.audit, worlds[n].db.records[id]) <==> AllCurrent(worlds, steps, n, id)
  {
    if n > 0 {
      TraceKeeps(R, worlds, steps, n - 1);
      TraceKeepsVotesInv(R, worlds, steps, n - 1);
      var w, s := worlds[n - 1], steps[n - 1];
      assert Next(R, w, s, worlds[n]);
      StepCompleteIff(R, w, s, id);
      if id in w.db.records {
        VotesCompleteIff(R, worlds, steps, n - 1, id);
      } else {
        NothingWrittenBefore(R, worlds, steps, n - 1, id);
      }
    }
  }

  lemma {:induction false} NothingWrittenBefore(R: Rules, worlds: seq<World>, steps: seq<Step>, n: nat, id: string)
    requires Lawful(R) && Trace(R, worlds, steps) && n < |worlds| && id !in worlds[n].db.records
    ensures AllCurrent(worlds, steps, n, id)
  {
    forall i | 0 <= i < n ensures Current(worlds[i], steps[i], id) {
      if id in worlds[i].db.records { StateMovesForward(R, worlds, steps, i, n, id); }
    }
  }
}
