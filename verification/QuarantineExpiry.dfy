/** How the status of a quarantined upload moves. Scan and Promote look at the expiry before the status, so any
record they look at late becomes Expired, promoted or not. */
module QuarantineExpiry {
  import opened Wrappers
  import opened Quarantine
  import opened QuarantineRuns

  /** The only ways a status changes. */
  predicate Edge(a: Status, b: Status) {
    b.Expired? ||
    match a
    case Quarantined => b.Scanning?
    case Scanning => b.Clean? || b.ScanFailed? || b.Rejected?
    case Clean => b.Rejected? || b.PromotionFailed? || b.CleanupPending? || b.Promoted?
    case CleanupPending => b.Promoted?
    case _ => false
  }

  ghost predicate EdgesOk(w: World) {
    forall k :: k in w.workers && w.workers[k].Closing? ==>
      w.workers[k].next.id == w.workers[k].r.id && Edge(w.workers[k].r.status, w.workers[k].next.status)
  }

  lemma MovedAlongEdge(e: Env, w: World, s: Step)
    requires Enabled(e, w, s) && !Outside(s) && !Leaving(s)
    requires s.k in w.workers ==> WorkerGood(e, PastOf(w), w.workers[s.k])
    ensures var m := MovedTo(e, w, s); m.Closing? ==> m.next.id == m.r.id && Edge(m.r.status, m.next.status)
  {
  }

  lemma StepKeepsEdges(e: Env, w: World, s: Step)
    requires WorkersGood(e, PastOf(w), w.workers) && EdgesOk(w) && Enabled(e, w, s)
    ensures EdgesOk(Apply(e, w, s))
  {
    if !Outside(s) && !Leaving(s) { MovedAlongEdge(e, w, s); }
  }

  lemma {:induction false} RunKeepsEdges(e: Env, steps: seq<Step>, w: World)
    requires Run(e, steps, w)
    ensures Inv(e, w) && EdgesOk(w)
    decreases |steps|
  {
    RunKeeps(e, steps, w);
    if steps != [] {
      var n := |steps| - 1;
      var b :| RunOf(Machine(e), steps[..n], b) && Next(e, b, steps[n], w);
      RunKeepsEdges(e, steps[..n], b);
      StepKeepsEdges(e, b, steps[n]);
    }
  }

  lemma StepAlongEdge(e: Env, w: World, s: Step, id: string)
    requires RecordsGood(e, PastOf(w), w.store.records) && EdgesOk(w) && Enabled(e, w, s) && id in w.store.records
    ensures id in StoreAfter(e, w, s).records
    ensures var a, b := w.store.records[id].status, StoreAfter(e, w, s).records[id].status; a == b || Edge(a, b)
  {
  }

  /** From any reachable state a step leaves a record's status or moves it along an edge. */
  lemma StatusMovesAlongEdges(e: Env, steps: seq<Step>, w: World, s: Step, id: string)
    requires Run(e, steps, w) && Enabled(e, w, s) && id in w.store.records
    ensures var w' := Apply(e, w, s);
            && id in w'.store.records
            && (w.store.records[id].status == w'.store.records[id].status || Edge(w.store.records[id].status, w'.store.records[id].status))
  {
    RunKeepsEdges(e, steps, w);
    StepAlongEdge(e, w, s, id);
  }

  // ------------------------------------------------------------------ Promoted

  /** A Promoted record stays Promoted after a step if and only if the step is not the write of a worker that
  looked at it. */
  lemma StaysPromotedIff(e: Env, steps: seq<Step>, w: World, s: Step, id: string)
    requires Run(e, steps, w) && Enabled(e, w, s) && id in w.store.records && w.store.records[id].status.Promoted?
    ensures id in Apply(e, w, s).store.records
    ensures Apply(e, w, s).store.records[id].status.Promoted? <==> !(s.Close? && w.workers[s.k].r.id == id)
  {
    RunKeepsEdges(e, steps, w);
    StepAlongEdge(e, w, s, id);
    PromotedStep(e, w, s, id);
  }

  lemma PromotedStep(e: Env, w: World, s: Step, id: string)
    requires RecordsGood(e, PastOf(w), w.store.records) && EdgesOk(w) && Enabled(e, w, s)
    requires id in w.store.records && w.store.records[id].status.Promoted?
    ensures id in StoreAfter(e, w, s).records
    ensures StoreAfter(e, w, s).records[id].status.Promoted? <==> !(s.Close? && w.workers[s.k].r.id == id)
  {
  }

  /** No worker is about to write over a Promoted copy of the record. */
  predicate NonePending(w: World, id: string) {
    forall k :: k in w.workers && w.workers[k].Closing? && w.workers[k].r.id == id ==> !w.workers[k].r.status.Promoted?
  }

  /** No Scan or Promote looks at a Promoted copy of the record after its expiry. */
  predicate NotLate(w: World, s: Step, id: string) {
    s.Expire? && s.k in w.workers && w.workers[s.k].r.id == id ==> !w.workers[s.k].r.status.Promoted?
  }

  ghost predicate LeadsInTime(e: Env, w: World, steps: seq<Step>, w': World, id: string)
    decreases |steps|
  {
    if steps == [] then w' == w
    else Enabled(e, w, steps[0]) && NotLate(w, steps[0], id) && LeadsInTime(e, Apply(e, w, steps[0]), steps[1..], w', id)
  }

  lemma PendingStep(e: Env, w: World, s: Step, id: string)
    requires WorkersGood(e, PastOf(w), w.workers) && Enabled(e, w, s) && NonePending(w, id) && NotLate(w, s, id)
    ensures NonePending(Apply(e, w, s), id)
  {
    var w' := Apply(e, w, s);
    forall k | k in w'.workers && w'.workers[k].Closing? && w'.workers[k].r.id == id ensures !w'.workers[k].r.status.Promoted? {
      if !Outside(s) && !Leaving(s) && s.k == k {
        PendingMove(e, w, s, id);
      } else {
        assert k in w.workers && w'.workers[k] == w.workers[k];
      }
    }
  }

  lemma PendingMove(e: Env, w: World, s: Step, id: string)
    requires Enabled(e, w, s) && !Outside(s) && !Leaving(s) && NotLate(w, s, id)
    requires s.k in w.workers ==> WorkerGood(e, PastOf(w), w.workers[s.k])
    ensures var m := MovedTo(e, w, s); m.Closing? && m.r.id == id ==> !m.r.status.Promoted?
  {
  }

  /** A Promoted record stays Promoted as long as no Scan or Promote looks at it after its expiry. */
  lemma {:induction false} PromotedStaysInTime(e: Env, before: seq<Step>, w: World, more: seq<Step>, w': World, id: string)
    requires Run(e, before, w) && LeadsInTime(e, w, more, w', id) && NonePending(w, id)
    requires id in w.store.records && w.store.records[id].status.Promoted?
    ensures id in w'.store.records && w'.store.records[id].status.Promoted?
    decreases |more|
  {
    if more != [] {
      var c := Apply(e, w, more[0]);
      RunKeepsEdges(e, before, w);
      PromotedStep(e, w, more[0], id);
      PendingStep(e, w, more[0], id);
      RunNext(e, before, w, more[0], c);
      PromotedStaysInTime(e, before + [more[0]], c, more[1..], w', id);
    }
  }

  /** The condition is exact: one late Scan by a free worker makes any record Expired. */
  lemma LateScanExpires(e: Env, before: seq<Step>, w: World, id: string, k: nat, now: int) returns (more: seq<Step>, w': World)
    requires Run(e, before, w) && id in w.store.records && k !in w.workers && now > w.store.records[id].expiresAt
    ensures Leads(e, w, more, w') && w'.store == Swapped(w.store, w.store.records[id].(status := Expired))
    ensures id in w'.store.records && w'.store.records[id].status.Expired?
  {
    RunKeeps(e, before, w);
    assert w.store.records[id].id == id;
    ExpiryIsARun(e, w, k, id, now, ReadForScan(k, id));
    more := [ReadForScan(k, id)] + ([Expire(k, now)] + [Close(k)]);
    w' := w.(store := Swapped(w.store, w.store.records[id].(status := Expired)));
  }

  /** A run in which a promoted upload becomes Expired. */
  lemma PromotedIsNotFinal(e: Env, u: Upload, id: string, now: int, clean: Evidence, version: string)
    returns (steps: seq<Step>, w: World, more: seq<Step>, w': World)
    requires Acceptable(e, u, now) && e.ttl >= 0 && CompleteClean(clean)
    ensures Run(e, steps, w) && id in w.store.records && w.store.records[id].status.Promoted?
    ensures Leads(e, w, more, w') && id in w'.store.records && w'.store.records[id].status.Expired?
  {
    var before, d := ScannedAndRestored(e, u, id, now, u.payload, clean);
    var promote := PromoteIsARun(e, d, 0, id, now, true, true, Some(version), true);
    w := d.(store := PromoteCall(e, d.store, id, now, true, true, Some(version), true));
    RunThen(e, before, d, promote, w);
    steps := before + promote;
    PromotedByCall(e, d.store, u, id, now, clean, version);
    more, w' := LateScanExpires(e, steps, w, id, 0, now + e.ttl + 1);
  }

  lemma PromotedByCall(e: Env, s: Store, u: Upload, id: string, now: int, clean: Evidence, version: string)
    requires e.ttl >= 0
    requires s.records == map[id := NewRecord(e, id, u, now).(status := Clean, scan := clean)] && s.objects == map[id := u.payload]
    ensures var t := PromoteCall(e, s, id, now, true, true, Some(version), true);
            id in t.records && t.records[id].status.Promoted? && t.records[id].expiresAt == now + e.ttl
  {
  }

  // ------------------------------------------------------------------ Expired

  /** Expired is final, so an upload that expired while it waited for cleanup is never cleaned up. */
  lemma {:induction false} ExpiredIsFinal(e: Env, before: seq<Step>, w: World, more: seq<Step>, w': World, id: string)
    requires Run(e, before, w) && Leads(e, w, more, w') && id in w.store.records && w.store.records[id].status.Expired?
    ensures id in w'.store.records && w'.store.records[id].status.Expired?
    ensures CleanupCall(w'.store, id, true) == w'.store
    decreases |more|
  {
    if more != [] {
      var c :| Machine(e)(w, more[0], c) && LeadsOf(Machine(e), c, more[1..], w');
      StatusMovesAlongEdges(e, before, w, more[0], id);
      RunNext(e, before, w, more[0], c);
      ExpiredIsFinal(e, before + [more[0]], c, more[1..], w', id);
    }
  }
}
