/** When PUBLISHED is final. A publisher writes back by id alone, so only the lease keeps a second worker
away from a row that a first one still holds. */
module Leases {
  import opened Messaging
  import opened Outbox
  import opened Publishing

  ghost predicate Leads(c: Codec, p: World, steps: seq<Step>, q: World)
    decreases |steps|
  {
    if steps == [] then q == p
    else Enabled(c, p, steps[0]) && Leads(c, Apply(p, steps[0]), steps[1..], q)
  }

  /** The only step that takes PUBLISHED back is the retry of a worker whose failed item is that row. */
  lemma StaysPublishedIff(c: Codec, p: World, step: Step, id: string)
    requires Inv(c, p) && Enabled(c, p, step) && id in p.rows && p.rows[id].status == Published
    ensures id in Apply(p, step).rows
    ensures Apply(p, step).rows[id].status == Published <==>
            !(step.Retry? && WorkerAt(p, step.w).item.id == id)
  {
  }

  /** Between its claim and its write-back. */
  predicate Holds(w: Worker, id: string) {
    (w.Holding? || w.Failed? || w.Sent?) && w.item.id == id
  }

  /** No expired lease is reset while a worker still holds the row. */
  predicate InTime(p: World, step: Step) {
    step.Recover? ==>
      forall k :: k in p.workers && !p.workers[k].Idle? && !p.workers[k].Batch? ==>
        !(p.workers[k].item.id in p.rows && p.rows[p.workers[k].item.id].status == Processing &&
          p.rows[p.workers[k].item.id].nextAt <= step.now)
  }

  ghost predicate LeadsInTime(c: Codec, p: World, steps: seq<Step>, q: World)
    decreases |steps|
  {
    if steps == [] then q == p
    else Enabled(c, p, steps[0]) && InTime(p, steps[0]) && LeadsInTime(c, Apply(p, steps[0]), steps[1..], q)
  }

  /** Mutual exclusion: a held row is PROCESSING and has one holder. */
  ghost predicate Exclusive(p: World) {
    && (forall k, id :: k in p.workers && Holds(p.workers[k], id) ==> id in p.rows && p.rows[id].status == Processing)
    && (forall k, l, id :: k in p.workers && l in p.workers && Holds(p.workers[k], id) && Holds(p.workers[l], id) ==> k == l)
  }

  lemma HeldStays(c: Codec, p: World, step: Step, k: nat, id: string)
    requires Enabled(c, p, step) && InTime(p, step) && Exclusive(p)
    requires k in Apply(p, step).workers && Holds(Apply(p, step).workers[k], id)
    ensures id in Apply(p, step).rows && Apply(p, step).rows[id].status == Processing
  {
  }

  lemma OneHolder(c: Codec, p: World, step: Step, k: nat, l: nat, id: string)
    requires Enabled(c, p, step) && Exclusive(p)
    requires k in Apply(p, step).workers && Holds(Apply(p, step).workers[k], id)
    requires l in Apply(p, step).workers && Holds(Apply(p, step).workers[l], id)
    ensures k == l
  {
  }

  lemma StepExcludes(c: Codec, p: World, step: Step)
    requires Enabled(c, p, step) && InTime(p, step) && Exclusive(p)
    ensures Exclusive(Apply(p, step))
  {
    var q := Apply(p, step);
    forall k, id | k in q.workers && Holds(q.workers[k], id) ensures id in q.rows && q.rows[id].status == Processing {
      HeldStays(c, p, step, k, id);
    }
    forall k, l, id | k in q.workers && l in q.workers && Holds(q.workers[k], id) && Holds(q.workers[l], id) ensures k == l {
      OneHolder(c, p, step, k, l, id);
    }
  }

  /** In a run whose workers finish before their leases are reset, every row has at most one holder, a held
  row is PROCESSING, and so a row that is PUBLISHED stays PUBLISHED. */
  lemma PublishedIsFinalInTime(c: Codec, before: seq<Step>, p: World, after: seq<Step>, q: World, id: string)
    requires LeadsInTime(c, EMPTY, before, p) && LeadsInTime(c, p, after, q)
    requires id in p.rows && p.rows[id].status == Published
    ensures Exclusive(p) && Exclusive(q)
    ensures id in q.rows && q.rows[id].status == Published
  {
    InTimeExcludes(c, EMPTY, before, p);
    InTimeExcludes(c, p, after, q);
    StaysInTime(c, p, after, q, id);
  }

  lemma {:induction false} InTimeExcludes(c: Codec, p: World, steps: seq<Step>, q: World)
    requires LeadsInTime(c, p, steps, q) && Exclusive(p)
    ensures Exclusive(q)
    decreases |steps|
  {
    if steps != [] {
      StepExcludes(c, p, steps[0]);
      InTimeExcludes(c, Apply(p, steps[0]), steps[1..], q);
    }
  }

  lemma {:induction false} StaysInTime(c: Codec, p: World, steps: seq<Step>, q: World, id: string)
    requires LeadsInTime(c, p, steps, q) && Exclusive(p) && id in p.rows && p.rows[id].status == Published
    ensures id in q.rows && q.rows[id].status == Published
    decreases |steps|
  {
    if steps != [] {
      StepExcludes(c, p, steps[0]);
      StepStaysPublished(c, p, steps[0], id);
      StaysInTime(c, Apply(p, steps[0]), steps[1..], q, id);
    }
  }

  lemma StepStaysPublished(c: Codec, p: World, step: Step, id: string)
    requires Enabled(c, p, step) && Exclusive(p) && id in p.rows && p.rows[id].status == Published
    ensures id in Apply(p, step).rows && Apply(p, step).rows[id].status == Published
  {
    if step.Retry? { assert Holds(WorkerAt(p, step.w), WorkerAt(p, step.w).item.id); }
  }

  // ------------------------------------------------------------------ an overrun lease

  lemma First(c: Codec, p: World, step: Step, rest: seq<Step>, q: World)
    requires Enabled(c, p, step) && Leads(c, Apply(p, step), rest, q)
    ensures Leads(c, p, [step] + rest, q)
  {
    assert ([step] + rest)[1..] == rest;
  }

  lemma Two(c: Codec, p: World, a: Step, b: Step)
    requires Enabled(c, p, a) && Enabled(c, Apply(p, a), b)
    ensures Leads(c, p, [a] + ([b] + []), Apply(Apply(p, a), b))
  {
    First(c, Apply(p, a), b, [], Apply(Apply(p, a), b));
    First(c, p, a, [b] + [], Apply(Apply(p, a), b));
  }

  lemma {:induction false} Then(c: Codec, p: World, some: seq<Step>, q: World, more: seq<Step>, r: World)
    requires Leads(c, p, some, q) && Leads(c, q, more, r)
    ensures Leads(c, p, some + more, r)
    decreases |some|
  {
    if some == [] {
      assert some + more == more;
    } else {
      Then(c, Apply(p, some[0]), some[1..], q, more, r);
      assert (some + more)[1..] == some[1..] + more;
    }
  }

  /** A worker that has nothing reads one due row and claims it. */
  lemma Take(c: Codec, p: World, id: string, w: nat, now: int) returns (steps: seq<Step>, q: World)
    requires w !in p.workers && Due(p.rows, now, id)
    ensures Leads(c, p, steps, q)
    ensures q == p.(rows := p.rows[id := p.rows[id].(status := Processing, nextAt := now + LEASE)],
                    workers := p.workers[w := Holding(Item(id, p.rows[id].msg, p.rows[id].attempts), [])])
  {
    var item := Item(id, p.rows[id].msg, p.rows[id].attempts);
    var read, take := Query(w, [item], 1, now), Publishing.Step.Claim(w, now);
    Two(c, p, read, take);
    steps, q := [read] + ([take] + []), Apply(Apply(p, read), take);
    assert [item][1..] == [];
    assert q.workers == p.workers[w := Holding(item, [])];
  }

  /** A worker that holds a row publishes it: the bus accepts, the row is marked. */
  lemma Publish(c: Codec, p: World, id: string, w: nat, wire: Wire) returns (steps: seq<Step>, q: World)
    requires w in p.workers && p.workers[w].Holding? && p.workers[w].item.id == id && id in p.rows
    requires c.encodes(p.workers[w].item.msg, wire)
    ensures Leads(c, p, steps, q) && q.rows == p.rows[id := p.rows[id].(status := Published)]
    ensures q.bus == p.bus + {(id, wire)}
    ensures q.workers.Keys == p.workers.Keys && forall l :: l in p.workers && l != w ==> q.workers[l] == p.workers[l]
  {
    Two(c, p, Accept(w, wire), Mark(w));
    steps, q := [Accept(w, wire)] + ([Mark(w)] + []), Apply(Apply(p, Accept(w, wire)), Mark(w));
  }

  /** A message is stored, claimed by a free worker and published. */
  lemma PublishNew(c: Codec, p: World, m: Message, w: nat, wire: Wire) returns (steps: seq<Step>, q: World)
    requires m.id !in p.rows && w !in p.workers && c.good(m) && c.encodes(m, wire)
    ensures Leads(c, p, steps, q) && q.bus == p.bus + {(m.id, wire)}
    ensures q.rows.Keys == p.rows.Keys + {m.id} && q.workers.Keys == p.workers.Keys + {w}
  {
    var p1 := Apply(p, Enqueue(m, 0));
    var take, p2 := Take(c, p1, m.id, w, 0);
    var publish;
    publish, q := Publish(c, p2, m.id, w, wire);
    Then(c, p1, take, p2, publish, q);
    First(c, p, Enqueue(m, 0), take + publish, q);
    steps := [Enqueue(m, 0)] + (take + publish);
  }

  /** A worker that holds a row whose publication failed, or fails now, puts it back. */
  lemma PutBack(c: Codec, p: World, id: string, w: nat) returns (steps: seq<Step>, q: World)
    requires w in p.workers && (p.workers[w].Holding? || p.workers[w].Failed?) && p.workers[w].item.id == id && id in p.rows
    ensures Leads(c, p, steps, q) && id in q.rows && q.rows[id].status != Published
  {
    var back := Publishing.Step.Retry(w, 0);
    if p.workers[w].Holding? {
      Two(c, p, Fail(w), back);
      steps, q := [Fail(w)] + ([back] + []), Apply(Apply(p, Fail(w)), back);
    } else {
      q := Apply(p, back);
      First(c, p, back, [], q);
      steps := [back] + [];
    }
  }

  lemma FreeWorker(workers: map<nat, Worker>) returns (w: nat)
    ensures w !in workers
  {
    w := 0;
    var rest := workers.Keys;
    while exists k :: k in rest && k >= w
      invariant rest <= workers.Keys && forall k :: k in workers && k !in rest ==> k < w
      decreases rest
    {
      var k :| k in rest && k >= w;
      rest, w := rest - {k}, k + 1;
    }
  }

  /** Two workers hold one row: it can be published by one of them and put back by the other. */
  lemma TwoHoldersUndo(c: Codec, p: World, id: string, k: nat, w: nat, wire: Wire)
    returns (publish: seq<Step>, q: World, undo: seq<Step>, r: World)
    requires k in p.workers && w in p.workers && k != w && id in p.rows
    requires Holds(p.workers[k], id) && p.workers[w].Holding? && Holds(p.workers[w], id)
    requires c.encodes(p.workers[w].item.msg, wire)
    ensures Leads(c, p, publish, q) && id in q.rows && q.rows[id].status == Published
    ensures Leads(c, q, undo, r) && id in r.rows && r.rows[id].status != Published
  {
    if p.workers[k].Sent? {
      q := Apply(p, Mark(k));
      First(c, p, Mark(k), [], q);
      publish := [Mark(k)] + [];
      undo, r := PutBack(c, q, id, w);
    } else {
      publish, q := Publish(c, p, id, w, wire);
      undo, r := PutBack(c, q, id, k);
    }
  }

  /** The condition is exact: as soon as a lease is reset under a worker that still holds the row, the row can
  become PUBLISHED and be taken back. */
  lemma OverrunLeaseUnpublishes(c: Codec, p: World, id: string, k: nat, now: int, wire: Wire)
    returns (publish: seq<Step>, q: World, undo: seq<Step>, r: World)
    requires k in p.workers && Holds(p.workers[k], id) && id in p.rows
    requires p.rows[id].status == Processing && p.rows[id].nextAt <= now && c.encodes(p.rows[id].msg, wire)
    ensures publish != [] && publish[0] == Recover(now) && !InTime(p, Recover(now))
    ensures Leads(c, p, publish, q) && id in q.rows && q.rows[id].status == Published
    ensures Leads(c, q, undo, r) && id in r.rows && r.rows[id].status != Published
  {
    var p1 := Apply(p, Recover(now));
    var w := FreeWorker(p1.workers);
    var take, p2 := Take(c, p1, id, w, now);
    var more;
    more, q, undo, r := TwoHoldersUndo(c, p2, id, k, w, wire);
    Then(c, p1, take, p2, more, q);
    First(c, p, Recover(now), take + more, q);
    publish := [Recover(now)] + (take + more);
  }

  /** Such a run exists from the empty tables: one message, one worker that overruns its lease. */
  lemma PublishedIsNotFinal(c: Codec, m: Message, wire: Wire) returns (steps: seq<Step>, q: World, undo: seq<Step>, r: World)
    requires c.good(m) && c.encodes(m, wire)
    ensures Leads(c, EMPTY, steps, q) && m.id in q.rows && q.rows[m.id].status == Published
    ensures Leads(c, q, undo, r) && m.id in r.rows && r.rows[m.id].status != Published
  {
    var p1 := Apply(EMPTY, Enqueue(m, 0));
    var take, p2 := Take(c, p1, m.id, 0, 0);
    var more;
    more, q, undo, r := OverrunLeaseUnpublishes(c, p2, m.id, 0, LEASE, wire);
    Then(c, p1, take, p2, more, q);
    First(c, EMPTY, Enqueue(m, 0), take + more, q);
    steps := [Enqueue(m, 0)] + (take + more);
  }
}
