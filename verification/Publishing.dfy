/** Any number of publisher workers over one outbox, in every interleaving.

Each SQL statement and each call to the bus is one step. Workers hold snapshots that go stale, leases
expire while a worker still works, workers stop at any point, and the bus may accept a message and
still report an error. Which messages may be enqueued and how they are encoded is the parameter `Codec`;
module Delivery instantiates it with the real envelope. `failures` counts the tries that really failed; no step reads it. */
module Publishing {
  import opened Messaging
  import opened Outbox

  datatype Worker =
    | Idle
    | Batch(rest: seq<Item>)
    | Holding(item: Item, rest: seq<Item>)
    | Failed(item: Item, rest: seq<Item>)
    | Sent(item: Item, rest: seq<Item>)

  /** `bus` holds every accepted wire message with the row it was sent for. */
  datatype World = World(
    rows: Rows, workers: map<nat, Worker>, bus: set<(string, Wire)>, failures: map<string, nat>)

  const EMPTY := World(map[], map[], {}, map[])

  function WorkerAt(p: World, w: nat): Worker {
    if w in p.workers then p.workers[w] else Idle
  }

  function Failures(p: World, id: string): nat {
    if id in p.failures then p.failures[id] else 0
  }

  datatype Step =
    | Enqueue(m: Message, now: int)
    | Recover(now: int)
    | Query(w: nat, items: seq<Item>, limit: int, now: int)
    | Claim(w: nat, now: int)
    | Accept(w: nat, wire: Wire)
    | AcceptButFail(w: nat, wire: Wire)
    | Fail(w: nat)
    | Mark(w: nat)
    | Retry(w: nat, now: int)
    | Crash(w: nat)

  datatype Codec = Codec(good: Message -> bool, encodes: (Message, Wire) -> bool)

  ghost predicate Enabled(c: Codec, p: World, step: Step) {
    match step
    case Enqueue(m, now) => m.id !in p.rows && c.good(m)
    case Recover(now) => true
    case Query(w, items, limit, now) => WorkerAt(p, w).Idle? && Snapshot(p.rows, now, limit, items)
    case Claim(w, now) => WorkerAt(p, w).Batch? && WorkerAt(p, w).rest != []
    case Accept(w, wire) => WorkerAt(p, w).Holding? && c.encodes(WorkerAt(p, w).item.msg, wire)
    case AcceptButFail(w, wire) => WorkerAt(p, w).Holding? && c.encodes(WorkerAt(p, w).item.msg, wire)
    case Fail(w) => WorkerAt(p, w).Holding?
    case Mark(w) => WorkerAt(p, w).Sent?
    case Retry(w, now) => WorkerAt(p, w).Failed?
    case Crash(w) => true
  }

  function Apply(p: World, step: Step): World {
    match step
    case Enqueue(m, now) => p.(rows := Inserted(p.rows, m, now))
    case Recover(now) => p.(rows := Recovered(p.rows, now))
    case Query(w, items, _, _) => p.(workers := p.workers[w := Batch(items)])
    case Claim(w, now) =>
      (match WorkerAt(p, w)
       case Batch(items) =>
         if items == [] then p
         else if Claimable(p.rows, items[0].id) then
           p.(rows := Claimed(p.rows, items[0].id, now), workers := p.workers[w := Holding(items[0], items[1..])])
         else p.(workers := p.workers[w := Batch(items[1..])])
       case _ => p)
    case Accept(w, wire) =>
      (match WorkerAt(p, w)
       case Holding(item, rest) =>
         p.(bus := p.bus + {(item.id, wire)}, workers := p.workers[w := Sent(item, rest)])
       case _ => p)
    case AcceptButFail(w, wire) =>
      (match WorkerAt(p, w)
       case Holding(item, rest) =>
         p.(bus := p.bus + {(item.id, wire)}, workers := p.workers[w := Failed(item, rest)],
            failures := p.failures[item.id := Failures(p, item.id) + 1])
       case _ => p)
    case Fail(w) =>
      (match WorkerAt(p, w)
       case Holding(item, rest) =>
         p.(workers := p.workers[w := Failed(item, rest)], failures := p.failures[item.id := Failures(p, item.id) + 1])
       case _ => p)
    case Mark(w) =>
      (match WorkerAt(p, w)
       case Sent(item, rest) =>
         p.(rows := MarkedPublished(p.rows, item.id), workers := p.workers[w := Batch(rest)])
       case _ => p)
    case Retry(w, now) =>
      (match WorkerAt(p, w)
       case Failed(item, rest) =>
         p.(rows := Retried(p.rows, item, now), workers := p.workers[w := Batch(rest)])
       case _ => p)
    case Crash(w) => p.(workers := p.workers[w := Idle])
  }

  ghost predicate Run(c: Codec, steps: seq<Step>, p: World)
    decreases |steps|
  {
    if steps == [] then p == EMPTY
    else
      var n := |steps| - 1;
      exists q :: Run(c, steps[..n], q) && Enabled(c, q, steps[n]) && p == Apply(q, steps[n])
  }

  // ------------------------------------------------------------------ the invariant

  /** The bus has accepted a message for this row. */
  ghost predicate WasAccepted(p: World, id: string) {
    exists wire :: (id, wire) in p.bus
  }

  ghost predicate RowOk(c: Codec, p: World, id: string)
    requires id in p.rows
  {
    var row := p.rows[id];
    && row.msg.id == id && c.good(row.msg)
    && row.attempts <= Failures(p, id)
    && row.attempts <= MAX_ATTEMPTS
    && (row.status.Pending? || row.status.Processing? ==> row.attempts < MAX_ATTEMPTS)
    && (row.status.Dead? ==> row.attempts == MAX_ATTEMPTS)
    && (row.status.Published? ==> WasAccepted(p, id))
  }

  predicate ItemOk(p: World, item: Item) {
    && item.id in p.rows && item.msg == p.rows[item.id].msg
    && item.attempts < MAX_ATTEMPTS && item.attempts <= Failures(p, item.id)
  }

  ghost predicate WorkerOk(p: World, w: Worker) {
    && (!w.Idle? ==> forall i :: 0 <= i < |w.rest| ==> ItemOk(p, w.rest[i]))
    && (w.Holding? || w.Failed? || w.Sent? ==> ItemOk(p, w.item))
    && (w.Failed? ==> w.item.attempts + 1 <= Failures(p, w.item.id))
    && (w.Sent? ==> WasAccepted(p, w.item.id))
  }

  /** A wire message on the bus is the encoding of its row's message. */
  ghost predicate BusOk(c: Codec, p: World, id: string, wire: Wire) {
    id in p.rows && c.encodes(p.rows[id].msg, wire)
  }

  ghost predicate Inv(c: Codec, p: World) {
    && (forall id :: id in p.rows ==> RowOk(c, p, id))
    && (forall w :: w in p.workers ==> WorkerOk(p, p.workers[w]))
    && (forall id, wire :: (id, wire) in p.bus ==> BusOk(c, p, id, wire))
  }

  /** What one step may never do: drop a row, change its message, forget a failure or an acceptance. */
  predicate Grows(p: World, q: World) {
    && (forall id :: id in p.rows ==> id in q.rows && q.rows[id].msg == p.rows[id].msg)
    && (forall id :: id in p.failures ==> Failures(p, id) <= Failures(q, id))
    && p.bus <= q.bus
  }

  lemma StepGrows(c: Codec, p: World, step: Step)
    requires Enabled(c, p, step)
    ensures Grows(p, Apply(p, step))
  {
  }

  lemma WorkerStays(p: World, q: World, w: Worker)
    requires Grows(p, q) && WorkerOk(p, w)
    ensures WorkerOk(q, w)
  {
  }

  lemma RowStays(c: Codec, p: World, q: World, id: string)
    requires Grows(p, q) && id in p.rows && RowOk(c, p, id) && q.rows[id] == p.rows[id]
    ensures RowOk(c, q, id)
  {
  }

  /** The worker that moved is in order again. */
  lemma MoverOk(c: Codec, p: World, step: Step)
    requires Enabled(c, p, step) && Grows(p, Apply(p, step)) && !step.Enqueue? && !step.Recover?
    requires WorkerOk(p, WorkerAt(p, step.w)) && forall id :: id in p.rows ==> RowOk(c, p, id)
    ensures WorkerOk(Apply(p, step), WorkerAt(Apply(p, step), step.w))
  {
    var q := Apply(p, step);
    var w := WorkerAt(p, step.w);
    WorkerStays(p, q, w);
    match step
    case Query(_, items, limit, now) =>
      forall i | 0 <= i < |items| ensures ItemOk(q, items[i]) {
        assert Due(p.rows, now, items[i].id) && Copies(p.rows, items[i]) && RowOk(c, p, items[i].id);
      }
    case Claim(_, now) =>
      forall i | 0 <= i < |w.rest| - 1 ensures ItemOk(q, w.rest[1..][i]) { assert ItemOk(q, w.rest[i + 1]); }
      assert ItemOk(q, w.rest[0]);
    case Accept(_, wire) => assert (w.item.id, wire) in q.bus;
    case _ =>
  }

  lemma RowsOk(c: Codec, p: World, step: Step, id: string)
    requires Enabled(c, p, step) && Grows(p, Apply(p, step)) && id in Apply(p, step).rows
    requires id in p.rows ==> RowOk(c, p, id)
    requires step.Mark? || step.Retry? ==> WorkerOk(p, WorkerAt(p, step.w))
    ensures RowOk(c, Apply(p, step), id)
  {
    var q := Apply(p, step);
    if id in p.rows && q.rows[id] == p.rows[id] {
      RowStays(c, p, q, id);
    } else if id in p.rows {
      if step.Mark? {
        var wire :| (id, wire) in p.bus;
        assert (id, wire) in q.bus;
      }
    }
  }

  lemma BusStays(c: Codec, p: World, step: Step, id: string, wire: Wire)
    requires Inv(c, p) && Enabled(c, p, step) && (id, wire) in Apply(p, step).bus
    ensures BusOk(c, Apply(p, step), id, wire)
  {
    var q := Apply(p, step);
    StepGrows(c, p, step);
    if (id, wire) in p.bus {
      assert BusOk(c, p, id, wire);
    } else {
      assert WorkerOk(p, WorkerAt(p, step.w));
    }
  }

  lemma StepKeeps(c: Codec, p: World, step: Step)
    requires Inv(c, p) && Enabled(c, p, step)
    ensures Inv(c, Apply(p, step))
  {
    var q := Apply(p, step);
    StepGrows(c, p, step);
    forall id | id in q.rows ensures RowOk(c, q, id) { RowsOk(c, p, step, id); }
    forall id, wire | (id, wire) in q.bus ensures BusOk(c, q, id, wire) { BusStays(c, p, step, id, wire); }
    forall w | w in q.workers ensures WorkerOk(q, q.workers[w]) { WorkersOk(c, p, step, w); }
  }

  lemma WorkersOk(c: Codec, p: World, step: Step, w: nat)
    requires Inv(c, p) && Enabled(c, p, step) && Grows(p, Apply(p, step)) && w in Apply(p, step).workers
    ensures WorkerOk(Apply(p, step), Apply(p, step).workers[w])
  {
    if !step.Enqueue? && !step.Recover? && step.w == w {
      MoverOk(c, p, step);
    } else {
      WorkerStays(p, Apply(p, step), p.workers[w]);
    }
  }

  lemma {:induction false} RunKeeps(c: Codec, steps: seq<Step>, p: World)
    requires Run(c, steps, p)
    ensures Inv(c, p)
    decreases |steps|
  {
    if steps != [] {
      var n := |steps| - 1;
      var q :| Run(c, steps[..n], q) && Enabled(c, q, steps[n]) && p == Apply(q, steps[n]);
      RunKeeps(c, steps[..n], q);
      StepKeeps(c, q, steps[n]);
    }
  }

  // ------------------------------------------------------------------ what every run guarantees

  /** A row marked PUBLISHED was accepted by the bus, and what was accepted is the encoding of the
  row's own message. Module Leases says when PUBLISHED is final. */
  lemma PublishedWasAccepted(c: Codec, steps: seq<Step>, p: World, id: string)
    requires Run(c, steps, p) && id in p.rows && p.rows[id].status == Published
    ensures exists wire :: (id, wire) in p.bus && c.encodes(p.rows[id].msg, wire)
  {
    RunKeeps(c, steps, p);
    assert RowOk(c, p, id);
    var wire :| (id, wire) in p.bus;
    assert BusOk(c, p, id, wire);
  }

  /** The attempt counter never overstates: it is at most the number of real failures, a row that can
  still be tried has at most eleven attempts, and a dead row has twelve and really failed twelve times. */
  lemma AttemptsAreReal(c: Codec, steps: seq<Step>, p: World, id: string)
    requires Run(c, steps, p) && id in p.rows
    ensures p.rows[id].attempts <= Failures(p, id)
    ensures p.rows[id].status in {Pending, Processing} ==> p.rows[id].attempts <= 11
    ensures p.rows[id].status == Dead ==> p.rows[id].attempts == 12 && Failures(p, id) >= 12
  {
    RunKeeps(c, steps, p);
    assert RowOk(c, p, id);
  }
}
