/** Time in the outbox: how long a row that was put back, and a row that was claimed, is left alone. */
module Backoff {
  import opened Outbox
  import opened Publishing

  /** The clock reading of a step; the others read no clock. */
  function At(s: Step, t: int): int {
    match s
    case Enqueue(_, now) => now
    case Recover(now) => now
    case Query(_, _, _, now) => now
    case Claim(_, now) => now
    case Retry(_, now) => now
    case _ => t
  }

  /** A continuation from time `t` on in which no worker puts the row back again. */
  ghost predicate LeftAlone(c: Codec, p: World, steps: seq<Step>, q: World, id: string, t: int)
    decreases |steps|
  {
    if steps == [] then q == p
    else
      && Enabled(c, p, steps[0]) && At(steps[0], t) >= t
      && !(steps[0].Retry? && WorkerAt(p, steps[0].w).item.id == id)
      && LeftAlone(c, Apply(p, steps[0]), steps[1..], q, id, t)
  }

  /** Not to be read before `until`, or finished. */
  predicate Resting(p: World, id: string, until: int) {
    id in p.rows && (p.rows[id].nextAt >= until || p.rows[id].status == Published || p.rows[id].status == Dead)
  }

  lemma StepRests(c: Codec, p: World, step: Step, id: string, t: int, until: int)
    requires Enabled(c, p, step) && At(step, t) >= t && Resting(p, id, until) && until <= t + 300_000_000_000
    requires !(step.Retry? && WorkerAt(p, step.w).item.id == id)
    ensures Resting(Apply(p, step), id, until)
  {
  }

  lemma {:induction false} KeepsResting(c: Codec, p: World, steps: seq<Step>, q: World, id: string, t: int, until: int)
    requires LeftAlone(c, p, steps, q, id, t) && Resting(p, id, until) && until <= t + 300_000_000_000
    ensures Resting(q, id, until)
    decreases |steps|
  {
    if steps != [] {
      StepRests(c, p, steps[0], id, t, until);
      KeepsResting(c, Apply(p, steps[0]), steps[1..], q, id, t, until);
    }
  }

  lemma RestingIsNotRead(c: Codec, q: World, id: string, until: int, w: nat, items: seq<Item>, limit: int, now: int)
    requires Resting(q, id, until) && Enabled(c, q, Query(w, items, limit, now)) && now < until
    ensures forall i :: 0 <= i < |items| ==> items[i].id != id
  {
    forall i | 0 <= i < |items| ensures items[i].id != id { assert Due(q.rows, now, items[i].id); }
  }

  lemma PutBackAt(c: Codec, p: World, v: nat, t: int)
    requires Enabled(c, p, Publishing.Step.Retry(v, t)) && WorkerAt(p, v).item.id in p.rows
    ensures var item, q := WorkerAt(p, v).item, Apply(p, Publishing.Step.Retry(v, t));
      && item.id in q.rows && q.rows[item.id].nextAt == t + Outbox.Backoff(item.attempts + 1)
      && (item.attempts + 1 >= 12 ==> q.rows[item.id].status == Dead)
  {
  }

  /** A row put back at `t` with k attempts is in no later snapshot taken before t + 2^min(k, 8) seconds, until it
  is put back again; with twelve attempts it is in none at all. */
  lemma BackoffIsKept(c: Codec, before: seq<Step>, p: World, v: nat, t: int, steps: seq<Step>, q: World,
                      w: nat, items: seq<Item>, limit: int, now: int)
    requires Run(c, before, p) && Enabled(c, p, Publishing.Step.Retry(v, t))
    requires LeftAlone(c, Apply(p, Publishing.Step.Retry(v, t)), steps, q, WorkerAt(p, v).item.id, t)
    requires Enabled(c, q, Query(w, items, limit, now))
    requires var k := WorkerAt(p, v).item.attempts + 1;
             now < t + [2, 4, 8, 16, 32, 64, 128, 256][if k < 8 then k - 1 else 7] * 1_000_000_000 || k >= 12
    ensures forall i :: 0 <= i < |items| ==> items[i].id != WorkerAt(p, v).item.id
  {
    var item := WorkerAt(p, v).item;
    RunKeeps(c, before, p);
    assert WorkerOk(p, WorkerAt(p, v));
    DelayBounds(item.attempts + 1);
    var until := t + Outbox.Backoff(item.attempts + 1);
    PutBackAt(c, p, v, t);
    KeepsResting(c, Apply(p, Publishing.Step.Retry(v, t)), steps, q, item.id, t, until);
    if item.attempts + 1 >= 12 {
      KeepsDead(c, Apply(p, Publishing.Step.Retry(v, t)), steps, q, item.id, t);
      DeadIsNotRead(c, q, item.id, w, items, limit, now);
    } else {
      RestingIsNotRead(c, q, item.id, until, w, items, limit, now);
    }
  }

  predicate Done(p: World, id: string) {
    id in p.rows && (p.rows[id].status == Published || p.rows[id].status == Dead)
  }

  lemma {:induction false} KeepsDead(c: Codec, p: World, steps: seq<Step>, q: World, id: string, t: int)
    requires LeftAlone(c, p, steps, q, id, t) && Done(p, id)
    ensures Done(q, id)
    decreases |steps|
  {
    if steps != [] {
      StepKeepsDone(c, p, steps[0], id);
      KeepsDead(c, Apply(p, steps[0]), steps[1..], q, id, t);
    }
  }

  lemma StepKeepsDone(c: Codec, p: World, step: Step, id: string)
    requires Enabled(c, p, step) && Done(p, id) && !(step.Retry? && WorkerAt(p, step.w).item.id == id)
    ensures Done(Apply(p, step), id)
  {
  }

  lemma DeadIsNotRead(c: Codec, q: World, id: string, w: nat, items: seq<Item>, limit: int, now: int)
    requires Done(q, id) && Enabled(c, q, Query(w, items, limit, now))
    ensures forall i :: 0 <= i < |items| ==> items[i].id != id
  {
    forall i | 0 <= i < |items| ensures items[i].id != id { assert Due(q.rows, now, items[i].id); }
  }

  // ------------------------------------------------------------------ leases

  /** A continuation with no recovery at or after `until` and no write-back of the row. */
  ghost predicate Undisturbed(c: Codec, p: World, steps: seq<Step>, q: World, id: string, until: int)
    decreases |steps|
  {
    if steps == [] then q == p
    else
      && Enabled(c, p, steps[0]) && (steps[0].Recover? ==> steps[0].now < until)
      && !((steps[0].Retry? || steps[0].Mark?) && WorkerAt(p, steps[0].w).item.id == id)
      && Undisturbed(c, Apply(p, steps[0]), steps[1..], q, id, until)
  }

  /** A row claimed at `t` stays PROCESSING, and so is claimed by nobody else and in no snapshot, until it is
  written back or recovered five minutes later. */
  lemma LeaseIsKept(c: Codec, p: World, v: nat, t: int, steps: seq<Step>, q: World)
    requires Enabled(c, p, Publishing.Step.Claim(v, t)) && Claimable(p.rows, WorkerAt(p, v).rest[0].id)
    requires Undisturbed(c, Apply(p, Publishing.Step.Claim(v, t)), steps, q, WorkerAt(p, v).rest[0].id, t + 300_000_000_000)
    ensures WorkerAt(p, v).rest[0].id in q.rows && q.rows[WorkerAt(p, v).rest[0].id].status == Processing
  {
    StaysLeased(c, Apply(p, Publishing.Step.Claim(v, t)), steps, q, WorkerAt(p, v).rest[0].id, t + 300_000_000_000);
  }

  lemma {:induction false} StaysLeased(c: Codec, p: World, steps: seq<Step>, q: World, id: string, until: int)
    requires Undisturbed(c, p, steps, q, id, until)
    requires id in p.rows && p.rows[id].status == Processing && p.rows[id].nextAt >= until
    ensures id in q.rows && q.rows[id].status == Processing
    decreases |steps|
  {
    if steps != [] {
      StepLeased(c, p, steps[0], id, until);
      StaysLeased(c, Apply(p, steps[0]), steps[1..], q, id, until);
    }
  }

  lemma StepLeased(c: Codec, p: World, step: Step, id: string, until: int)
    requires Enabled(c, p, step) && (step.Recover? ==> step.now < until)
    requires !((step.Retry? || step.Mark?) && WorkerAt(p, step.w).item.id == id)
    requires id in p.rows && p.rows[id].status == Processing && p.rows[id].nextAt >= until
    ensures var q := Apply(p, step); id in q.rows && q.rows[id].status == Processing && q.rows[id].nextAt >= until
  {
  }
}
