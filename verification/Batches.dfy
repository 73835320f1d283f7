/** A batch that nothing interrupts is a run of one worker, statement by statement. */
module Batches {
  import opened Messaging
  import opened Outbox
  import opened Publishing
  import opened Leases

  /** A wire for every item the bus will accept. */
  predicate Ready(c: Codec, items: seq<Item>, bus: string -> Outcome, wireOf: string -> Wire) {
    forall i :: 0 <= i < |items| && bus(items[i].id) == Accepted ==> c.encodes(items[i].msg, wireOf(items[i].id))
  }

  lemma Three(c: Codec, p: World, s1: Step, s2: Step, s3: Step)
    requires Enabled(c, p, s1) && Enabled(c, Apply(p, s1), s2) && Enabled(c, Apply(Apply(p, s1), s2), s3)
    ensures Leads(c, p, [s1] + ([s2] + ([s3] + [])), Apply(Apply(Apply(p, s1), s2), s3))
  {
    var q := Apply(Apply(Apply(p, s1), s2), s3);
    First(c, Apply(Apply(p, s1), s2), s3, [], q);
    First(c, Apply(p, s1), s2, [s3] + [], q);
    First(c, p, s1, [s2] + ([s3] + []), q);
  }

  /** One item: claim, publish, write back. */
  lemma ItemIsARun(c: Codec, p: World, w: nat, now: int, bus: string -> Outcome, wireOf: string -> Wire)
    returns (steps: seq<Step>, q: World)
    requires w in p.workers && p.workers[w].Batch? && p.workers[w].rest != []
    requires Claimable(p.rows, p.workers[w].rest[0].id) && Copies(p.rows, p.workers[w].rest[0])
    requires Ready(c, p.workers[w].rest, bus, wireOf)
    ensures Leads(c, p, steps, q) && w in q.workers && q.workers[w] == Batch(p.workers[w].rest[1..])
    ensures var id := p.workers[w].rest[0].id; q.rows == p.rows[id := AfterTry(p.rows[id], bus(id), now)]
  {
    var e := p.workers[w].rest[0];
    var claim := Publishing.Step.Claim(w, now);
    if bus(e.id) == Accepted {
      Three(c, p, claim, Accept(w, wireOf(e.id)), Mark(w));
      q := Apply(Apply(Apply(p, claim), Accept(w, wireOf(e.id))), Mark(w));
      steps := [claim] + ([Accept(w, wireOf(e.id))] + ([Mark(w)] + []));
    } else {
      var back := Publishing.Step.Retry(w, now);
      Three(c, p, claim, Fail(w), back);
      q := Apply(Apply(Apply(p, claim), Fail(w)), back);
      steps := [claim] + ([Fail(w)] + ([back] + []));
    }
  }

  /** The rest of a batch from item `i` on; `start` are the rows when the batch was read. */
  lemma {:induction false} ItemsAreARun(c: Codec, start: Rows, items: seq<Item>, i: nat, p: World, w: nat, now: int, bus: string -> Outcome, wireOf: string -> Wire)
    returns (steps: seq<Step>, q: World)
    requires i <= |items| && w in p.workers && p.workers[w] == Batch(items[i..])
    requires forall k :: 0 <= k < |items| ==> Claimable(start, items[k].id) && Copies(start, items[k])
    requires forall j, k :: 0 <= j < k < |items| ==> items[j].id != items[k].id
    requires Ready(c, items, bus, wireOf) && p.rows == AfterBatch(start, items[..i], bus, now)
    ensures Leads(c, p, steps, q) && q.rows == AfterBatch(start, items, bus, now)
    decreases |items| - i
  {
    if i == |items| {
      assert items[..i] == items;
      return [], p;
    }
    var e := items[i];
    AfterBatchSnoc(start, items[..i], e, bus, now);
    assert items[..i] + [e] == items[..i + 1] && items[i..][0] == e && items[i..][1..] == items[i + 1..];
    assert forall k :: 0 <= k < |items[i..]| ==> items[i..][k] == items[i + k];
    var one, p' := ItemIsARun(c, p, w, now, bus, wireOf);
    var more;
    more, q := ItemsAreARun(c, start, items, i + 1, p', w, now, bus, wireOf);
    Then(c, p, one, p', more, q);
    steps := one + more;
  }

  /** Recovery, query and the items one after another: the rows end as PublishBatch promises. */
  lemma BatchIsARun(c: Codec, p: World, w: nat, now: int, limit: int, items: seq<Item>, bus: string -> Outcome, wireOf: string -> Wire)
    returns (steps: seq<Step>, q: World)
    requires w !in p.workers && Snapshot(Recovered(p.rows, now), now, limit, items) && Ready(c, items, bus, wireOf)
    ensures Leads(c, p, steps, q) && q.rows == AfterBatch(Recovered(p.rows, now), items, bus, now)
  {
    var p1 := Apply(p, Recover(now));
    var p2 := Apply(p1, Query(w, items, limit, now));
    forall k | 0 <= k < |items| ensures Claimable(p1.rows, items[k].id) && Copies(p1.rows, items[k]) { assert Due(p1.rows, now, items[k].id); }
    assert p2.rows == AfterBatch(p1.rows, items[..0], bus, now);
    assert items[0..] == items;
    var more;
    more, q := ItemsAreARun(c, p1.rows, items, 0, p2, w, now, bus, wireOf);
    First(c, p1, Query(w, items, limit, now), more, q);
    First(c, p, Recover(now), [Query(w, items, limit, now)] + more, q);
    steps := [Recover(now)] + ([Query(w, items, limit, now)] + more);
  }
}
