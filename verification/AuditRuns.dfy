/** Every interleaving of audit writes with one purge at a time.

A purge is four steps: select the expired rows, have them archived and check the receipt, delete
them, or give up. Writes may happen between any two of them. `history` and `ids` record what was
ever written; they are never read by a step. */
module AuditRuns {
  import opened AuditChain

  datatype Purge =
    | Idle
    | Selected(batch: seq<Event>, cutoff: int)
    | Archived(batch: seq<Event>, cutoff: int, receipt: Receipt)

  datatype World = World(
    db: Db, clock: int, purge: Purge, objects: map<string, string>,
    history: map<string, seq<Event>>, ids: map<string, (string, int)>)

  const EMPTY := World(Db({}, map[], map[]), 0, Idle, map[], map[], map[])

  function Hist(w: World, s: string): seq<Event> {
    if s in w.history then w.history[s] else []
  }

  function HashAt(chain: seq<Event>, k: nat): string
    requires k <= |chain|
  {
    if k == 0 then "" else chain[k - 1].hash
  }

  // ------------------------------------------------------------------ steps

  datatype Step =
    | Write(f: Fields, id: string, now: int)
    | Select(batch: seq<Event>, cutoff: int, now: int)
    | Archive(receipt: Receipt, objects: map<string, string>, now: int)
    | Delete(last: map<string, Event>)
    | Abort

  /** A receipt is verified when the stored, immutable object has the digest it names. */
  predicate ReceiptVerified(env: Env, objects: map<string, string>, r: Receipt) {
    r.key in objects && env.sha(objects[r.key]) == r.contentHash
  }

  ghost predicate Enabled(env: Env, w: World, step: Step) {
    match step
    case Write(f, id, now) =>
      // uuid ids are fresh, the clock does not go back, and the timestamp is stored exactly
      w.clock <= now && id !in w.ids && env.store(now) == now
    case Select(batch, cutoff, now) =>
      && w.purge.Idle? && w.clock <= now && cutoff < now
      && (forall e :: e in batch <==> e in w.db.logs && e.at < cutoff)
    case Archive(receipt, objects, now) =>
      && w.purge.Selected? && w.clock <= now
      && (forall k :: k in w.objects ==> k in objects && objects[k] == w.objects[k])
      && ReceiptCovers(env, w.purge.batch, receipt, now)
      && ReceiptVerified(env, objects, receipt)
    case Delete(last) =>
      w.purge.Archived? && LastPerScope(w.purge.batch, last)
    case Abort => true
  }

  function Apply(env: Env, w: World, step: Step): World {
    match step
    case Write(f, id, now) =>
      var s := Scope(f.org);
      var e := NewRow(env, At(w.db.heads, s), f, id, now);
      w.(db := WriteDb(env, w.db, f, id, now), clock := now,
         history := w.history[s := Hist(w, s) + [e]], ids := w.ids[id := (s, e.seqNo)])
    case Select(batch, cutoff, now) => w.(purge := Selected(batch, cutoff), clock := now)
    case Archive(receipt, objects, now) =>
      (match w.purge
       case Selected(batch, cutoff) =>
         w.(purge := Archived(batch, cutoff, receipt), objects := objects, clock := now)
       case _ => w)
    case Delete(last) =>
      (match w.purge
       case Archived(batch, _, _) => w.(db := DeleteDb(w.db, batch, last), purge := Idle)
       case _ => w)
    case Abort => w.(purge := Idle)
  }

  /** A run from the empty tables. */
  ghost predicate Run(env: Env, steps: seq<Step>, w: World)
    decreases |steps|
  {
    if steps == [] then w == EMPTY
    else
      var n := |steps| - 1;
      exists v :: Run(env, steps[..n], v) && Enabled(env, v, steps[n]) && w == Apply(env, v, steps[n])
  }

  // ------------------------------------------------------------------ the invariant

  /** Some stored archive object is exactly the encoding of a batch that holds `e`. */
  ghost predicate InArchive(env: Env, objects: map<string, string>, e: Event) {
    exists k, b :: k in objects && e in b && objects[k] == env.json(b)
  }

  /** One unbroken chain of rows of scope `s`, in time order, with their ids on record. */
  ghost predicate ChainShape(env: Env, chain: seq<Event>, s: string, clock: int, ids: map<string, (string, int)>) {
    && Linked(env, chain, Head(0, ""))
    && (forall i :: 0 <= i < |chain| ==> chain[i].seqNo == i + 1)
    && (forall i :: 0 <= i < |chain| ==> Scope(chain[i].f.org) == s && chain[i].at <= clock)
    && (forall i, j :: 0 <= i < j < |chain| ==> chain[i].at <= chain[j].at)
    && (forall i :: 0 <= i < |chain| ==> chain[i].id in ids && ids[chain[i].id] == (s, i + 1))
  }

  /** The head is the end of the chain; the anchor splits it into archived and live rows. */
  ghost predicate ChainStored(env: Env, db: Db, objects: map<string, string>, chain: seq<Event>, s: string) {
    var anchor := At(db.anchors, s);
    && At(db.heads, s) == Head(|chain|, HashAt(chain, |chain|))
    && 0 <= anchor.seqNo <= |chain|
    && anchor.hash == HashAt(chain, anchor.seqNo)
    && (forall i :: anchor.seqNo <= i < |chain| ==> chain[i] in db.logs)
    && (forall i :: 0 <= i < anchor.seqNo ==> InArchive(env, objects, chain[i]))
  }

  /** Everything ever written under one scope. */
  ghost predicate ChainOk(env: Env, w: World, s: string) {
    && ChainShape(env, Hist(w, s), s, w.clock, w.ids)
    && ChainStored(env, w.db, w.objects, Hist(w, s), s)
  }

  /** A live row is a chain element after the anchor of its scope. */
  predicate LiveRow(w: World, e: Event) {
    var chain := Hist(w, Scope(e.f.org));
    At(w.db.anchors, Scope(e.f.org)).seqNo < e.seqNo <= |chain| && e.seqNo > 0 && chain[e.seqNo - 1] == e
  }

  ghost predicate PurgeOk(env: Env, w: World) {
    w.purge.Idle? || (
      && w.purge.cutoff <= w.clock
      && (forall e :: e in w.purge.batch <==> e in w.db.logs && e.at < w.purge.cutoff)
      && (w.purge.Archived? ==>
            exists k :: k in w.objects && w.objects[k] == env.json(w.purge.batch)))
  }

  ghost predicate Inv(env: Env, w: World) {
    && (forall s :: ChainOk(env, w, s))
    && (forall e :: e in w.db.logs ==> LiveRow(w, e))
    && PurgeOk(env, w)
  }

  lemma InitInv(env: Env)
    ensures Inv(env, EMPTY)
  {
  }

  lemma LinkedSnoc(env: Env, chain: seq<Event>, e: Event)
    requires Linked(env, chain, Head(0, ""))
    requires !e.legacy && e.seqNo == |chain| + 1 && e.prev == HashAt(chain, |chain|)
    requires e.hash == EventHash(env, e)
    ensures Linked(env, chain + [e], Head(0, ""))
  {
    forall i | 0 <= i < |chain| + 1 ensures LinkAt(env, chain + [e], Head(0, ""), i) {
      if i < |chain| { assert LinkAt(env, chain, Head(0, ""), i); }
    }
  }

  lemma ShapeSnoc(env: Env, chain: seq<Event>, s: string, clock: int, ids: map<string, (string, int)>, e: Event)
    requires ChainShape(env, chain, s, clock, ids)
    requires clock <= e.at && e.id !in ids && Scope(e.f.org) == s
    requires !e.legacy && e.seqNo == |chain| + 1 && e.prev == HashAt(chain, |chain|)
    requires e.hash == EventHash(env, e)
    ensures ChainShape(env, chain + [e], s, e.at, ids[e.id := (s, e.seqNo)])
  {
    LinkedSnoc(env, chain, e);
  }

  lemma StoredSnoc(env: Env, db: Db, objects: map<string, string>, chain: seq<Event>, s: string, e: Event)
    requires ChainStored(env, db, objects, chain, s) && e.seqNo == |chain| + 1
    ensures ChainStored(env, db.(logs := db.logs + {e}, heads := db.heads[s := Head(e.seqNo, e.hash)]),
                        objects, chain + [e], s)
  {
  }

  lemma WriteChain(env: Env, w: World, f: Fields, id: string, now: int)
    requires ChainOk(env, w, Scope(f.org)) && Enabled(env, w, Write(f, id, now))
    ensures ChainOk(env, Apply(env, w, Write(f, id, now)), Scope(f.org))
  {
    var s := Scope(f.org);
    var e := NewRow(env, At(w.db.heads, s), f, id, now);
    ShapeSnoc(env, Hist(w, s), s, w.clock, w.ids, e);
    StoredSnoc(env, w.db, w.objects, Hist(w, s), s, e);
    assert Hist(Apply(env, w, Write(f, id, now)), s) == Hist(w, s) + [e];
  }

  lemma WriteOther(env: Env, w: World, f: Fields, id: string, now: int, t: string)
    requires ChainOk(env, w, t) && t != Scope(f.org) && Enabled(env, w, Write(f, id, now))
    ensures ChainOk(env, Apply(env, w, Write(f, id, now)), t)
  {
    var w' := Apply(env, w, Write(f, id, now));
    assert Hist(w', t) == Hist(w, t);
    assert At(w'.db.anchors, t) == At(w.db.anchors, t) && At(w'.db.heads, t) == At(w.db.heads, t);
  }

  lemma WriteLive(env: Env, w: World, f: Fields, id: string, now: int, d: Event)
    requires ChainOk(env, w, Scope(f.org)) && Enabled(env, w, Write(f, id, now))
    requires d in Apply(env, w, Write(f, id, now)).db.logs && (d in w.db.logs ==> LiveRow(w, d))
    ensures LiveRow(Apply(env, w, Write(f, id, now)), d)
  {
  }

  lemma WriteKeeps(env: Env, w: World, f: Fields, id: string, now: int)
    requires Inv(env, w) && Enabled(env, w, Write(f, id, now))
    ensures Inv(env, Apply(env, w, Write(f, id, now)))
  {
    var w' := Apply(env, w, Write(f, id, now));
    assert ChainOk(env, w, Scope(f.org));
    forall t ensures ChainOk(env, w', t) {
      if t == Scope(f.org) { WriteChain(env, w, f, id, now); } else { WriteOther(env, w, f, id, now, t); }
    }
    forall d | d in w'.db.logs ensures LiveRow(w', d) { WriteLive(env, w, f, id, now, d); }
  }

  /** The expired rows of a scope are the chain segment up to the last of them. */
  lemma Segment(chain: seq<Event>, a: int, logs: set<Event>, batch: seq<Event>, cutoff: int, b: int)
    requires 0 <= a < b <= |chain|
    requires forall i :: 0 <= i < |chain| ==> (chain[i] in logs <==> a <= i)
    requires forall i, j :: 0 <= i < j < |chain| ==> chain[i].at <= chain[j].at
    requires forall e :: e in batch <==> e in logs && e.at < cutoff
    requires chain[b - 1] in batch && forall i :: b <= i < |chain| ==> chain[i] !in batch
    ensures forall i :: 0 <= i < |chain| ==> (chain[i] in batch <==> a <= i < b)
  {
  }

  /** Live rows of a scope, read off its chain. */
  lemma LiveFromAnchor(env: Env, w: World, s: string)
    requires ChainOk(env, w, s) && forall e :: e in w.db.logs ==> LiveRow(w, e)
    ensures forall i :: 0 <= i < |Hist(w, s)| ==> (Hist(w, s)[i] in w.db.logs <==> At(w.db.anchors, s).seqNo <= i)
  {
  }

  lemma BatchBelowLast(env: Env, w: World, last: map<string, Event>, s: string)
    requires Enabled(env, w, Delete(last)) && ChainShape(env, Hist(w, s), s, w.clock, w.ids)
    ensures forall i :: 0 <= i < |Hist(w, s)| && Hist(w, s)[i] in w.purge.batch ==> s in last && i < last[s].seqNo
  {
    var chain := Hist(w, s);
    forall i | 0 <= i < |chain| && chain[i] in w.purge.batch ensures s in last && i < last[s].seqNo {
      assert chain[i].seqNo == i + 1;
    }
  }

  lemma LastInChain(env: Env, w: World, last: map<string, Event>, s: string)
    requires Enabled(env, w, Delete(last)) && PurgeOk(env, w) && s in last
    requires forall e :: e in w.db.logs ==> LiveRow(w, e)
    ensures last[s] in w.purge.batch
    ensures At(w.db.anchors, s).seqNo < last[s].seqNo <= |Hist(w, s)| && last[s].seqNo >= 1 && last[s] == Hist(w, s)[last[s].seqNo - 1]
  {
    assert LiveRow(w, last[s]);
  }

  /** What the purge of a batch removes from a scope's chain, seen from the chain alone. */
  lemma SegmentRemoved(chain: seq<Event>, a: int, logs: set<Event>, batch: seq<Event>, cutoff: int, last: map<string, Event>, s: string)
    requires 0 <= a <= |chain| && forall i :: 0 <= i < |chain| ==> (chain[i] in logs <==> a <= i)
    requires forall i, j :: 0 <= i < j < |chain| ==> chain[i].at <= chain[j].at
    requires forall e :: e in batch <==> e in logs && e.at < cutoff
    requires forall i :: 0 <= i < |chain| && chain[i] in batch ==> s in last && i < last[s].seqNo
    requires s in last ==> last[s] in batch && a < last[s].seqNo <= |chain| && last[s] == chain[last[s].seqNo - 1]
    ensures forall i :: 0 <= i < |chain| ==> (chain[i] in batch <==> s in last && a <= i < last[s].seqNo)
  {
    if s in last { Segment(chain, a, logs, batch, cutoff, last[s].seqNo); }
  }

  lemma DeleteSegment(env: Env, w: World, last: map<string, Event>, s: string)
    requires Enabled(env, w, Delete(last)) && PurgeOk(env, w)
    requires ChainOk(env, w, s) && forall e :: e in w.db.logs ==> LiveRow(w, e)
    ensures s in last ==>
      At(w.db.anchors, s).seqNo < last[s].seqNo <= |Hist(w, s)| && last[s] == Hist(w, s)[last[s].seqNo - 1]
    ensures forall i :: 0 <= i < |Hist(w, s)| ==>
      (Hist(w, s)[i] in w.purge.batch <==> s in last && At(w.db.anchors, s).seqNo <= i < last[s].seqNo)
  {
    LiveFromAnchor(env, w, s);
    BatchBelowLast(env, w, last, s);
    if s in last { LastInChain(env, w, last, s); }
    SegmentRemoved(Hist(w, s), At(w.db.anchors, s).seqNo, w.db.logs, w.purge.batch, w.purge.cutoff, last, s);
  }

  /** Ids identify rows. */
  lemma SameId(env: Env, w: World, e: Event, d: Event)
    requires LiveRow(w, e) && LiveRow(w, d) && e.id == d.id
    requires ChainOk(env, w, Scope(e.f.org)) && ChainOk(env, w, Scope(d.f.org))
    ensures e == d
  {
  }

  /** Deleting by id therefore removes exactly the batch. */
  lemma DeletedRows(env: Env, w: World, last: map<string, Event>, e: Event)
    requires Inv(env, w) && Enabled(env, w, Delete(last)) && e in w.db.logs
    ensures e in DeleteDb(w.db, w.purge.batch, last).logs <==> e !in w.purge.batch
  {
    forall d | d in w.purge.batch && e.id == d.id ensures e == d {
      SameId(env, w, e, d);
    }
  }

  lemma DeleteStored(env: Env, w: World, last: map<string, Event>, s: string, k: string)
    requires ChainStored(env, w.db, w.objects, Hist(w, s), s) && !w.purge.Idle?
    requires s in last ==>
      At(w.db.anchors, s).seqNo < last[s].seqNo <= |Hist(w, s)| && last[s] == Hist(w, s)[last[s].seqNo - 1]
    requires forall i :: 0 <= i < |Hist(w, s)| ==>
      (Hist(w, s)[i] in w.purge.batch <==> s in last && At(w.db.anchors, s).seqNo <= i < last[s].seqNo)
    requires forall e :: e in w.db.logs && e !in w.purge.batch ==> e in DeleteDb(w.db, w.purge.batch, last).logs
    requires k in w.objects && w.objects[k] == env.json(w.purge.batch)
    ensures ChainStored(env, DeleteDb(w.db, w.purge.batch, last), w.objects, Hist(w, s), s)
  {
  }

  lemma DeleteChain(env: Env, w: World, last: map<string, Event>, s: string)
    requires Inv(env, w) && Enabled(env, w, Delete(last))
    ensures ChainOk(env, Apply(env, w, Delete(last)), s)
  {
    forall e | e in w.db.logs && e !in w.purge.batch ensures e in DeleteDb(w.db, w.purge.batch, last).logs {
      DeletedRows(env, w, last, e);
    }
    var k :| k in w.objects && w.objects[k] == env.json(w.purge.batch);
    assert ChainOk(env, w, s);
    DeleteSegment(env, w, last, s);
    DeleteStored(env, w, last, s, k);
    assert Hist(Apply(env, w, Delete(last)), s) == Hist(w, s);
  }

  lemma DeleteLive(env: Env, w: World, last: map<string, Event>, e: Event)
    requires Inv(env, w) && Enabled(env, w, Delete(last)) && e in Apply(env, w, Delete(last)).db.logs
    ensures LiveRow(Apply(env, w, Delete(last)), e)
  {
    assert LiveRow(w, e) && ChainOk(env, w, Scope(e.f.org));
    DeletedRows(env, w, last, e);
    DeleteSegment(env, w, last, Scope(e.f.org));
  }

  lemma DeleteKeeps(env: Env, w: World, last: map<string, Event>)
    requires Inv(env, w) && Enabled(env, w, Delete(last))
    ensures Inv(env, Apply(env, w, Delete(last)))
  {
    forall s ensures ChainOk(env, Apply(env, w, Delete(last)), s) { DeleteChain(env, w, last, s); }
    forall e | e in Apply(env, w, Delete(last)).db.logs ensures LiveRow(Apply(env, w, Delete(last)), e) {
      DeleteLive(env, w, last, e);
    }
  }

  lemma ArchiveKeeps(env: Env, w: World, r: Receipt, objects: map<string, string>, now: int)
    requires Injective(env.sha)
    requires Inv(env, w) && Enabled(env, w, Archive(r, objects, now))
    ensures Inv(env, Apply(env, w, Archive(r, objects, now)))
  {
    var w' := Apply(env, w, Archive(r, objects, now));
    assert objects[r.key] == env.json(w.purge.batch);
    forall s ensures ChainOk(env, w', s) {
      assert ChainOk(env, w, s) && Hist(w', s) == Hist(w, s);
      forall i | 0 <= i < At(w.db.anchors, s).seqNo ensures InArchive(env, objects, Hist(w, s)[i]) {
        assert InArchive(env, w.objects, Hist(w, s)[i]);
      }
    }
    forall e | e in w'.db.logs ensures LiveRow(w', e) { assert LiveRow(w, e); }
  }

  lemma StepKeeps(env: Env, w: World, step: Step)
    requires Injective(env.sha)
    requires Inv(env, w) && Enabled(env, w, step)
    ensures Inv(env, Apply(env, w, step))
  {
    match step
    case Write(f, id, now) => WriteKeeps(env, w, f, id, now);
    case Delete(last) => DeleteKeeps(env, w, last);
    case Archive(r, objects, now) => ArchiveKeeps(env, w, r, objects, now);
    case _ =>
      var w' := Apply(env, w, step);
      forall s ensures ChainOk(env, w', s) { assert ChainOk(env, w, s) && Hist(w', s) == Hist(w, s); }
      forall e | e in w'.db.logs ensures LiveRow(w', e) { assert LiveRow(w, e); }
  }

  lemma {:induction false} RunKeeps(env: Env, steps: seq<Step>, w: World)
    requires Injective(env.sha) && Run(env, steps, w)
    ensures Inv(env, w)
    decreases |steps|
  {
    if steps == [] {
      InitInv(env);
    } else {
      var n := |steps| - 1;
      var v :| Run(env, steps[..n], v) && Enabled(env, v, steps[n]) && w == Apply(env, v, steps[n]);
      RunKeeps(env, steps[..n], v);
      StepKeeps(env, v, steps[n]);
    }
  }

  // ------------------------------------------------------------------ what every run guarantees

  lemma LinkedTail(env: Env, chain: seq<Event>, from: Head)
    requires Linked(env, chain, Head(0, "")) && 0 <= from.seqNo <= |chain| && from.hash == HashAt(chain, from.seqNo)
    ensures Linked(env, chain[from.seqNo..], from)
  {
    forall i | 0 <= i < |chain| - from.seqNo ensures LinkAt(env, chain[from.seqNo..], from, i) {
      assert LinkAt(env, chain, Head(0, ""), from.seqNo + i);
    }
  }

  lemma PinnedRows(env: Env, w: World, s: string, rows: seq<Event>)
    requires Injective(env.stamp) && Injective(env.sha) && ChainOk(env, w, s)
    requires Linked(env, rows, At(w.db.anchors, s)) && rows != []
    requires rows[|rows| - 1].hash == At(w.db.heads, s).hash
    requires At(w.db.anchors, s).seqNo < At(w.db.heads, s).seqNo
    ensures 0 <= At(w.db.anchors, s).seqNo <= |Hist(w, s)|
    ensures rows == Hist(w, s)[At(w.db.anchors, s).seqNo..]
  {
    var from, chain := At(w.db.anchors, s), Hist(w, s);
    LinkedTail(env, chain, from);
    HeadPinsHistory(env, rows, chain[from.seqNo..], from);
  }

  /** Any chain of rows from the anchor to the recorded head is the true one. */
  lemma HeadPinsLiveRows(env: Env, steps: seq<Step>, w: World, s: string, rows: seq<Event>)
    requires Injective(env.stamp) && Injective(env.sha) && Run(env, steps, w)
    requires Linked(env, rows, At(w.db.anchors, s)) && rows != []
    requires rows[|rows| - 1].hash == At(w.db.heads, s).hash
    requires At(w.db.anchors, s).seqNo < At(w.db.heads, s).seqNo
    ensures 0 <= At(w.db.anchors, s).seqNo <= |Hist(w, s)|
    ensures rows == Hist(w, s)[At(w.db.anchors, s).seqNo..]
  {
    RunKeeps(env, steps, w);
    assert ChainOk(env, w, s);
    PinnedRows(env, w, s, rows);
  }

  /** The chain holds the row of a write: its id, its fields and the time of its clock reading. */
  ghost predicate Recorded(w: World, f: Fields, id: string, now: int) {
    exists e :: e in Hist(w, Scope(f.org)) && e.id == id && e.f == WithResult(f) && e.at == now
  }

  lemma RecordStays(env: Env, w: World, step: Step, f: Fields, id: string, now: int)
    requires Recorded(w, f, id, now)
    ensures Recorded(Apply(env, w, step), f, id, now)
  {
  }

  lemma WriteRecords(env: Env, v: World, f: Fields, id: string, now: int)
    requires env.store(now) == now
    ensures Recorded(Apply(env, v, Write(f, id, now)), f, id, now)
  {
  }

  lemma {:induction false} WrittenIsRecorded(env: Env, steps: seq<Step>, w: World, k: nat)
    requires Run(env, steps, w) && k < |steps| && steps[k].Write?
    ensures Recorded(w, steps[k].f, steps[k].id, steps[k].now)
    decreases |steps|
  {
    var n := |steps| - 1;
    var v :| Run(env, steps[..n], v) && Enabled(env, v, steps[n]) && w == Apply(env, v, steps[n]);
    if k < n {
      WrittenIsRecorded(env, steps[..n], v, k);
      RecordStays(env, v, steps[n], steps[k].f, steps[k].id, steps[k].now);
    } else {
      WriteRecords(env, v, steps[n].f, steps[n].id, steps[n].now);
    }
  }

  /** No purge loses an event: the row of every write is in its scope's chain at its own number, and is
  still live, or is in a stored archive object that is byte for byte the encoding of a batch holding it. */
  lemma NothingIsLost(env: Env, steps: seq<Step>, w: World, k: nat)
    requires Injective(env.sha) && Run(env, steps, w) && k < |steps| && steps[k].Write?
    ensures var chain := Hist(w, Scope(steps[k].f.org));
            exists e: Event ::
              && e.id == steps[k].id && e.at == steps[k].now
              && (steps[k].f.result != "" ==> e.f == steps[k].f)
              && (steps[k].f.result == "" ==> e.f == steps[k].f.(result := "SUCCESS"))
              && 1 <= e.seqNo <= |chain| && chain[e.seqNo - 1] == e && e.hash == EventHash(env, e)
              && (e in w.db.logs || InArchive(env, w.objects, e))
  {
    RunKeeps(env, steps, w);
    WrittenIsRecorded(env, steps, w, k);
    var s := Scope(steps[k].f.org);
    var e :| e in Hist(w, s) && e.id == steps[k].id && e.f == WithResult(steps[k].f) && e.at == steps[k].now;
    assert ChainOk(env, w, s);
    RowOfChain(env, w, s, e);
  }

  lemma RowOfChain(env: Env, w: World, s: string, e: Event)
    requires ChainOk(env, w, s) && e in Hist(w, s)
    ensures 1 <= e.seqNo <= |Hist(w, s)| && Hist(w, s)[e.seqNo - 1] == e && e.hash == EventHash(env, e)
    ensures e in w.db.logs || InArchive(env, w.objects, e)
  {
    var i :| 0 <= i < |Hist(w, s)| && Hist(w, s)[i] == e;
    assert i < At(w.db.anchors, s).seqNo || e in w.db.logs;
    assert LinkAt(env, Hist(w, s), Head(0, ""), i);
  }

  // ------------------------------------------------------------------ where the chain breaks

  /** A new row keeps the chain verifiable exactly when the database keeps its timestamp exactly: the
  hash covers nanoseconds, the column keeps what `store` keeps. */
  lemma VerifiableIffStoredExactly(env: Env, chain: seq<Event>, f: Fields, id: string, now: int)
    requires Injective(env.sha) && Injective(env.stamp)
    requires Linked(env, chain, Head(0, ""))
    ensures var e := NewRow(env, Head(|chain|, HashAt(chain, |chain|)), f, id, now);
            Linked(env, chain + [e], Head(0, "")) <==> env.store(now) == now
  {
    var h := Head(|chain|, HashAt(chain, |chain|));
    var e := NewRow(env, h, f, id, now);
    var hashed := e.(at := now, hash := "");
    assert HashFields(env, hashed) == HashFields(env, e.(at := now));
    if env.store(now) == now {
      LinkedSnoc(env, chain, e);
    } else if Linked(env, chain + [e], Head(0, "")) {
      assert LinkAt(env, chain + [e], Head(0, ""), |chain|);
      assert Preimage(env, e) == Preimage(env, hashed);
      PreimagePinsRow(env, e, hashed);
    }
  }

  /** The columns are timestamp(6), so an odd nanosecond reading already breaks a fresh chain. */
  lemma MicrosecondColumnBreaksChain(env: Env, f: Fields, id: string)
    requires Injective(env.sha) && Injective(env.stamp) && env.store(1500) == 2000
    ensures !Linked(env, [NewRow(env, Head(0, ""), f, id, 1500)], Head(0, ""))
  {
    VerifiableIffStoredExactly(env, [], f, id, 1500);
    assert [] + [NewRow(env, Head(0, ""), f, id, 1500)] == [NewRow(env, Head(0, ""), f, id, 1500)];
  }
}
