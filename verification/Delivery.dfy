/** Outbox, broker and consumers together: what an application may rely on end to end. */
module Delivery {
  import opened Messaging
  import Base64Url
  import opened Wrappers
  import P = Publishing
  import C = Consuming
  import L = Leases

  datatype World = World(pub: P.World, con: C.World)

  const EMPTY := World(P.EMPTY, C.EMPTY)

  datatype Step = Publish(p: P.Step) | Consume(c: C.Step)

  function Wires(pub: P.World): set<Wire> {
    set e | e in pub.bus :: e.1
  }

  /** The encoder's output for a message, for one choice of header normalisation and trace headers. */
  ghost predicate WireFor(r: Rules, m: Message, wire: Wire) {
    exists n: map<string, string>, injected: map<string, string> ::
      Base64Url.IsBytes(m.key) && Normalises(r, m.headers, n) && RESERVED !! injected.Keys
      && wire == ToWire(r, Trimmed(r, m), n, injected)
  }

  ghost function TheCodec(r: Rules): P.Codec {
    P.Codec(m => Acceptable(r, m) && Base64Url.IsBytes(m.key), (m, wire) => WireFor(r, m, wire))
  }

  ghost function TheReader(r: Rules, sha: string -> string): C.Reader {
    C.Reader(wire => if Decodes(r, wire) then FromWire(wire) else None, m => MessageHash(sha, m))
  }

  ghost predicate Enabled(c: P.Codec, rd: C.Reader, w: World, step: Step) {
    match step
    case Publish(p) => P.Enabled(c, w.pub, p)
    case Consume(k) => C.Enabled(rd, Wires(w.pub), w.con, k)
  }

  function Apply(rd: C.Reader, w: World, step: Step): World {
    match step
    case Publish(p) => w.(pub := P.Apply(w.pub, p))
    case Consume(k) => w.(con := C.Apply(rd, w.con, k))
  }

  ghost predicate RunOf(c: P.Codec, rd: C.Reader, steps: seq<Step>, w: World)
    decreases |steps|
  {
    if steps == [] then w == EMPTY
    else
      var n := |steps| - 1;
      exists v :: RunOf(c, rd, steps[..n], v) && Enabled(c, rd, v, steps[n]) && w == Apply(rd, v, steps[n])
  }

  ghost predicate Run(r: Rules, sha: string -> string, steps: seq<Step>, w: World) {
    RunOf(TheCodec(r), TheReader(r, sha), steps, w)
  }

  ghost predicate Inv(r: Rules, sha: string -> string, w: World) {
    P.Inv(TheCodec(r), w.pub) && C.Inv(TheReader(r, sha), Wires(w.pub), w.con)
  }

  lemma StepKeeps(r: Rules, sha: string -> string, w: World, step: Step)
    requires Inv(r, sha, w) && Enabled(TheCodec(r), TheReader(r, sha), w, step)
    ensures Inv(r, sha, Apply(TheReader(r, sha), w, step))
  {
    match step
    case Publish(p) =>
      P.StepKeeps(TheCodec(r), w.pub, p);
      P.StepGrows(TheCodec(r), w.pub, p);
      C.MoreWires(TheReader(r, sha), Wires(w.pub), Wires(P.Apply(w.pub, p)), w.con);
    case Consume(c) =>
      C.StepKeeps(TheReader(r, sha), Wires(w.pub), w.con, c);
  }

  lemma {:induction false} RunKeeps(r: Rules, sha: string -> string, steps: seq<Step>, w: World)
    requires Run(r, sha, steps, w)
    ensures Inv(r, sha, w)
    decreases |steps|
  {
    if steps != [] {
      var n := |steps| - 1;
      var v :| RunOf(TheCodec(r), TheReader(r, sha), steps[..n], v) && Enabled(TheCodec(r), TheReader(r, sha), v, steps[n]) && w == Apply(TheReader(r, sha), v, steps[n]);
      RunKeeps(r, sha, steps[..n], v);
      StepKeeps(r, sha, v, steps[n]);
    }
  }

  // ------------------------------------------------------------------ guarantees

  /** Handler transactions for one event and one group commit at most once, in every interleaving. */
  lemma HandledAtMostOnce(r: Rules, sha: string -> string, steps: seq<Step>, w: World, i: nat, j: nat)
    requires Run(r, sha, steps, w) && i < |w.con.effects| && j < |w.con.effects|
    requires w.con.effects[i].group == w.con.effects[j].group && w.con.effects[i].msg.id == w.con.effects[j].msg.id
    ensures i == j
  {
    RunKeeps(r, sha, steps, w);
  }

  /** An acknowledged delivery has exactly one committed effect, and that effect has its hash. */
  lemma AckedWasHandledOnce(r: Rules, sha: string -> string, steps: seq<Step>, w: World, g: string, m: Message)
    requires Run(r, sha, steps, w) && (g, m) in w.con.acked
    ensures exists i :: C.OnlyEffect(w.con, i, g, m, MessageHash(sha, m))
  {
    RunKeeps(r, sha, steps, w);
    var i := C.AckedOnce(TheReader(r, sha), Wires(w.pub), w.con, g, m);
  }

  /** The message is what some outbox row holds, trimmed: no step along the way invents, mixes up or
  alters one of the fields the handler's effect is hashed over. */
  ghost predicate ComesFromRow(r: Rules, sha: string -> string, w: World, id: string, m: Message) {
    id in w.pub.rows && m.id == r.trim(id) && MessageHash(sha, m) == MessageHash(sha, Trimmed(r, w.pub.rows[id].msg)) &&
    var row := w.pub.rows[id].msg;
    && m == Message(r.trim(row.id), r.trim(row.org), r.trim(row.topic), row.key, r.trim(row.kind), row.body, m.headers,
                     r.trim(row.tag), r.trim(row.orderingKey), row.deliverAt)
    && (forall k :: k in row.headers ==> r.name(k) in m.headers)
  }

  lemma ReceivedComesFromRow(r: Rules, sha: string -> string, w: World, m: Message)
    requires Lawful(r) && Inv(r, sha, w) && C.Received(TheReader(r, sha), Wires(w.pub), m)
    ensures exists id :: ComesFromRow(r, sha, w, id, m)
  {
    var wire :| wire in Wires(w.pub) && TheReader(r, sha).decode(wire) == Some(m);
    var e :| e in w.pub.bus && e.1 == wire;
    var id := e.0;
    assert (id, wire) in w.pub.bus;
    assert P.BusOk(TheCodec(r), w.pub, id, wire) && P.RowOk(TheCodec(r), w.pub, id);
    var row := w.pub.rows[id].msg;
    assert WireFor(r, row, wire);
    var n: map<string, string>, injected: map<string, string> :|
      Base64Url.IsBytes(row.key) && Normalises(r, row.headers, n) && RESERVED !! injected.Keys
      && wire == ToWire(r, Trimmed(r, row), n, injected);
    DecodeUndoesEncode(r, row, n, injected);
    assert ComesFromRow(r, sha, w, id, m);
  }

  /** Every committed effect was caused by a row of the outbox and carries its fields. */
  lemma EffectComesFromOutbox(r: Rules, sha: string -> string, steps: seq<Step>, w: World, i: nat)
    requires Lawful(r) && Run(r, sha, steps, w) && i < |w.con.effects|
    ensures exists id :: ComesFromRow(r, sha, w, id, w.con.effects[i].msg)
    ensures var m := w.con.effects[i].msg;
            exists id :: id in w.pub.rows && var row := w.pub.rows[id].msg;
              && m == Message(r.trim(row.id), r.trim(row.org), r.trim(row.topic), row.key, r.trim(row.kind), row.body, m.headers,
                     r.trim(row.tag), r.trim(row.orderingKey), row.deliverAt)
              && (forall k :: k in row.headers ==> r.name(k) in m.headers)
  {
    RunKeeps(r, sha, steps, w);
    ReceivedComesFromRow(r, sha, w, w.con.effects[i].msg);
  }

  /** What a consumer meets under an id that was handled before: the row of the recorded effect and the row
  of the delivery, which have the same id once trimmed. It is refused if and only if their hashes differ. */
  lemma PaddedIdsConflict(r: Rules, sha: string -> string, steps: seq<Step>, w: World, c: nat)
    returns (a: string, b: string)
    requires Lawful(r) && Run(r, sha, steps, w) && C.ConsumerAt(w.con, c).Got?
    requires (C.ConsumerAt(w.con, c).group, C.ConsumerAt(w.con, c).msg.id) in w.con.consumed
    ensures a in w.pub.rows && b in w.pub.rows && r.trim(a) == r.trim(b) == C.ConsumerAt(w.con, c).msg.id
    ensures var k := C.ConsumerAt(w.con, c);
            && ComesFromRow(r, sha, w, b, k.msg)
            && w.con.consumed[(k.group, k.msg.id)] == MessageHash(sha, Trimmed(r, w.pub.rows[a].msg))
            && (C.SeenBefore(w.con.consumed, k.group, k.msg.id, MessageHash(sha, k.msg)) == C.Conflict <==>
                MessageHash(sha, Trimmed(r, w.pub.rows[a].msg)) != MessageHash(sha, Trimmed(r, w.pub.rows[b].msg)))
  {
    RunKeeps(r, sha, steps, w);
    var rd, k := TheReader(r, sha), C.ConsumerAt(w.con, c);
    var key := (k.group, k.msg.id);
    assert C.ConsumerOk(rd, Wires(w.pub), w.con, k);
    assert C.HasEffect(w.con, key);
    var i :| 0 <= i < |w.con.effects| && (w.con.effects[i].group, w.con.effects[i].msg.id) == key;
    ReceivedComesFromRow(r, sha, w, w.con.effects[i].msg);
    ReceivedComesFromRow(r, sha, w, k.msg);
    a :| ComesFromRow(r, sha, w, a, w.con.effects[i].msg);
    b :| ComesFromRow(r, sha, w, b, k.msg);
  }

  /** Redelivery never looks like a different event: as long as outbox rows whose ids differ only in
  surrounding white space have the same hash, a second delivery under an id is recognised as a duplicate. */
  lemma RedeliveryIsNeverAConflict(r: Rules, sha: string -> string, steps: seq<Step>, w: World, c: nat)
    requires Lawful(r) && Run(r, sha, steps, w)
    requires forall a, b :: a in w.pub.rows && b in w.pub.rows && r.trim(a) == r.trim(b) ==>
      MessageHash(sha, Trimmed(r, w.pub.rows[a].msg)) == MessageHash(sha, Trimmed(r, w.pub.rows[b].msg))
    requires C.ConsumerAt(w.con, c).Got?
    ensures var k := C.ConsumerAt(w.con, c);
            C.SeenBefore(w.con.consumed, k.group, k.msg.id, MessageHash(sha, k.msg)) != C.Conflict
  {
    var k := C.ConsumerAt(w.con, c);
    if (k.group, k.msg.id) in w.con.consumed {
      var a, b := PaddedIdsConflict(r, sha, steps, w, c);
    }
  }

  // ------------------------------------------------------------------ two rows, one key

  lemma Snoc(codec: P.Codec, rd: C.Reader, steps: seq<Step>, w: World, step: Step)
    requires RunOf(codec, rd, steps, w) && Enabled(codec, rd, w, step)
    ensures RunOf(codec, rd, steps + [step], Apply(rd, w, step))
  {
    assert (steps + [step])[..|steps|] == steps;
  }

  /** A run of the publishers alone extends a run of the whole. */
  lemma {:induction false} Publishers(codec: P.Codec, rd: C.Reader, steps: seq<Step>, w: World, ps: seq<P.Step>, q: P.World)
    returns (longer: seq<Step>)
    requires RunOf(codec, rd, steps, w) && L.Leads(codec, w.pub, ps, q)
    ensures RunOf(codec, rd, longer, w.(pub := q))
    decreases |ps|
  {
    if ps == [] {
      return steps;
    }
    Snoc(codec, rd, steps, w, Publish(ps[0]));
    longer := Publishers(codec, rd, steps + [Publish(ps[0])], Apply(rd, w, Publish(ps[0])), ps[1..], q);
  }

  lemma Published(codec: P.Codec, rd: C.Reader, steps: seq<Step>, w: World, m: Message, k: nat, wire: Wire)
    returns (longer: seq<Step>, q: P.World)
    requires RunOf(codec, rd, steps, w) && m.id !in w.pub.rows && k !in w.pub.workers
    requires codec.good(m) && codec.encodes(m, wire)
    ensures RunOf(codec, rd, longer, w.(pub := q)) && q.bus == w.pub.bus + {(m.id, wire)}
    ensures q.rows.Keys == w.pub.rows.Keys + {m.id} && q.workers.Keys == w.pub.workers.Keys + {k}
  {
    var ps;
    ps, q := L.PublishNew(codec, w.pub, m, k, wire);
    longer := Publishers(codec, rd, steps, w, ps, q);
  }

  /** One consumer takes a delivery and its handler commits. */
  lemma HandleSteps(rd: C.Reader, wires: set<Wire>, g: string, wire: Wire, x: Message) returns (k1: C.World, k2: C.World, k3: C.World)
    requires wire in wires && rd.decode(wire) == Some(x)
    ensures C.Enabled(rd, wires, C.EMPTY, C.Deliver(0, g, wire)) && k1 == C.Apply(rd, C.EMPTY, C.Deliver(0, g, wire))
    ensures C.Enabled(rd, wires, k1, C.Begin(0)) && k2 == C.Apply(rd, k1, C.Begin(0))
    ensures C.Enabled(rd, wires, k2, C.Commit(0, true)) && k3 == C.Apply(rd, k2, C.Commit(0, true))
    ensures k3.consumed == map[(g, x.id) := rd.hash(x)] && k3.consumers.Keys == {0}
  {
    k1 := C.Apply(rd, C.EMPTY, C.Deliver(0, g, wire));
    k2 := C.Apply(rd, k1, C.Begin(0));
    k3 := C.Apply(rd, k2, C.Commit(0, true));
  }

  lemma Consumed(codec: P.Codec, rd: C.Reader, steps: seq<Step>, w: World, c: C.Step, k: C.World)
    requires RunOf(codec, rd, steps, w) && C.Enabled(rd, Wires(w.pub), w.con, c)
    requires k == C.Apply(rd, w.con, c)
    ensures RunOf(codec, rd, steps + [Consume(c)], w.(con := k))
  {
    Snoc(codec, rd, steps, w, Consume(c));
  }

  lemma Handled(codec: P.Codec, rd: C.Reader, steps: seq<Step>, w: World, g: string, wire: Wire, x: Message) returns (longer: seq<Step>, k: C.World)
    requires RunOf(codec, rd, steps, w) && w.con == C.EMPTY && wire in Wires(w.pub) && rd.decode(wire) == Some(x)
    ensures RunOf(codec, rd, longer, w.(con := k)) && k.consumed == map[(g, x.id) := rd.hash(x)]
    ensures k.consumers.Keys == {0}
  {
    var k1, k2, k3 := HandleSteps(rd, Wires(w.pub), g, wire, x);
    Consumed(codec, rd, steps, w, C.Deliver(0, g, wire), k1);
    Consumed(codec, rd, steps + [Consume(C.Deliver(0, g, wire))], w.(con := k1), C.Begin(0), k2);
    Consumed(codec, rd, steps + [Consume(C.Deliver(0, g, wire))] + [Consume(C.Begin(0))], w.(con := k2), C.Commit(0, true), k3);
    longer, k := steps + [Consume(C.Deliver(0, g, wire))] + [Consume(C.Begin(0))] + [Consume(C.Commit(0, true))], k3;
  }

  lemma TwoPublished(codec: P.Codec, rd: C.Reader, a: Message, b: Message, wa: Wire, wb: Wire) returns (steps: seq<Step>, w: World)
    requires codec.good(a) && codec.good(b) && codec.encodes(a, wa) && codec.encodes(b, wb) && a.id != b.id
    ensures RunOf(codec, rd, steps, w) && w.con == C.EMPTY && w.pub.rows.Keys == {a.id, b.id} && wa in Wires(w.pub) && wb in Wires(w.pub)
  {
    assert RunOf(codec, rd, [], EMPTY);
    var s1, p1 := Published(codec, rd, [], EMPTY, a, 0, wa);
    var p2;
    steps, p2 := Published(codec, rd, s1, EMPTY.(pub := p1), b, 1, wb);
    w := EMPTY.(pub := p2);
    assert (a.id, wa) in p2.bus && (b.id, wb) in p2.bus;
  }

  lemma DeliverStep(rd: C.Reader, wires: set<Wire>, k: C.World, g: string, wire: Wire, y: Message)
    requires wire in wires && rd.decode(wire) == Some(y) && 1 !in k.consumers
    ensures C.Enabled(rd, wires, k, C.Deliver(1, g, wire))
    ensures C.Apply(rd, k, C.Deliver(1, g, wire)) == k.(consumers := k.consumers[1 := C.Got(g, y)])
  {
  }

  lemma OneHandledOneDelivered(codec: P.Codec, rd: C.Reader, a: Message, b: Message, wa: Wire, wb: Wire, x: Message, y: Message, g: string)
    returns (steps: seq<Step>, w: World)
    requires codec.good(a) && codec.good(b) && codec.encodes(a, wa) && codec.encodes(b, wb) && a.id != b.id
    requires rd.decode(wa) == Some(x) && rd.decode(wb) == Some(y)
    ensures RunOf(codec, rd, steps, w) && w.pub.rows.Keys == {a.id, b.id}
    ensures C.ConsumerAt(w.con, 1) == C.Got(g, y) && w.con.consumed == map[(g, x.id) := rd.hash(x)]
  {
    steps, w := TwoPublished(codec, rd, a, b, wa, wb);
    var before, k := Handled(codec, rd, steps, w, g, wa, x);
    var k' := k.(consumers := k.consumers[1 := C.Got(g, y)]);
    DeliverStep(rd, Wires(w.pub), k, g, wb, y);
    Consumed(codec, rd, before, w.(con := k), C.Deliver(1, g, wb), k');
    steps, w := before + [Consume(C.Deliver(1, g, wb))], w.(con := k');
  }

  lemma EncodesAndDecodes(r: Rules, sha: string -> string, a: Message, n: map<string, string>)
    requires Lawful(r) && Acceptable(r, a) && Base64Url.IsBytes(a.key) && Normalises(r, a.headers, n) && HasTrace(n)
    ensures TheCodec(r).good(a) && TheCodec(r).encodes(a, ToWire(r, Trimmed(r, a), n, map[]))
    ensures TheReader(r, sha).decode(ToWire(r, Trimmed(r, a), n, map[])) == Some(Trimmed(r, a).(headers := n))
    ensures TheReader(r, sha).hash(Trimmed(r, a).(headers := n)) == MessageHash(sha, Trimmed(r, a))
  {
    BrokerRoundTrip(r, a, n, map[]);
    assert WireFor(r, a, ToWire(r, Trimmed(r, a), n, map[]));
  }

  /** A run with a conflict: the outbox keeps ids as given and the envelope trims them. Two rows whose ids
  differ only in white space are published, one is handled, and the delivery of the other is refused
  exactly when the hashes differ. */
  lemma PaddedIdsRun(r: Rules, sha: string -> string, a: Message, b: Message, n: map<string, string>, o: map<string, string>, g: string)
    returns (steps: seq<Step>, w: World)
    requires Lawful(r) && Acceptable(r, a) && Acceptable(r, b) && Base64Url.IsBytes(a.key) && Base64Url.IsBytes(b.key)
    requires Normalises(r, a.headers, n) && Normalises(r, b.headers, o) && HasTrace(n) && HasTrace(o)
    requires a.id != b.id && r.trim(a.id) == r.trim(b.id)
    ensures Run(r, sha, steps, w) && w.pub.rows.Keys == {a.id, b.id}
    ensures C.ConsumerAt(w.con, 1) == C.Got(g, Trimmed(r, b).(headers := o)) && (g, r.trim(b.id)) in w.con.consumed
    ensures C.SeenBefore(w.con.consumed, g, r.trim(b.id), MessageHash(sha, Trimmed(r, b))) == C.Conflict <==>
            MessageHash(sha, Trimmed(r, a)) != MessageHash(sha, Trimmed(r, b))
  {
    EncodesAndDecodes(r, sha, a, n);
    EncodesAndDecodes(r, sha, b, o);
    var wa, wb := ToWire(r, Trimmed(r, a), n, map[]), ToWire(r, Trimmed(r, b), o, map[]);
    steps, w := OneHandledOneDelivered(TheCodec(r), TheReader(r, sha), a, b, wa, wb,
                                       Trimmed(r, a).(headers := n), Trimmed(r, b).(headers := o), g);
  }
}
