/** The deduplicating consumer: Seen, handler and Mark in one transaction, then the acknowledgement.

Any number of consumers in any number of groups handle deliveries at the same time. A transaction
reads consumed_messages when it begins and inserts when it commits; the primary key
(consumer_group, event_id) makes the later of two concurrent commits fail and roll back. The broker may
deliver anything it has accepted any number of times. */
module Consuming {
  import opened Messaging
  import opened Wrappers

  /** A handler transaction that committed. */
  datatype Effect = Effect(group: string, msg: Message, hash: string)

  type Consumed = map<(string, string), string>

  /** Decoding and hashing, as the worker sees them. */
  datatype Reader = Reader(decode: Wire -> Option<Message>, hash: Message -> string)

  datatype Seen = Fresh | Duplicate | Conflict

  function SeenBefore(consumed: Consumed, group: string, id: string, hash: string): Seen {
    if (group, id) !in consumed then Fresh
    else if consumed[(group, id)] == hash then Duplicate else Conflict
  }

  // ------------------------------------------------------------------ one worker, one delivery

  datatype Outcome = Acked | AckFailed | Retried

  class Runner {
    const group: string
    const rd: Reader
    const handlers: set<string>
    var consumed: Consumed
    var effects: seq<Effect>
    var acked: seq<Message>

    constructor (group: string, rd: Reader, handlers: set<string>)
      ensures this.group == group && this.rd == rd && this.handlers == handlers
      ensures consumed == map[] && effects == [] && acked == []
    {
      this.group, this.rd, this.handlers := group, rd, handlers;
      consumed, effects, acked := map[], [], [];
    }

    /** Undecodable, unknown, conflicting and failing deliveries are retried and leave no trace; the
    others end with exactly one committed effect, and only then are they acknowledged. */
    method Process(wire: Wire, handlerOk: bool, ackOk: bool) returns (outcome: Outcome)
      modifies this
      ensures var d := rd.decode(wire);
        outcome == Retried <==>
          || d.None? || d.value.kind !in handlers
          || (if (group, d.value.id) in old(consumed) then old(consumed)[(group, d.value.id)] != rd.hash(d.value) else !handlerOk)
      ensures outcome == Retried ==> unchanged(this)
      ensures outcome != Retried ==>
        var m := rd.decode(wire).value;
        var isNew := (group, m.id) !in old(consumed);
        && consumed == old(consumed)[(group, m.id) := rd.hash(m)]
        && effects == old(effects) + (if isNew then [Effect(group, m, rd.hash(m))] else [])
        && acked == old(acked) + (if ackOk then [m] else []) && (outcome == Acked <==> ackOk)
    {
      var decoded := rd.decode(wire);
      if decoded.None? {
        return Retried;
      }
      var m := decoded.value;
      if m.kind !in handlers {
        return Retried;
      }
      var hash := rd.hash(m);
      match SeenBefore(consumed, group, m.id, hash) {
        case Conflict => return Retried;
        case Duplicate => assert consumed == consumed[(group, m.id) := hash];
        case Fresh =>
          if !handlerOk {
            return Retried;
          }
          effects := effects + [Effect(group, m, hash)];
          consumed := consumed[(group, m.id) := hash];
      }
      if !ackOk {
        return AckFailed;
      }
      acked := acked + [m];
      return Acked;
    }
  }

  // ------------------------------------------------------------------ all workers, all groups

  datatype Consumer =
    | Idle
    | Got(group: string, msg: Message)
    | Checked(group: string, msg: Message, seen: bool)
    | Committed(group: string, msg: Message)

  datatype World = World(
    consumers: map<nat, Consumer>, consumed: Consumed, effects: seq<Effect>, acked: set<(string, Message)>)

  const EMPTY := World(map[], map[], [], {})

  function ConsumerAt(k: World, c: nat): Consumer {
    if c in k.consumers then k.consumers[c] else Idle
  }

  datatype Step =
    | Deliver(c: nat, group: string, wire: Wire)
    | Begin(c: nat)
    | Commit(c: nat, handlerOk: bool)
    | Ack(c: nat)
    | Stop(c: nat)

  /** `wires` is what the broker has accepted so far. */
  ghost predicate Enabled(rd: Reader, wires: set<Wire>, k: World, step: Step) {
    match step
    case Deliver(c, _, wire) => ConsumerAt(k, c).Idle? && wire in wires && rd.decode(wire).Some?
    case Begin(c) => ConsumerAt(k, c).Got?
    case Commit(c, _) => ConsumerAt(k, c).Checked?
    case Ack(c) => ConsumerAt(k, c).Committed?
    case Stop(_) => true
  }

  function Apply(rd: Reader, k: World, step: Step): World {
    match step
    case Deliver(c, group, wire) =>
      (match rd.decode(wire)
       case Some(m) => k.(consumers := k.consumers[c := Got(group, m)])
       case None => k)
    case Begin(c) =>
      (match ConsumerAt(k, c)
       case Got(g, m) =>
         (match SeenBefore(k.consumed, g, m.id, rd.hash(m))
          case Fresh => k.(consumers := k.consumers[c := Checked(g, m, false)])
          case Duplicate => k.(consumers := k.consumers[c := Checked(g, m, true)])
          case Conflict => k.(consumers := k.consumers[c := Idle]))
       case _ => k)
    case Commit(c, handlerOk) =>
      (match ConsumerAt(k, c)
       case Checked(g, m, seen) =>
         if seen then k.(consumers := k.consumers[c := Committed(g, m)])
         else if !handlerOk || (g, m.id) in k.consumed then k.(consumers := k.consumers[c := Idle])
         else k.(consumers := k.consumers[c := Committed(g, m)],
                 consumed := k.consumed[(g, m.id) := rd.hash(m)],
                 effects := k.effects + [Effect(g, m, rd.hash(m))])
       case _ => k)
    case Ack(c) =>
      (match ConsumerAt(k, c)
       case Committed(g, m) => k.(consumers := k.consumers[c := Idle], acked := k.acked + {(g, m)})
       case _ => k)
    case Stop(c) => k.(consumers := k.consumers[c := Idle])
  }

  // ------------------------------------------------------------------ the invariant

  /** The message came off a wire the broker had accepted. */
  ghost predicate Received(rd: Reader, wires: set<Wire>, m: Message) {
    exists wire :: wire in wires && rd.decode(wire) == Some(m)
  }

  predicate Recorded(rd: Reader, k: World, group: string, m: Message) {
    (group, m.id) in k.consumed && k.consumed[(group, m.id)] == rd.hash(m)
  }

  ghost predicate ConsumerOk(rd: Reader, wires: set<Wire>, k: World, c: Consumer) {
    && (!c.Idle? ==> Received(rd, wires, c.msg))
    && (c.Committed? || (c.Checked? && c.seen) ==> Recorded(rd, k, c.group, c.msg))
  }

  ghost predicate HasEffect(k: World, key: (string, string)) {
    exists i :: 0 <= i < |k.effects| && (k.effects[i].group, k.effects[i].msg.id) == key
  }

  ghost predicate EffectsOk(rd: Reader, wires: set<Wire>, k: World) {
    && (forall i :: 0 <= i < |k.effects| ==>
          && k.effects[i].hash == rd.hash(k.effects[i].msg)
          && Received(rd, wires, k.effects[i].msg)
          && Recorded(rd, k, k.effects[i].group, k.effects[i].msg))
    && (forall i, j :: 0 <= i < j < |k.effects| ==>
          (k.effects[i].group, k.effects[i].msg.id) != (k.effects[j].group, k.effects[j].msg.id))
    && (forall key :: key in k.consumed ==> HasEffect(k, key))
  }

  ghost predicate Inv(rd: Reader, wires: set<Wire>, k: World) {
    && (forall c :: c in k.consumers ==> ConsumerOk(rd, wires, k, k.consumers[c]))
    && EffectsOk(rd, wires, k)
    && (forall g, m :: (g, m) in k.acked ==> Recorded(rd, k, g, m))
  }

  /** What each step writes: an effect and its hash only when a handler succeeds in a transaction that had not
  seen the event and is the first to commit it; an acknowledgement only after a committed transaction. */
  lemma StepWrites(rd: Reader, wires: set<Wire>, k: World, step: Step)
    requires Enabled(rd, wires, k, step)
    ensures var k' := Apply(rd, k, step);
      var first := step.Commit? && step.handlerOk && !k.consumers[step.c].seen
                   && (k.consumers[step.c].group, k.consumers[step.c].msg.id) !in k.consumed;
      && k'.effects == k.effects + (if first then [Effect(k.consumers[step.c].group, k.consumers[step.c].msg, rd.hash(k.consumers[step.c].msg))] else [])
      && k'.consumed == (if first then k.consumed[(k.consumers[step.c].group, k.consumers[step.c].msg.id) := rd.hash(k.consumers[step.c].msg)] else k.consumed)
      && k'.acked == k.acked + (if step.Ack? then {(k.consumers[step.c].group, k.consumers[step.c].msg)} else {})
  {
  }

  ghost predicate Leads(rd: Reader, wires: set<Wire>, k: World, steps: seq<Step>, k': World)
    decreases |steps|
  {
    if steps == [] then k' == k
    else Enabled(rd, wires, k, steps[0]) && Leads(rd, wires, Apply(rd, k, steps[0]), steps[1..], k')
  }

  lemma First(rd: Reader, wires: set<Wire>, k: World, step: Step, rest: seq<Step>, k': World)
    requires Enabled(rd, wires, k, step) && Leads(rd, wires, Apply(rd, k, step), rest, k')
    ensures Leads(rd, wires, k, [step] + rest, k')
  {
    assert ([step] + rest)[1..] == rest;
  }

  /** A delivery that nothing interrupts is one of these runs and leaves what Process promises. */
  lemma ProcessIsARun(rd: Reader, wires: set<Wire>, k: World, c: nat, g: string, wire: Wire, m: Message, handlerOk: bool, ackOk: bool)
    returns (steps: seq<Step>, k': World)
    requires c !in k.consumers && wire in wires && rd.decode(wire) == Some(m)
    ensures Leads(rd, wires, k, steps, k')
    ensures var refused := if (g, m.id) in k.consumed then k.consumed[(g, m.id)] != rd.hash(m) else !handlerOk;
      && k'.consumed == (if refused then k.consumed else k.consumed[(g, m.id) := rd.hash(m)])
      && k'.effects == k.effects + (if refused || (g, m.id) in k.consumed then [] else [Effect(g, m, rd.hash(m))])
      && k'.acked == k.acked + (if !refused && ackOk then {(g, m)} else {})
  {
    var k1 := Apply(rd, k, Deliver(c, g, wire));
    var k2 := Apply(rd, k1, Begin(c));
    k' := k2;
    var rest: seq<Step> := [];
    if ConsumerAt(k2, c).Checked? {
      var k3 := Apply(rd, k2, Commit(c, handlerOk));
      k' := k3;
      if ConsumerAt(k3, c).Committed? && ackOk {
        k' := Apply(rd, k3, Ack(c));
        First(rd, wires, k3, Ack(c), [], k');
        rest := [Ack(c)] + [];
      }
      First(rd, wires, k2, Commit(c, handlerOk), rest, k');
      rest := [Commit(c, handlerOk)] + rest;
    }
    First(rd, wires, k1, Begin(c), rest, k');
    First(rd, wires, k, Deliver(c, g, wire), [Begin(c)] + rest, k');
    steps := [Deliver(c, g, wire)] + ([Begin(c)] + rest);
  }

  /** consumed_messages only grows: no step changes or removes a recorded hash. */
  lemma ConsumedGrows(rd: Reader, wires: set<Wire>, k: World, step: Step, key: (string, string))
    requires Enabled(rd, wires, k, step) && key in k.consumed
    ensures key in Apply(rd, k, step).consumed && Apply(rd, k, step).consumed[key] == k.consumed[key]
  {
  }

  lemma CommitKeepsEffects(rd: Reader, wires: set<Wire>, k: World, g: string, m: Message)
    requires EffectsOk(rd, wires, k) && Received(rd, wires, m) && (g, m.id) !in k.consumed
    ensures EffectsOk(rd, wires, k.(consumed := k.consumed[(g, m.id) := rd.hash(m)],
                                    effects := k.effects + [Effect(g, m, rd.hash(m))]))
  {
    var k' := k.(consumed := k.consumed[(g, m.id) := rd.hash(m)], effects := k.effects + [Effect(g, m, rd.hash(m))]);
    var n := |k.effects|;
    assert k'.effects[n] == Effect(g, m, rd.hash(m)) && forall i :: 0 <= i < n ==> k'.effects[i] == k.effects[i];
    forall key | key in k'.consumed ensures HasEffect(k', key) {
      if key == (g, m.id) {
        assert (k'.effects[n].group, k'.effects[n].msg.id) == key;
      } else {
        assert HasEffect(k, key);
        var i :| 0 <= i < n && (k.effects[i].group, k.effects[i].msg.id) == key;
        assert (k'.effects[i].group, k'.effects[i].msg.id) == key;
      }
    }
  }

  lemma EffectsStay(rd: Reader, wires: set<Wire>, k: World, step: Step)
    requires Inv(rd, wires, k) && Enabled(rd, wires, k, step)
    ensures EffectsOk(rd, wires, Apply(rd, k, step))
  {
    var k' := Apply(rd, k, step);
    if k'.effects == k.effects && k'.consumed == k.consumed {
      forall key | key in k'.consumed ensures HasEffect(k', key) { assert HasEffect(k, key); }
    } else {
      var c := ConsumerAt(k, step.c);
      assert ConsumerOk(rd, wires, k, c);
      CommitKeepsEffects(rd, wires, k, c.group, c.msg);
      var k2 := k.(consumed := k'.consumed, effects := k'.effects);
      forall key | key in k'.consumed ensures HasEffect(k', key) { assert HasEffect(k2, key); }
    }
  }

  lemma MoverOk(rd: Reader, wires: set<Wire>, k: World, step: Step)
    requires Inv(rd, wires, k) && Enabled(rd, wires, k, step)
    ensures ConsumerOk(rd, wires, Apply(rd, k, step), ConsumerAt(Apply(rd, k, step), step.c))
  {
  }

  lemma OthersStay(rd: Reader, wires: set<Wire>, k: World, step: Step, c: nat)
    requires c in k.consumers && c != step.c && ConsumerOk(rd, wires, k, k.consumers[c]) && Enabled(rd, wires, k, step)
    ensures ConsumerAt(Apply(rd, k, step), c) == k.consumers[c]
    ensures ConsumerOk(rd, wires, Apply(rd, k, step), k.consumers[c])
  {
  }

  lemma AckedStays(rd: Reader, wires: set<Wire>, k: World, step: Step, g: string, m: Message)
    requires Inv(rd, wires, k) && Enabled(rd, wires, k, step) && (g, m) in Apply(rd, k, step).acked
    ensures Recorded(rd, Apply(rd, k, step), g, m)
  {
    if (g, m) !in k.acked { assert ConsumerOk(rd, wires, k, ConsumerAt(k, step.c)); }
    ConsumedGrows(rd, wires, k, step, (g, m.id));
  }

  lemma StepKeeps(rd: Reader, wires: set<Wire>, k: World, step: Step)
    requires Inv(rd, wires, k) && Enabled(rd, wires, k, step)
    ensures Inv(rd, wires, Apply(rd, k, step))
  {
    var k' := Apply(rd, k, step);
    EffectsStay(rd, wires, k, step);
    forall c | c in k'.consumers ensures ConsumerOk(rd, wires, k', k'.consumers[c]) {
      if c == step.c { MoverOk(rd, wires, k, step); } else { OthersStay(rd, wires, k, step, c); }
    }
    forall g, m | (g, m) in k'.acked ensures Recorded(rd, k', g, m) { AckedStays(rd, wires, k, step, g, m); }
  }

  /** More accepted wires change nothing that was already true. */
  lemma MoreWires(rd: Reader, wires: set<Wire>, more: set<Wire>, k: World)
    requires Inv(rd, wires, k) && wires <= more
    ensures Inv(rd, more, k)
  {
  }

  /** Effect `i` is the only one for this group and event, and it has this hash. */
  ghost predicate OnlyEffect(k: World, i: nat, g: string, m: Message, hash: string) {
    && i < |k.effects| && k.effects[i].hash == hash && k.effects[i].group == g && k.effects[i].msg.id == m.id
    && forall j :: 0 <= j < |k.effects| && k.effects[j].group == g && k.effects[j].msg.id == m.id ==> j == i
  }

  lemma AckedOnce(rd: Reader, wires: set<Wire>, k: World, g: string, m: Message) returns (i: nat)
    requires Inv(rd, wires, k) && (g, m) in k.acked
    ensures OnlyEffect(k, i, g, m, rd.hash(m))
  {
    assert Recorded(rd, k, g, m) && HasEffect(k, (g, m.id));
    i :| 0 <= i < |k.effects| && (k.effects[i].group, k.effects[i].msg.id) == (g, m.id);
    assert Recorded(rd, k, k.effects[i].group, k.effects[i].msg);
  }
}
