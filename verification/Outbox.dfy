/** The transactional outbox: rows of reliable_messages and the statements that change them.

Every statement is a function on the table; the methods of `Store` are proved against these functions
and the interleavings in module Publishing are built from them. */
module Outbox {
  import opened Messaging

  datatype Status = Pending | Processing | Published | Dead

  datatype Row = Row(msg: Message, status: Status, attempts: nat, nextAt: int)

  type Rows = map<string, Row>

  /** What the pending query copies out of a row; it goes stale as soon as it is read. */
  datatype Item = Item(id: string, msg: Message, attempts: nat)

  const SECOND := 1_000_000_000
  const LEASE := 300 * SECOND
  const MAX_ATTEMPTS := 12

  function Recovered(rows: Rows, now: int): Rows {
    map id | id in rows ::
      if rows[id].status == Processing && rows[id].nextAt <= now then rows[id].(status := Pending) else rows[id]
  }

  predicate Claimable(rows: Rows, id: string) {
    id in rows && rows[id].status == Pending
  }

  function Claimed(rows: Rows, id: string, now: int): Rows {
    if Claimable(rows, id) then rows[id := rows[id].(status := Processing, nextAt := now + LEASE)] else rows
  }

  /** Unconditional by id, as in the source. */
  function MarkedPublished(rows: Rows, id: string): Rows {
    if id in rows then rows[id := rows[id].(status := Published)] else rows
  }

  function PowerOfTwo(k: nat): (r: nat)
    ensures r > 0
  {
    if k == 0 then 1 else 2 * PowerOfTwo(k - 1)
  }

  function Backoff(attempts: nat): int {
    PowerOfTwo(if attempts < 8 then attempts else 8) * SECOND
  }

  /** 2, 4, 8 seconds and so on, at most 256. */
  lemma DelayBounds(k: nat)
    requires k >= 1
    ensures Backoff(k) == [2, 4, 8, 16, 32, 64, 128, 256][if k < 8 then k - 1 else 7] * 1_000_000_000
    ensures 2_000_000_000 <= Backoff(k) <= 256_000_000_000
  {
    assert PowerOfTwo(1) == 2 && PowerOfTwo(2) == 4 && PowerOfTwo(3) == 8 && PowerOfTwo(4) == 16;
    assert PowerOfTwo(5) == 32 && PowerOfTwo(6) == 64 && PowerOfTwo(7) == 128 && PowerOfTwo(8) == 256;
  }

  /** Unconditional by id, computed from the snapshot's attempt count, as in the source. */
  function Retried(rows: Rows, item: Item, now: int): Rows {
    var attempts := item.attempts + 1;
    if item.id in rows then
      rows[item.id := rows[item.id].(
        status := if attempts >= MAX_ATTEMPTS then Dead else Pending,
        attempts := attempts, nextAt := now + Backoff(attempts))]
    else rows
  }

  predicate Due(rows: Rows, now: int, id: string) {
    id in rows && rows[id].status == Pending && rows[id].nextAt <= now
  }

  predicate Copies(rows: Rows, item: Item) {
    item.id in rows && item.msg == rows[item.id].msg && item.attempts == rows[item.id].attempts
  }

  function BatchLimit(limit: int): nat {
    if limit <= 0 || limit > 500 then 100 else limit
  }

  /** A result of the pending query: due rows, each once, in any order, up to the limit. */
  predicate Snapshot(rows: Rows, now: int, limit: int, items: seq<Item>) {
    && |items| <= BatchLimit(limit)
    && (forall i :: 0 <= i < |items| ==> Due(rows, now, items[i].id) && Copies(rows, items[i]))
    && (forall i, j :: 0 <= i < j < |items| ==> items[i].id != items[j].id)
  }

  /** What happened to one publication. */
  datatype Outcome = Undecodable | Rejected | Accepted

  function AfterTry(row: Row, outcome: Outcome, now: int): Row {
    if outcome == Accepted then row.(status := Published, nextAt := now + LEASE)
    else row.(status := if row.attempts + 1 >= MAX_ATTEMPTS then Dead else Pending,
              attempts := row.attempts + 1, nextAt := now + Backoff(row.attempts + 1))
  }

  /** The same for a row tried from a snapshot item that may be stale. */
  function AfterItem(row: Row, item: Item, outcome: Outcome, now: int): Row {
    if outcome == Accepted then AfterTry(row, outcome, now) else AfterTry(row.(attempts := item.attempts), outcome, now)
  }

  function ItemIds(items: seq<Item>): set<string> {
    set i | 0 <= i < |items| :: items[i].id
  }

  /** Each tried row moves by its own outcome; every other row stays as it was. */
  function AfterBatch(rows: Rows, items: seq<Item>, bus: string -> Outcome, now: int): Rows {
    map id | id in rows :: if id in ItemIds(items) then AfterTry(rows[id], bus(id), now) else rows[id]
  }

  function AcceptedCount(items: seq<Item>, bus: string -> Outcome): (n: nat)
    ensures n <= |items|
  {
    if items == [] then 0
    else
      var k := |items| - 1;
      AcceptedCount(items[..k], bus) + if bus(items[k].id) == Accepted then 1 else 0
  }

  lemma AfterBatchSnoc(rows: Rows, items: seq<Item>, e: Item, bus: string -> Outcome, now: int)
    requires e.id in rows && e.id !in ItemIds(items)
    ensures AfterBatch(rows, items, bus, now)[e.id] == rows[e.id]
    ensures AfterBatch(rows, items + [e], bus, now) ==
            AfterBatch(rows, items, bus, now)[e.id := AfterTry(rows[e.id], bus(e.id), now)]
  {
    var all := items + [e];
    assert all[|items|] == e && forall i :: 0 <= i < |items| ==> all[i] == items[i];
    assert ItemIds(all) == ItemIds(items) + {e.id};
  }

  ghost predicate DistinctNames(r: Rules, raw: map<string, string>) {
    forall j, k :: j in raw && k in raw && r.name(j) == r.name(k) ==> j == k
  }

  ghost function NormalHeaders(r: Rules, raw: map<string, string>): map<string, string>
    requires DistinctNames(r, raw)
  {
    map k | k in raw :: r.name(k) := raw[k]
  }

  /** The message as the outbox keeps it: an id, normal header names, a trace header if there was none. */
  ghost function Stored(r: Rules, m: Message, freshId: string, injected: map<string, string>): Message
    requires DistinctNames(r, m.headers)
  {
    m.(id := StoredId(m, freshId), headers := WithTrace(NormalHeaders(r, m.headers), injected))
  }

  lemma StoredKeeps(r: Rules, m: Message, freshId: string, injected: map<string, string>)
    requires DistinctNames(r, m.headers)
    ensures var s := Stored(r, m, freshId, injected);
            && s == m.(id := if m.id == "" then freshId else m.id, headers := s.headers)
            && (forall k :: k in m.headers ==> r.name(k) in s.headers)
  {
  }

  function StoredId(m: Message, freshId: string): string {
    if m.id == "" then freshId else m.id
  }

  ghost predicate Storable(r: Rules, m: Message, freshId: string, injected: map<string, string>) {
    m.topic != "" && m.kind != "" && DistinctNames(r, m.headers) && Acceptable(r, Stored(r, m, freshId, injected))
  }

  function Inserted(rows: Rows, m: Message, now: int): Rows {
    rows[m.id := Row(m, Pending, 0, now)]
  }

  class Store {
    var rows: Rows

    constructor ()
      ensures rows == map[]
    {
      rows := map[];
    }

    /** Inserts a row only for a message that will pass validation again when it is published. */
    method Enqueue(r: Rules, m: Message, freshId: string, now: int, injected: map<string, string>) returns (ok: bool)
      modifies this
      ensures ok <==> Storable(r, m, freshId, injected) && StoredId(m, freshId) !in old(rows)
      ensures ok ==>
        var id := if m.id == "" then freshId else m.id;
        && id !in old(rows) && id in rows
        && rows == old(rows)[id := Row(m.(id := id, headers := rows[id].msg.headers), Pending, 0, now)]
        && (forall k :: k in m.headers ==> r.name(k) in rows[id].msg.headers)
      ensures rows == if ok then Inserted(old(rows), Stored(r, m, freshId, injected), now) else old(rows)
    {
      var stored;
      ok, stored := Prepare(r, m, freshId, injected);
      ok := ok && stored.id !in rows;
      if ok {
        StoredKeeps(r, m, freshId, injected);
        rows := Inserted(rows, stored, now);
      }
    }

    static method Prepare(r: Rules, m: Message, freshId: string, injected: map<string, string>)
      returns (ok: bool, stored: Message)
      ensures ok <==> Storable(r, m, freshId, injected)
      ensures ok ==> stored == Stored(r, m, freshId, injected)
      ensures ok ==> stored.id == StoredId(m, freshId)
    {
      stored := m;
      if m.topic == "" || m.kind == "" {
        return false, m;
      }
      var distinct, headers := NormaliseNames(r, m.headers);
      if !distinct {
        return false, m;
      }
      if !HasTrace(headers) {
        headers := headers + injected;
      }
      stored := m.(id := if m.id == "" then freshId else m.id, headers := headers);
      assert stored == Stored(r, m, freshId, injected);
      ok := Validate(r, stored);
    }

    /** Lower-cases the header names and refuses two headers with the same normal name. */
    static method NormaliseNames(r: Rules, raw: map<string, string>) returns (ok: bool, headers: map<string, string>)
      ensures ok <==> DistinctNames(r, raw)
      ensures ok ==> headers == NormalHeaders(r, raw)
    {
      headers := map[];
      var rest := raw.Keys;
      while rest != {}
        invariant rest <= raw.Keys
        invariant forall k :: k in raw && k !in rest ==> r.name(k) in headers && headers[r.name(k)] == raw[k]
        invariant forall x :: x in headers ==> exists k :: k in raw && k !in rest && r.name(k) == x
        invariant forall j, k :: j in raw && k in raw && j !in rest && k !in rest && r.name(j) == r.name(k) ==> j == k
        decreases rest
      {
        var rawName :| rawName in rest;
        if r.name(rawName) in headers {
          return false, map[];
        }
        headers := headers[r.name(rawName) := raw[rawName]];
        rest := rest - {rawName};
      }
      return true, headers;
    }

    method RecoverExpiredClaims(now: int)
      modifies this
      ensures rows == Recovered(old(rows), now)
      ensures rows.Keys == old(rows).Keys
      ensures forall id :: id in rows ==>
        var was := old(rows)[id];
        rows[id] == if was.status == Processing && was.nextAt <= now then was.(status := Pending) else was
    {
      rows := map id | id in rows ::
        if rows[id].status == Processing && rows[id].nextAt <= now then rows[id].(status := Pending) else rows[id];
    }

    method PendingItems(now: int, limit: int) returns (items: seq<Item>)
      ensures Snapshot(rows, now, limit, items)
      ensures |items| <= (if 1 <= limit <= 500 then limit else 100)
      ensures forall i :: 0 <= i < |items| ==>
        var id := items[i].id;
        && id in rows && rows[id].status == Pending && rows[id].nextAt <= now
        && items[i] == Item(id, rows[id].msg, rows[id].attempts)
      ensures |items| == (if 1 <= limit <= 500 then limit else 100) || forall id :: id in rows && rows[id].status == Pending && rows[id].nextAt <= now ==>
        exists i :: 0 <= i < |items| && items[i].id == id
    {
      var due := set id | id in rows && Due(rows, now, id);
      items := [];
      while due != {} && |items| < BatchLimit(limit)
        invariant Snapshot(rows, now, limit, items)
        invariant forall id :: id in due ==> Due(rows, now, id)
        invariant forall i :: 0 <= i < |items| ==> items[i].id !in due
        invariant forall id :: Due(rows, now, id) && id !in due ==> exists i :: 0 <= i < |items| && items[i].id == id
        decreases due
      {
        var id :| id in due;
        ghost var before := items;
        items := items + [Item(id, rows[id].msg, rows[id].attempts)];
        assert items[|before|].id == id && forall i :: 0 <= i < |before| ==> items[i] == before[i];
        due := due - {id};
      }
      forall id | id in rows && rows[id].status == Pending && rows[id].nextAt <= now && |items| != BatchLimit(limit)
        ensures exists i :: 0 <= i < |items| && items[i].id == id
      {
        assert Due(rows, now, id);
      }
    }

    method Claim(id: string, now: int) returns (ok: bool)
      modifies this
      ensures ok <==> id in old(rows) && old(rows)[id].status == Pending
      ensures rows == Claimed(old(rows), id, now)
      ensures rows == if ok then old(rows)[id := old(rows)[id].(status := Processing, nextAt := now + 300_000_000_000)] else old(rows)
    {
      ok := id in rows && rows[id].status == Pending;
      if ok {
        rows := rows[id := rows[id].(status := Processing, nextAt := now + LEASE)];
      }
    }

    method MarkPublished(id: string)
      modifies this
      ensures rows == MarkedPublished(old(rows), id)
      ensures id in old(rows) ==> rows == old(rows)[id := old(rows)[id].(status := Published)]
    {
      if id in rows {
        rows := rows[id := rows[id].(status := Published)];
      }
    }

    method Retry(item: Item, now: int)
      modifies this
      ensures rows == Retried(old(rows), item, now)
      ensures rows.Keys == old(rows).Keys && forall id :: id in rows && id != item.id ==> rows[id] == old(rows)[id]
      ensures item.id in rows ==>
        var row := rows[item.id];
        && row.msg == old(rows)[item.id].msg && row.attempts == item.attempts + 1
        && row.status == (if row.attempts >= 12 then Dead else Pending)
        && now + 2_000_000_000 <= row.nextAt <= now + 256_000_000_000
    {
      DelayBounds(item.attempts + 1);
      var attempts := item.attempts + 1;
      var status := Pending;
      if attempts >= 12 {
        status := Dead;
      }
      if item.id in rows {
        rows := rows[item.id := rows[item.id].(status := status, attempts := attempts, nextAt := now + Backoff(attempts))];
      }
    }

    /** One item of a snapshot, however old: skipped unless it can be claimed, else published or put back
    with the snapshot's attempt count. */
    method PublishOne(e: Item, now: int, outcome: Outcome) returns (claimed: bool)
      modifies this
      ensures claimed <==> Claimable(old(rows), e.id)
      ensures rows == if claimed then old(rows)[e.id := AfterItem(old(rows)[e.id], e, outcome, now)] else old(rows)
    {
      claimed := Claim(e.id, now);
      if !claimed {
        return;
      }
      if outcome != Accepted {
        Retry(e, now);
      } else {
        MarkPublished(e.id);
      }
    }

    /** One batch of one worker with nobody interfering: every due row is tried once and ends
    published, pending with one more attempt, or dead; the counters add up. */
    method PublishBatch(now: int, limit: int, bus: string -> Outcome) returns (n: nat, failed: nat, items: seq<Item>)
      modifies this
      ensures Snapshot(Recovered(old(rows), now), now, limit, items)
      ensures forall i :: 0 <= i < |items| ==>
        var row := Recovered(old(rows), now)[items[i].id];
        row.status == Pending && row.nextAt <= now && row.attempts == items[i].attempts
      ensures n == AcceptedCount(items, bus) && n + failed == |items|
      ensures rows == AfterBatch(Recovered(old(rows), now), items, bus, now)
    {
      RecoverExpiredClaims(now);
      ghost var start := rows;
      items := PendingItems(now, limit);
      n, failed := 0, 0;
      for k := 0 to |items|
        invariant n == AcceptedCount(items[..k], bus) && n + failed == k
        invariant rows == AfterBatch(start, items[..k], bus, now)
      {
        var e := items[k];
        assert items[..k + 1] == items[..k] + [e] && items[..k + 1][..k] == items[..k];
        AfterBatchSnoc(start, items[..k], e, bus, now);
        var claimed := PublishOne(e, now, bus(e.id));
        if bus(e.id) == Accepted {
          n := n + 1;
        } else {
          failed := failed + 1;
        }
      }
      assert items[..|items|] == items;
    }
  }
}
