/** The hash-chained audit log: writing, verifying, archiving and purging.

SHA-256 (in hex), the RFC 3339 time format, the JSON encoder and the precision at which the database
keeps a timestamp are parameters, collected in `Env`. */
module AuditChain {
  import opened Encoding

  /** The fields of an event that its caller supplies (details already encoded as JSON). */
  datatype Fields = Fields(
    requestId: string, org: string, actorId: string, actorName: string, action: string,
    resourceType: string, resourceId: string, result: string, clientIp: string, details: string)

  /** A row of audit_logs. A legacy row has no sequence number or no hash. */
  datatype Event = Event(
    id: string, at: int, f: Fields, seqNo: int, prev: string, hash: string, legacy: bool)

  /** A chain position: the head of a scope, or the anchor a purge leaves behind. */
  datatype Head = Head(seqNo: int, hash: string)

  datatype Env = Env(
    sha: string -> string, stamp: int -> string, json: seq<Event> -> string, store: int -> int)

  ghost predicate Injective<A(!new), B(!new)>(g: A -> B) {
    forall x, y :: g(x) == g(y) ==> x == y
  }

  function Scope(org: string): string {
    if org == "" then "global" else org
  }

  // ------------------------------------------------------------------ hashing

  function HashFields(env: Env, e: Event): seq<string> {
    [e.id, env.stamp(e.at), e.f.requestId, e.f.org, e.f.actorId, e.f.actorName, e.f.action,
     e.f.resourceType, e.f.resourceId, e.f.result, e.f.clientIp, e.f.details, FormatInt(e.seqNo), e.prev]
  }

  function Preimage(env: Env, e: Event): string {
    AuditParts(HashFields(env, e))
  }

  function EventHash(env: Env, e: Event): string {
    env.sha(Preimage(env, e))
  }

  /** The hashed text determines every column except the hash itself. */
  lemma PreimagePinsRow(env: Env, a: Event, b: Event)
    requires Injective(env.stamp)
    requires Preimage(env, a) == Preimage(env, b)
    ensures a == b.(hash := a.hash, legacy := a.legacy)
  {
    var x, y := HashFields(env, a), HashFields(env, b);
    AuditPartsInjective(x, y);
    assert x[0] == y[0] && x[1] == y[1] && x[2] == y[2] && x[3] == y[3] && x[4] == y[4];
    assert x[5] == y[5] && x[6] == y[6] && x[7] == y[7] && x[8] == y[8] && x[9] == y[9];
    assert x[10] == y[10] && x[11] == y[11] && x[12] == y[12] && x[13] == y[13];
    FormatIntInjective(a.seqNo, b.seqNo);
  }

  // ------------------------------------------------------------------ chains

  predicate LinkAt(env: Env, rows: seq<Event>, from: Head, i: nat)
    requires i < |rows|
  {
    && !rows[i].legacy
    && rows[i].seqNo == from.seqNo + 1 + i
    && rows[i].prev == (if i == 0 then from.hash else rows[i - 1].hash)
    && rows[i].hash == EventHash(env, rows[i])
  }

  /** What an unbroken chain after position `from` is, row by row. */
  predicate Linked(env: Env, rows: seq<Event>, from: Head) {
    forall i :: 0 <= i < |rows| ==> LinkAt(env, rows, from, i)
  }

  /** Two different hashed texts, one from each log, with the same digest. */
  ghost predicate Collide(env: Env, a: seq<Event>, b: seq<Event>) {
    exists e, d :: e in a && d in b && Preimage(env, e) != Preimage(env, d)
                   && EventHash(env, e) == EventHash(env, d)
  }

  /** The last hash pins the whole history: two chains from the same position that end in the same
  hash are the same chain, or the two logs themselves exhibit a SHA-256 collision. */
  lemma {:induction false} HeadPinsHistory(env: Env, a: seq<Event>, b: seq<Event>, from: Head)
    requires Injective(env.stamp)
    requires Linked(env, a, from) && Linked(env, b, from)
    requires a != [] && b != [] && a[|a| - 1].hash == b[|b| - 1].hash
    ensures a == b || Collide(env, a, b)
  {
    var e, d := a[|a| - 1], b[|b| - 1];
    assert LinkAt(env, a, from, |a| - 1) && LinkAt(env, b, from, |b| - 1);
    if Preimage(env, e) == Preimage(env, d) {
      PreimagePinsRow(env, e, d);
      assert |a| == |b| && e == d;
      var a', b' := a[..|a| - 1], b[..|b| - 1];
      assert a == a' + [e] && b == b' + [d];
      if a' != [] {
        assert Linked(env, a', from) by {
          forall i | 0 <= i < |a'| ensures LinkAt(env, a', from, i) { assert LinkAt(env, a, from, i); }
        }
        assert Linked(env, b', from) by {
          forall i | 0 <= i < |b'| ensures LinkAt(env, b', from, i) { assert LinkAt(env, b, from, i); }
        }
        HeadPinsHistory(env, a', b', from);
      }
    } else {
      assert e in a && d in b;
    }
  }

  // ------------------------------------------------------------------ tables

  /** audit_logs, audit_chain_heads and audit_chain_anchors. */
  datatype Db = Db(logs: set<Event>, heads: map<string, Head>, anchors: map<string, Head>)

  function At(m: map<string, Head>, scope: string): Head {
    if scope in m then m[scope] else Head(0, "")
  }

  function WithResult(f: Fields): Fields {
    if f.result == "" then f.(result := "SUCCESS") else f
  }

  /** The row that Write inserts after head `h`: hashed with the clock reading, stored rounded. */
  function NewRow(env: Env, h: Head, f: Fields, id: string, now: int): Event {
    var e := Event(id, now, WithResult(f), h.seqNo + 1, h.hash, "", false);
    e.(at := env.store(now), hash := EventHash(env, e))
  }

  function WriteDb(env: Env, db: Db, f: Fields, id: string, now: int): Db {
    var s := Scope(f.org);
    var e := NewRow(env, At(db.heads, s), f, id, now);
    db.(logs := db.logs + {e}, heads := db.heads[s := Head(e.seqNo, e.hash)])
  }

  function Ids(batch: seq<Event>): set<string> {
    set d | d in batch :: d.id
  }

  function Without(logs: set<Event>, ids: set<string>): set<Event> {
    set e | e in logs && e.id !in ids
  }

  /** Deleting one chunk after another deletes the rows of both. */
  lemma WithoutChunk(logs: set<Event>, ids: set<string>, done: seq<Event>, chunk: seq<Event>)
    requires ids == Ids(done)
    ensures Without(Without(logs, ids), Ids(chunk)) == Without(logs, Ids(done + chunk))
    ensures |Without(logs, ids)| <= |logs|
  {
    assert Ids(done + chunk) == Ids(done) + Ids(chunk);
    assert Without(logs, ids) <= logs;
    assert logs - (logs - Without(logs, ids)) == Without(logs, ids);
  }

  function DeleteDb(db: Db, batch: seq<Event>, last: map<string, Event>): Db {
    Db(Without(db.logs, Ids(batch)),
       db.heads,
       db.anchors + (map s | s in last :: Head(last[s].seqNo, last[s].hash)))
  }

  /** `last` maps each scope of the batch to an event of that scope with the highest number. */
  ghost predicate LastPerScope(batch: seq<Event>, last: map<string, Event>) {
    && (forall e :: e in batch ==> Scope(e.f.org) in last && e.seqNo <= last[Scope(e.f.org)].seqNo)
    && (forall s :: s in last ==> last[s] in batch && Scope(last[s].f.org) == s)
  }

  /** What `ORDER BY sequence_no` returns for one organisation. */
  ghost predicate Ordered(rows: seq<Event>, logs: set<Event>, org: string) {
    && (forall e :: e in rows <==> e in logs && e.f.org == org)
    && (forall i, j :: 0 <= i < j < |rows| ==> rows[i] != rows[j] && rows[i].seqNo <= rows[j].seqNo)
  }

  // ------------------------------------------------------------------ archive receipts

  datatype Receipt = Receipt(
    provider: string, key: string, version: string, contentHash: string, count: int, immutableUntil: int)

  /** Whether ValidateArchiveReceipt accepts (a zero time is 0, before every `now`). */
  predicate ReceiptCovers(env: Env, batch: seq<Event>, r: Receipt, now: int) {
    && r.provider != "" && r.key != "" && r.version != "" && r.contentHash != ""
    && r.contentHash == env.sha(env.json(batch)) && r.count == |batch|
    && r.immutableUntil != 0 && now < r.immutableUntil
  }

  /** Whether VerifyIntegrity accepts the rows of the organisation behind a scope. */
  predicate ScopeVerifies(env: Env, rowsOf: string -> seq<Event>, anchors: map<string, Head>, s: string) {
    Linked(env, rowsOf(if s == "global" then "" else s), At(anchors, s))
  }

  predicate ScopesVerify(env: Env, rowsOf: string -> seq<Event>, anchors: map<string, Head>, batch: seq<Event>) {
    forall e :: e in batch ==> ScopeVerifies(env, rowsOf, anchors, Scope(e.f.org))
  }

  predicate AllChained(batch: seq<Event>) {
    forall e :: e in batch ==> e.seqNo > 0 && e.hash != ""
  }

  // ------------------------------------------------------------------ the writer

  class Writer {
    var logs: set<Event>
    var heads: map<string, Head>
    var anchors: map<string, Head>
    var receipts: seq<Receipt>

    constructor ()
      ensures State() == Db({}, map[], map[]) && receipts == []
    {
      logs, heads, anchors, receipts := {}, map[], map[], [];
    }

    ghost function State(): Db
      reads this
    {
      Db(logs, heads, anchors)
    }

    /** One transaction: lock the head, append the row, move the head. */
    method Write(env: Env, f: Fields, id: string, now: int)
      modifies this`logs, this`heads
      ensures State() == WriteDb(env, old(State()), f, id, now)
      ensures var scope := if f.org == "" then "global" else f.org;
        var head := At(old(heads), scope);
        exists e: Event ::
          && logs == old(logs) + {e} && heads == old(heads)[scope := Head(e.seqNo, e.hash)]
          && e.id == id && e.at == env.store(now) && !e.legacy
          && (f.result != "" ==> e.f == f) && (f.result == "" ==> e.f == f.(result := "SUCCESS"))
          && e.seqNo == head.seqNo + 1 && e.prev == head.hash && e.hash == EventHash(env, e.(at := now))
    {
      var g := if f.result == "" then f.(result := "SUCCESS") else f;
      var scope := if g.org == "" then "global" else g.org;
      if scope !in heads {
        heads := heads[scope := Head(0, "")];
      }
      var h := heads[scope];
      var e := Event(id, now, g, h.seqNo + 1, h.hash, "", false);
      var hash := EventHash(env, e);
      logs := logs + {e.(at := env.store(now), hash := hash)};
      heads := heads[scope := Head(e.seqNo, hash)];
    }

    /** Walks rows that were read before the anchor; accepts exactly an unbroken chain after it. */
    method VerifyIntegrity(env: Env, org: string, rows: seq<Event>) returns (ok: bool)
      ensures ok <==> Linked(env, rows, At(anchors, Scope(org)))
    {
      var expected, previous := 1, "";
      var scope := if org == "" then "global" else org;
      if scope in anchors {
        expected, previous := anchors[scope].seqNo + 1, anchors[scope].hash;
      }
      ghost var from := At(anchors, Scope(org));
      for i := 0 to |rows|
        invariant expected == from.seqNo + 1 + i
        invariant previous == if i == 0 then from.hash else rows[i - 1].hash
        invariant forall k :: 0 <= k < i ==> LinkAt(env, rows, from, k)
      {
        var e := rows[i];
        if e.legacy || e.seqNo != expected || e.prev != previous || e.hash != EventHash(env, e) {
          assert !LinkAt(env, rows, from, i);
          return false;
        }
        previous, expected := e.hash, expected + 1;
      }
      return true;
    }

    /** The anchor loop of PurgeExpired; refuses a batch with an unchained event. */
    static method LatestPerScope(batch: seq<Event>) returns (ok: bool, last: map<string, Event>)
      ensures ok <==> AllChained(batch)
      ensures ok ==> LastPerScope(batch, last)
    {
      last := map[];
      for i := 0 to |batch|
        invariant AllChained(batch[..i])
        invariant LastPerScope(batch[..i], last)
      {
        var e := batch[i];
        assert batch[..i + 1] == batch[..i] + [e];
        if e.seqNo <= 0 || e.hash == "" {
          return false, last;
        }
        var scope := if e.f.org == "" then "global" else e.f.org;
        if scope !in last || e.seqNo > last[scope].seqNo {
          last := last[scope := e];
        }
      }
      assert batch[..|batch|] == batch;
      return true, last;
    }

    /** One transaction: keep the receipt, move the anchors, delete the batch in chunks of 500. */
    method DeleteArchived(batch: seq<Event>, last: map<string, Event>, receipt: Receipt) returns (deleted: nat)
      modifies this`logs, this`anchors, this`receipts
      ensures State() == DeleteDb(old(State()), batch, last)
      ensures receipts == old(receipts) + [receipt]
      ensures deleted == |old(logs)| - |logs|
    {
      receipts := receipts + [receipt];
      anchors := anchors + (map s | s in last :: Head(last[s].seqNo, last[s].hash));
      deleted := 0;
      var start := 0;
      ghost var before := logs;
      while start < |batch|
        modifies this`logs
        invariant 0 <= start <= |batch|
        invariant logs == Without(before, Ids(batch[..start]))
        invariant deleted == |before| - |logs|
        decreases |batch| - start
      {
        var end := if start + 500 > |batch| then |batch| else start + 500;
        var chunk := batch[start..end];
        var kept := Without(logs, Ids(chunk));
        assert batch[..end] == batch[..start] + chunk;
        WithoutChunk(before, Ids(batch[..start]), batch[..start], chunk);
        WithoutChunk(logs, Ids(chunk), chunk, []);
        deleted := deleted + (|logs| - |kept|);
        logs := kept;
        start := end;
      }
      assert batch[..start] == batch;
    }

    /** Verifies every scope of the batch before anything is archived. */
    method VerifyScopes(env: Env, batch: seq<Event>, last: map<string, Event>, rowsOf: string -> seq<Event>)
      returns (ok: bool)
      requires LastPerScope(batch, last)
      ensures ok <==> ScopesVerify(env, rowsOf, anchors, batch)
    {
      var scopes := last.Keys;
      while scopes != {}
        invariant scopes <= last.Keys
        invariant forall s :: s in last && s !in scopes ==> ScopeVerifies(env, rowsOf, anchors, s)
        decreases scopes
      {
        var s :| s in scopes;
        var org := if s == "global" then "" else s;
        ok := VerifyIntegrity(env, org, rowsOf(org));
        assert Scope(org) == s by { assert Scope(last[s].f.org) == s; }
        if !ok {
          assert last[s] in batch && Scope(last[s].f.org) == s;
          return;
        }
        scopes := scopes - {s};
      }
      ok := true;
    }

    /** The whole purge, with the archive's answers and the query results as inputs: `batch` is what the
    query for expired rows returned and `rowsOf` what each verification read, each at its own moment; `now`
    is the reading the receipt is checked against. It is fail-closed: it deletes exactly when every check
    passes and otherwise changes nothing. */
    method PurgeExpired(env: Env, retentionDays: int, now: int, batch: seq<Event>, rowsOf: string -> seq<Event>,
                        archived: bool, receipt: Receipt, verified: bool) returns (done: bool, deleted: nat)
      modifies this`logs, this`anchors, this`receipts
      ensures done <==>
        && retentionDays > 0 && batch != [] && (forall e :: e in batch ==> e.seqNo > 0 && e.hash != "")
        && ScopesVerify(env, rowsOf, old(anchors), batch)
        && archived && verified
        && receipt.provider != "" && receipt.key != "" && receipt.version != "" && receipt.contentHash != ""
        && receipt.contentHash == env.sha(env.json(batch)) && receipt.count == |batch|
        && receipt.immutableUntil != 0 && now < receipt.immutableUntil
      ensures !done ==> State() == old(State()) && receipts == old(receipts)
      ensures done ==> exists last :: LastPerScope(batch, last) && State() == DeleteDb(old(State()), batch, last)
      ensures done ==> receipts == old(receipts) + [receipt]
      ensures deleted == |old(logs)| - |logs|
    {
      if retentionDays <= 0 || batch == [] {
        return false, 0;
      }
      var ok, last := LatestPerScope(batch);
      if !ok {
        return false, 0;
      }
      ok := VerifyScopes(env, batch, last, rowsOf);
      if !ok || !archived || !ReceiptCovers(env, batch, receipt, now) || !verified {
        return false, 0;
      }
      deleted := DeleteArchived(batch, last, receipt);
      done := true;
    }
  }
}
