/** The upload quarantine: submission, malware scan, promotion to the governed store and cleanup. */
module Quarantine {
  import opened Wrappers

  datatype Status =
    | Quarantined | Scanning | Clean | ScanFailed | Rejected | Expired | Promoted | PromotionFailed | CleanupPending

  datatype Verdict = CleanVerdict | Malicious | Unknown
  datatype Evidence = Evidence(scanner: string, evidenceId: string, verdict: Verdict, completedAt: int)

  const ZERO_TIME := 0
  const NO_EVIDENCE := Evidence("", "", Unknown, ZERO_TIME)

  datatype Options = Options(checksum: string, contentType: string, retainUntil: int, legalHold: bool, sseS3: bool, kmsKey: string)

  datatype Record = Record(
    id: string, key: string, contentType: string, detected: string, size: int, sha256: string, status: Status,
    createdAt: int, expiresAt: int, scan: Evidence, options: Options, promotedVersion: string)

  datatype Upload = Upload(
    key: string, contentType: string, payload: string, maxBytes: int, allowed: seq<string>, options: Options)

  /** The library calls and the configuration: the SHA-256 of a payload in hex and in base64, content
  sniffing, the validity of a governed write, and the size and age limits. */
  datatype Env = Env(
    hexSum: string -> string, base64Sum: string -> string, detect: string -> string, normalise: string -> string,
    typeAllowed: (string, seq<string>) -> bool, validKey: string -> bool, validWrite: (string, Options, int) -> bool,
    maxSize: int, ttl: int)

  const OCTETS := "application/octet-stream"

  function Declared(e: Env, u: Upload): string {
    if e.normalise(u.contentType) == "" then e.detect(u.payload) else e.normalise(u.contentType)
  }

  predicate Acceptable(e: Env, u: Upload, now: int) {
    var sum := e.base64Sum(u.payload);
    && e.validKey(u.key) && u.payload != []
    && |u.payload| <= e.maxSize && (u.maxBytes > 0 ==> |u.payload| <= u.maxBytes)
    && (u.options.checksum == "" || u.options.checksum == sum)
    && e.validWrite(u.key, u.options.(checksum := sum), now)
    && (Declared(e, u) == OCTETS || e.detect(u.payload) == OCTETS || Declared(e, u) == e.detect(u.payload))
    && e.typeAllowed(Declared(e, u), u.allowed)
  }

  function NewRecord(e: Env, id: string, u: Upload, now: int): Record {
    Record(id, u.key, Declared(e, u), e.detect(u.payload), |u.payload|, e.hexSum(u.payload), Quarantined, now, now + e.ttl,
           NO_EVIDENCE, u.options.(checksum := e.base64Sum(u.payload)), "")
  }

  datatype ScanResult = ScanError | Reported(evidence: Evidence, closed: bool)

  predicate CompleteClean(v: Evidence) {
    v.scanner != "" && v.evidenceId != "" && v.completedAt != ZERO_TIME && v.verdict.CleanVerdict?
  }

  /** The record a scan ends with; `r` is the claimed record. */
  function AfterScan(r: Record, result: ScanResult): Record {
    match result
    case ScanError => r.(status := ScanFailed)
    case Reported(v, closed) =>
      if !closed then r.(status := ScanFailed)
      else if v.verdict.Malicious? then r.(status := Rejected, scan := v)
      else if !CompleteClean(v) then r.(status := ScanFailed)
      else r.(status := Clean, scan := v)
  }

  /** What a reader limited to one byte more than the recorded size returns. */
  function ReadAtMost(bytes: string, n: int): string {
    if n < 0 then "" else if |bytes| <= n then bytes else bytes[..n]
  }

  datatype Scanned = Scanned(id: string, bytes: string, result: ScanResult)

  /** A write that reached the governed store, with the version it got if the store confirmed it. */
  datatype Put = Put(id: string, key: string, payload: string, options: Options, version: Option<string>)

  datatype Store = Store(objects: map<string, string>, records: map<string, Record>, scans: seq<Scanned>, target: seq<Put>)

  predicate CanSwap(s: Store, held: Record) {
    held.id in s.records && s.records[held.id].status == held.status
  }

  function Swapped(s: Store, next: Record): Store {
    s.(records := s.records[next.id := next])
  }

  function ScanCall(s: Store, id: string, now: int, fetched: bool, result: ScanResult): Store {
    if id !in s.records then s
    else
      var r := s.records[id];
      if now > r.expiresAt then Swapped(s, r.(status := Expired))
      else if !r.status.Quarantined? then s
      else
        var c := r.(status := Scanning);
        if !fetched || id !in s.objects then Swapped(s, c.(status := ScanFailed))
        else Swapped(s.(scans := s.scans + [Scanned(id, s.objects[id], result)]), AfterScan(c, result))
  }

  /** `landed` says whether a write the store reported as failed was kept all the same. */
  function PromoteCall(e: Env, s: Store, id: string, now: int, read: bool, landed: bool, version: Option<string>, deleted: bool): Store {
    if id !in s.records then s
    else
      var r := s.records[id];
      if now > r.expiresAt then Swapped(s, r.(status := Expired))
      else if !r.status.Clean? || !read || id !in s.objects then s
      else
        var payload := ReadAtMost(s.objects[id], r.size + 1);
        if |payload| != r.size then s
        else if e.hexSum(payload) != r.sha256 then Swapped(s, r.(status := Rejected))
        else
          var kept := if version.Some? || landed then s.target + [Put(id, r.key, payload, r.options, version)] else s.target;
          var t := s.(target := kept);
          if version.None? then Swapped(t, r.(status := PromotionFailed))
          else if !deleted then Swapped(t, r.(promotedVersion := version.value, status := CleanupPending))
          else Swapped(t.(objects := s.objects - {id}), r.(promotedVersion := version.value, status := Promoted))
  }

  function CleanupCall(s: Store, id: string, deleted: bool): Store {
    if id !in s.records || !s.records[id].status.CleanupPending? || !deleted then s
    else Swapped(s.(objects := s.objects - {id}), s.records[id].(status := Promoted))
  }

  /** The controller with its stores; the scanner, the governed store and failures answer through parameters. */
  class Controller {
    var objects: map<string, string>
    var records: map<string, Record>
    var scans: seq<Scanned>
    var target: seq<Put>

    function State(): Store reads this { Store(objects, records, scans, target) }

    ghost predicate Filed() reads this { forall id :: id in records ==> records[id].id == id }

    constructor ()
      ensures Filed() && State() == Store(map[], map[], [], [])
    {
      objects, records, scans, target := map[], map[], [], [];
    }

    method Submit(e: Env, id: string, u: Upload, now: int, stored: bool, created: bool) returns (r: Option<Record>)
      requires Filed()
      modifies this
      ensures Filed() && scans == old(scans) && target == old(target)
      ensures r.Some? <==> Acceptable(e, u, now) && stored && created && id !in old(records)
      ensures r.Some? <==>
        var declared := if e.normalise(u.contentType) == "" then e.detect(u.payload) else e.normalise(u.contentType);
        && stored && created && id !in old(records)
        && e.validKey(u.key) && 0 < |u.payload| <= e.maxSize && (u.maxBytes <= 0 || |u.payload| <= u.maxBytes)
        && u.options.checksum in {"", e.base64Sum(u.payload)}
        && e.validWrite(u.key, u.options.(checksum := e.base64Sum(u.payload)), now)
        && ("application/octet-stream" in {declared, e.detect(u.payload)} || declared == e.detect(u.payload))
        && e.typeAllowed(declared, u.allowed)
      ensures r.Some? ==>
        && r.value.id == id && r.value.key == u.key && r.value.size == |u.payload| && r.value.sha256 == e.hexSum(u.payload)
        && r.value.status == Quarantined && r.value.createdAt == now && r.value.expiresAt == now + e.ttl
        && r.value.detected == e.detect(u.payload) && r.value.scan == NO_EVIDENCE
        && r.value.options == u.options.(checksum := e.base64Sum(u.payload))
      ensures r.Some? ==> r.value == NewRecord(e, id, u, now) && objects == old(objects)[id := u.payload] &&
                          records == old(records)[id := r.value]
      ensures r.None? ==> records == old(records) && (objects == old(objects) || objects == old(objects) - {id})
    {
      if !Acceptable(e, u, now) || !stored { return None; }
      objects := objects[id := u.payload];
      if !created || id in records {
        objects := objects - {id};
        return None;
      }
      var record := NewRecord(e, id, u, now);
      records := records[id := record];
      return Some(record);
    }

    method Transition(record: Record, next: Record) returns (ok: bool)
      requires Filed() && record.id == next.id
      modifies this`records
      ensures Filed() && ok == CanSwap(old(State()), record)
      ensures State() == if ok then Swapped(old(State()), next) else old(State())
    {
      ok := record.id in records && records[record.id].status == record.status;
      if ok { records := records[record.id := next]; }
    }

    method Scan(id: string, now: int, fetched: bool, result: ScanResult) returns (clean: bool)
      requires Filed()
      modifies this
      ensures Filed() && State() == ScanCall(old(State()), id, now, fetched, result)
      ensures clean <==>
        && id in old(records) && now <= old(records)[id].expiresAt && old(records)[id].status.Quarantined?
        && fetched && id in old(objects) && result.Reported? && result.closed && result.evidence.verdict.CleanVerdict?
        && result.evidence.scanner != "" && result.evidence.evidenceId != "" && result.evidence.completedAt != 0
      ensures objects == old(objects) && target == old(target)
      ensures id in old(records) ==>
        var r := old(records)[id];
        records == old(records)[id :=
          if now > r.expiresAt then r.(status := Expired)
          else if !r.status.Quarantined? then r
          else if clean then r.(status := Clean, scan := result.evidence)
          else if fetched && id in old(objects) && result.Reported? && result.closed && result.evidence.verdict.Malicious?
          then r.(status := Rejected, scan := result.evidence)
          else r.(status := ScanFailed)]
    {
      if id !in records { return false; }
      var record := records[id];
      if now > record.expiresAt {
        var ok := Transition(record, record.(status := Expired));
        return false;
      }
      if !record.status.Quarantined? { return false; }
      var claimed := record.(status := Scanning);
      var ok := Transition(record, claimed);
      if !fetched || id !in objects {
        ok := Transition(claimed, claimed.(status := ScanFailed));
        return false;
      }
      scans := scans + [Scanned(id, objects[id], result)];
      if result.ScanError? || !result.closed {
        ok := Transition(claimed, claimed.(status := ScanFailed));
        return false;
      }
      var evidence := result.evidence;
      if evidence.verdict.Malicious? {
        ok := Transition(claimed, claimed.(status := Rejected, scan := evidence));
        return false;
      }
      if evidence.scanner == "" || evidence.evidenceId == "" || evidence.completedAt == ZERO_TIME || !evidence.verdict.CleanVerdict? {
        ok := Transition(claimed, claimed.(status := ScanFailed));
        return false;
      }
      ok := Transition(claimed, claimed.(status := Clean, scan := evidence));
      return true;
    }

    method Promote(e: Env, id: string, now: int, read: bool, landed: bool, version: Option<string>, deleted: bool) returns (ok: bool)
      requires Filed()
      modifies this
      ensures Filed() && State() == PromoteCall(e, old(State()), id, now, read, landed, version, deleted)
      ensures ok ==> id in old(objects) && id in records && records[id].status.Promoted? && id !in objects
      ensures ok <==>
        && id in old(records) && now <= old(records)[id].expiresAt && old(records)[id].status.Clean? && read && id in old(objects)
        && |old(objects)[id]| == old(records)[id].size >= 0 && e.hexSum(old(objects)[id]) == old(records)[id].sha256
        && version.Some? && deleted
      ensures id in old(records) ==>
        var r := old(records)[id];
        var readable := now <= r.expiresAt && r.status.Clean? && read && id in old(objects) && |old(objects)[id]| == r.size;
        var intact := readable && e.hexSum(old(objects)[id]) == r.sha256;
        && target == old(target) + (if intact && (version.Some? || landed) then [Put(id, r.key, old(objects)[id], r.options, version)] else [])
        && records == old(records)[id :=
             if now > r.expiresAt then r.(status := Expired)
             else if !readable then r
             else if !intact then r.(status := Rejected)
             else if version.None? then r.(status := PromotionFailed)
             else r.(status := if deleted then Promoted else CleanupPending, promotedVersion := version.value)]
      ensures ok ==>
        && target == old(target) + [Put(id, old(records)[id].key, old(objects)[id], old(records)[id].options, version)]
        && records[id] == old(records)[id].(status := Promoted, promotedVersion := version.value)
    {
      if id !in records { return false; }
      var record := records[id];
      if now > record.expiresAt {
        var swapped := Transition(record, record.(status := Expired));
        return false;
      }
      if !record.status.Clean? { return false; }
      if !read || id !in objects { return false; }
      var payload := ReadAtMost(objects[id], record.size + 1);
      if |payload| != record.size { return false; }
      if e.hexSum(payload) != record.sha256 {
        var swapped := Transition(record, record.(status := Rejected));
        return false;
      }
      if version.Some? || landed {
        target := target + [Put(id, record.key, payload, record.options, version)];
      }
      if version.None? {
        var swapped := Transition(record, record.(status := PromotionFailed));
        return false;
      }
      record := record.(promotedVersion := version.value);
      if !deleted {
        var swapped := Transition(record, record.(status := CleanupPending));
        return false;
      }
      objects := objects - {id};
      var swapped := Transition(record, record.(status := Promoted));
      return true;
    }

    method Cleanup(id: string, deleted: bool) returns (ok: bool)
      requires Filed()
      modifies this
      ensures Filed() && State() == CleanupCall(old(State()), id, deleted)
      ensures ok <==> id in old(records) && old(records)[id].status.CleanupPending? && deleted
      ensures objects == (if ok then old(objects) - {id} else old(objects)) && scans == old(scans) && target == old(target)
      ensures records == if ok then old(records)[id := old(records)[id].(status := Promoted)] else old(records)
    {
      if id !in records { return false; }
      var record := records[id];
      if !record.status.CleanupPending? || !deleted { return false; }
      objects := objects - {id};
      ok := Transition(record, record.(status := Promoted));
    }
  }
}
