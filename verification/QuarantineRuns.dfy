/** Every interleaving of quarantine workers over a record store that swaps atomically on the status,
while the quarantined bytes may be changed or removed at any time. */
module QuarantineRuns {
  import opened Wrappers
  import opened Quarantine

  /** Where a worker stands between two accesses to shared state; `Closing` waits to swap its record. */
  datatype Worker =
    | ScanRead(r: Record)
    | Claimed(r: Record)
    | PromoteRead(r: Record)
    | Loaded(r: Record, payload: string)
    | Stored(r: Record)
    | CleanupRead(r: Record)
    | Closing(r: Record, next: Record)

  datatype World = World(store: Store, submitted: map<string, Upload>, workers: map<nat, Worker>)

  const EMPTY := World(Store(map[], map[], [], []), map[], map[])

  /** A failed swap, an error return and a crash all end in `Drop`. */
  datatype Step =
    | Submit(id: string, u: Upload, now: int)
    | Tamper(id: string, bytes: Option<string>)
    | ReadForScan(k: nat, id: string)
    | ReadForPromotion(k: nat, id: string)
    | ReadForCleanup(k: nat, id: string)
    | Expire(k: nat, now: int)
    | Claim(k: nat, now: int)
    | FetchFails(k: nat)
    | RunScanner(k: nat, result: ScanResult)
    | Load(k: nat, now: int)
    | PutGoverned(k: nat, landed: bool, version: Option<string>)
    | Delete(k: nat, deleted: bool)
    | DeleteAgain(k: nat)
    | Close(k: nat)
    | Drop(k: nat)

  predicate Enabled(e: Env, w: World, s: Step) {
    match s
    case Submit(id, u, now) => Acceptable(e, u, now) && id !in w.store.records
    case Tamper(id, bytes) => true
    case ReadForScan(k, id) => id in w.store.records
    case ReadForPromotion(k, id) => id in w.store.records
    case ReadForCleanup(k, id) => id in w.store.records
    case Expire(k, now) => k in w.workers && (w.workers[k].ScanRead? || w.workers[k].PromoteRead?) && now > w.workers[k].r.expiresAt
    case Claim(k, now) =>
      k in w.workers && w.workers[k].ScanRead? && now <= w.workers[k].r.expiresAt && w.workers[k].r.status.Quarantined? &&
      CanSwap(w.store, w.workers[k].r)
    case FetchFails(k) => k in w.workers && w.workers[k].Claimed?
    case RunScanner(k, result) => k in w.workers && w.workers[k].Claimed? && w.workers[k].r.id in w.store.objects
    case Load(k, now) =>
      k in w.workers && w.workers[k].PromoteRead? && now <= w.workers[k].r.expiresAt && w.workers[k].r.status.Clean? &&
      w.workers[k].r.id in w.store.objects &&
      |ReadAtMost(w.store.objects[w.workers[k].r.id], w.workers[k].r.size + 1)| == w.workers[k].r.size
    case PutGoverned(k, landed, version) => k in w.workers && w.workers[k].Loaded?
    case Delete(k, deleted) => k in w.workers && w.workers[k].Stored?
    case DeleteAgain(k) => k in w.workers && w.workers[k].CleanupRead? && w.workers[k].r.status.CleanupPending?
    case Close(k) => k in w.workers && w.workers[k].Closing? && CanSwap(w.store, w.workers[k].r)
    case Drop(k) => true
  }

  /** What the worker goes on with after it has read the bytes. */
  function AfterLoad(e: Env, r: Record, payload: string): Worker {
    if e.hexSum(payload) != r.sha256 then Closing(r, r.(status := Rejected)) else Loaded(r, payload)
  }

  function AfterPut(r: Record, version: Option<string>): Worker {
    if version.None? then Closing(r, r.(status := PromotionFailed)) else Stored(r.(promotedVersion := version.value))
  }

  predicate Outside(s: Step) { s.Submit? || s.Tamper? }
  predicate Leaving(s: Step) { s.Close? || s.Drop? }

  /** Where a step leaves its worker. */
  function MovedTo(e: Env, w: World, s: Step): Worker
    requires Enabled(e, w, s) && !Outside(s) && !Leaving(s)
  {
    match s
    case ReadForScan(k, id) => ScanRead(w.store.records[id])
    case ReadForPromotion(k, id) => PromoteRead(w.store.records[id])
    case ReadForCleanup(k, id) => CleanupRead(w.store.records[id])
    case Expire(k, now) => Closing(w.workers[k].r, w.workers[k].r.(status := Expired))
    case Claim(k, now) => Claimed(w.workers[k].r.(status := Scanning))
    case FetchFails(k) => Closing(w.workers[k].r, w.workers[k].r.(status := ScanFailed))
    case RunScanner(k, result) => Closing(w.workers[k].r, AfterScan(w.workers[k].r, result))
    case Load(k, now) =>
      var r := w.workers[k].r; AfterLoad(e, r, ReadAtMost(w.store.objects[r.id], r.size + 1))
    case PutGoverned(k, landed, version) => AfterPut(w.workers[k].r, version)
    case Delete(k, deleted) => Closing(w.workers[k].r, w.workers[k].r.(status := if deleted then Promoted else CleanupPending))
    case DeleteAgain(k) => Closing(w.workers[k].r, w.workers[k].r.(status := Promoted))
  }

  function StoreAfter(e: Env, w: World, s: Step): Store
    requires Enabled(e, w, s)
  {
    var st := w.store;
    match s
    case Submit(id, u, now) => st.(objects := st.objects[id := u.payload], records := st.records[id := NewRecord(e, id, u, now)])
    case Tamper(id, bytes) => st.(objects := if bytes.Some? then st.objects[id := bytes.value] else st.objects - {id})
    case Claim(k, now) => Swapped(st, w.workers[k].r.(status := Scanning))
    case RunScanner(k, result) =>
      var id := w.workers[k].r.id; st.(scans := st.scans + [Scanned(id, st.objects[id], result)])
    case PutGoverned(k, landed, version) =>
      var r := w.workers[k].r;
      if version.Some? || landed
      then st.(target := st.target + [Put(r.id, r.key, w.workers[k].payload, r.options, version)]) else st
    case Delete(k, deleted) => if deleted then st.(objects := st.objects - {w.workers[k].r.id}) else st
    case DeleteAgain(k) => st.(objects := st.objects - {w.workers[k].r.id})
    case Close(k) => Swapped(st, w.workers[k].next)
    case _ => st
  }

  function Apply(e: Env, w: World, s: Step): World
    requires Enabled(e, w, s)
  {
    World(StoreAfter(e, w, s), if s.Submit? then w.submitted[s.id := s.u] else w.submitted,
          if Outside(s) then w.workers else if Leaving(s) then w.workers - {s.k} else w.workers[s.k := MovedTo(e, w, s)])
  }

  predicate Next(e: Env, b: World, s: Step, w: World) {
    Enabled(e, b, s) && w == Apply(e, b, s)
  }

  type Relation = (World, Step, World) -> bool

  function Machine(e: Env): Relation {
    (b, s, w) => Next(e, b, s, w)
  }

  ghost predicate RunOf(next: Relation, steps: seq<Step>, w: World)
    decreases |steps|
  {
    if steps == [] then w == EMPTY
    else
      var n := |steps| - 1;
      exists b :: RunOf(next, steps[..n], b) && next(b, steps[n], w)
  }

  ghost predicate LeadsOf(next: Relation, w: World, steps: seq<Step>, w': World)
    decreases |steps|
  {
    if steps == [] then w' == w else exists c :: next(w, steps[0], c) && LeadsOf(next, c, steps[1..], w')
  }

  ghost predicate Run(e: Env, steps: seq<Step>, w: World) { RunOf(Machine(e), steps, w) }

  ghost predicate Leads(e: Env, w: World, steps: seq<Step>, w': World) { LeadsOf(Machine(e), w, steps, w') }

  /** What has happened: it only grows. */
  datatype Past = Past(submitted: map<string, Upload>, scans: seq<Scanned>, target: seq<Put>)

  function PastOf(w: World): Past { Past(w.submitted, w.store.scans, w.store.target) }

  predicate Grows(p: Past, q: Past) {
    && (forall id :: id in p.submitted ==> id in q.submitted && q.submitted[id] == p.submitted[id])
    && p.scans <= q.scans && p.target <= q.target
  }

  /** The record describes the submitted upload. */
  predicate Describes(e: Env, p: Past, r: Record) {
    r.id in p.submitted &&
    var u := p.submitted[r.id];
    && r.key == u.key && r.size == |u.payload| && r.sha256 == e.hexSum(u.payload)
    && r.options == u.options.(checksum := e.base64Sum(u.payload))
  }

  predicate PastScanning(s: Status) { s.Clean? || s.PromotionFailed? || s.CleanupPending? || s.Promoted? }
  predicate PastPromotion(s: Status) { s.CleanupPending? || s.Promoted? }

  /** The scanner returned exactly this complete, clean evidence for this record. */
  ghost predicate Vouched(p: Past, r: Record) {
    CompleteClean(r.scan) && exists i :: 0 <= i < |p.scans| && p.scans[i].id == r.id && p.scans[i].result == Reported(r.scan, true)
  }

  ghost predicate Delivered(p: Past, r: Record) {
    exists i :: 0 <= i < |p.target| && p.target[i].id == r.id && p.target[i].version == Some(r.promotedVersion)
  }

  ghost predicate Good(e: Env, p: Past, r: Record) {
    && Describes(e, p, r)
    && (PastScanning(r.status) ==> Vouched(p, r))
    && (PastPromotion(r.status) ==> Delivered(p, r))
  }

  lemma GoodGrows(e: Env, p: Past, q: Past, r: Record)
    requires Good(e, p, r) && Grows(p, q)
    ensures Good(e, q, r)
  {
  }

  ghost predicate WorkerGood(e: Env, p: Past, k: Worker) {
    && Good(e, p, k.r)
    && (k.Claimed? ==> k.r.status.Scanning?)
    && (k.Loaded? ==> k.r.status.Clean? && |k.payload| == k.r.size && e.hexSum(k.payload) == k.r.sha256)
    && (k.Stored? ==> k.r.status.Clean? && Delivered(p, k.r))
    && (k.Closing? ==> Good(e, p, k.next) && k.next.id == k.r.id && !k.next.status.Quarantined?)
  }

  lemma WorkerGrows(e: Env, p: Past, q: Past, k: Worker)
    requires WorkerGood(e, p, k) && Grows(p, q)
    ensures WorkerGood(e, q, k)
  {
  }

  predicate ScannedIn(scans: seq<Scanned>, id: string) {
    exists i :: 0 <= i < |scans| && scans[i].id == id
  }

  /** The write carries the upload's size and checksum under the upload's key, after a clean scan. */
  ghost predicate PutGood(e: Env, p: Past, t: Put) {
    && t.id in p.submitted
    && (var u := p.submitted[t.id];
        && t.key == u.key && |t.payload| == |u.payload| && e.hexSum(t.payload) == e.hexSum(u.payload)
        && t.options == u.options.(checksum := e.base64Sum(u.payload)))
    && exists i :: 0 <= i < |p.scans| && p.scans[i].id == t.id && p.scans[i].result.Reported? && CompleteClean(p.scans[i].result.evidence)
  }

  lemma PutGrows(e: Env, p: Past, q: Past, t: Put)
    requires PutGood(e, p, t) && Grows(p, q)
    ensures PutGood(e, q, t)
  {
  }

  /** A record that is past the queue, or being claimed, cannot be claimed again. */
  predicate Queued(records: map<string, Record>, id: string) {
    id in records && records[id].status.Quarantined?
  }

  ghost predicate RecordsGood(e: Env, p: Past, records: map<string, Record>) {
    forall id :: id in records ==> records[id].id == id && Good(e, p, records[id])
  }

  ghost predicate WorkersGood(e: Env, p: Past, workers: map<nat, Worker>) {
    forall k :: k in workers ==> WorkerGood(e, p, workers[k])
  }

  /** Every worker's record is filed; a claim is held by one worker and its record is not yet scanned. */
  ghost predicate ClaimsUnique(st: Store, workers: map<nat, Worker>) {
    && (forall k :: k in workers ==> workers[k].r.id in st.records)
    && (forall k :: k in workers && workers[k].Claimed? ==>
          !Queued(st.records, workers[k].r.id) && !ScannedIn(st.scans, workers[k].r.id))
    && (forall k, l :: k in workers && l in workers && workers[k].Claimed? && workers[l].Claimed? && workers[k].r.id == workers[l].r.id ==> k == l)
  }

  predicate ScansDistinct(st: Store) {
    && (forall i, j :: 0 <= i < j < |st.scans| ==> st.scans[i].id != st.scans[j].id)
    && (forall i :: 0 <= i < |st.scans| ==> st.scans[i].id in st.records && !Queued(st.records, st.scans[i].id))
  }

  ghost predicate PutsGood(e: Env, p: Past, target: seq<Put>) {
    forall i :: 0 <= i < |target| ==> PutGood(e, p, target[i])
  }

  ghost predicate Inv(e: Env, w: World) {
    && RecordsGood(e, PastOf(w), w.store.records) && WorkersGood(e, PastOf(w), w.workers)
    && PutsGood(e, PastOf(w), w.store.target)
    && ClaimsUnique(w.store, w.workers) && ScansDistinct(w.store)
    && w.submitted.Keys == w.store.records.Keys
  }

  lemma StepGrows(e: Env, w: World, s: Step)
    requires Enabled(e, w, s) && w.submitted.Keys == w.store.records.Keys
    ensures Grows(PastOf(w), PastOf(Apply(e, w, s)))
  {
  }

  lemma AllGrow(e: Env, p: Past, q: Past, records: map<string, Record>, workers: map<nat, Worker>, target: seq<Put>)
    requires Grows(p, q) && RecordsGood(e, p, records) && WorkersGood(e, p, workers) && PutsGood(e, p, target)
    ensures RecordsGood(e, q, records) && WorkersGood(e, q, workers) && PutsGood(e, q, target)
  {
    forall id | id in records ensures Good(e, q, records[id]) { GoodGrows(e, p, q, records[id]); }
    forall k | k in workers ensures WorkerGood(e, q, workers[k]) { WorkerGrows(e, p, q, workers[k]); }
    forall i | 0 <= i < |target| ensures PutGood(e, q, target[i]) { PutGrows(e, p, q, target[i]); }
  }

  /** A new status that claims nothing about scan or promotion is always fine. */
  lemma Relabelled(e: Env, q: Past, r: Record, status: Status)
    requires Good(e, q, r) && !PastScanning(status) && !status.Quarantined?
    ensures Good(e, q, r.(status := status))
    ensures WorkerGood(e, q, Closing(r, r.(status := status)))
  {
  }

  lemma ScanIsVouched(e: Env, q: Past, r: Record, result: ScanResult, i: nat)
    requires Good(e, q, r) && i < |q.scans| && q.scans[i].id == r.id && q.scans[i].result == result
    ensures WorkerGood(e, q, Closing(r, AfterScan(r, result)))
  {
  }

  lemma PromotedGood(e: Env, q: Past, r: Record, status: Status)
    requires Good(e, q, r) && PastScanning(r.status) && Delivered(q, r) && PastPromotion(status)
    ensures WorkerGood(e, q, Closing(r, r.(status := status)))
  {
  }

  lemma PutFailedGood(e: Env, q: Past, r: Record)
    requires Good(e, q, r) && r.status.Clean?
    ensures WorkerGood(e, q, Closing(r, r.(status := PromotionFailed)))
  {
  }

  lemma PutIsDelivered(e: Env, q: Past, r: Record, version: string, j: nat)
    requires Good(e, q, r) && r.status.Clean? && j < |q.target| && q.target[j].id == r.id && q.target[j].version == Some(version)
    ensures WorkerGood(e, q, Stored(r.(promotedVersion := version)))
  {
  }

  /** The one worker a step moves is good in its new place. */
  lemma MovedIsGood(e: Env, q: Past, w: World, s: Step)
    requires Enabled(e, w, s) && !Outside(s) && !Leaving(s)
    requires q.scans == StoreAfter(e, w, s).scans && q.target == StoreAfter(e, w, s).target
    requires RecordsGood(e, q, w.store.records) && (s.k in w.workers ==> WorkerGood(e, q, w.workers[s.k]))
    ensures WorkerGood(e, q, MovedTo(e, w, s))
  {
    if s.PutGoverned? || s.Delete? || s.DeleteAgain? {
      PromotingIsGood(e, q, w, s);
    } else if s.RunScanner? {
      ScanIsVouched(e, q, w.workers[s.k].r, s.result, |w.store.scans|);
    } else if s.Expire? || s.Claim? || s.FetchFails? || s.Load? {
      RelabellingIsGood(e, q, w, s);
    }
  }

  lemma RelabellingIsGood(e: Env, q: Past, w: World, s: Step)
    requires Enabled(e, w, s) && (s.Expire? || s.Claim? || s.FetchFails? || s.Load?) && WorkerGood(e, q, w.workers[s.k])
    ensures WorkerGood(e, q, MovedTo(e, w, s))
  {
    Relabelled(e, q, w.workers[s.k].r,
               if s.Expire? then Expired else if s.Claim? then Scanning else if s.FetchFails? then ScanFailed else Rejected);
  }

  lemma PromotingIsGood(e: Env, q: Past, w: World, s: Step)
    requires Enabled(e, w, s) && (s.PutGoverned? || s.Delete? || s.DeleteAgain?)
    requires q.target == StoreAfter(e, w, s).target && WorkerGood(e, q, w.workers[s.k])
    ensures WorkerGood(e, q, MovedTo(e, w, s))
  {
    var r := w.workers[s.k].r;
    if s.Delete? {
      PromotedGood(e, q, r, if s.deleted then Promoted else CleanupPending);
    } else if s.DeleteAgain? {
      PromotedGood(e, q, r, Promoted);
    } else if s.version.None? {
      PutFailedGood(e, q, r);
    } else {
      PutIsDelivered(e, q, r, s.version.value, |w.store.target|);
    }
  }

  /** What was known before the step still holds once its scan or write is on record. */
  ghost predicate Carried(e: Env, q: Past, w: World) {
    RecordsGood(e, q, w.store.records) && WorkersGood(e, q, w.workers) && PutsGood(e, q, w.store.target)
  }

  lemma StepKeepsWorkers(e: Env, w: World, s: Step)
    requires Enabled(e, w, s) && Carried(e, PastOf(Apply(e, w, s)), w)
    ensures WorkersGood(e, PastOf(Apply(e, w, s)), Apply(e, w, s).workers)
  {
    if !Outside(s) && !Leaving(s) {
      MovedIsGood(e, PastOf(Apply(e, w, s)), w, s);
      OneMoved(e, PastOf(Apply(e, w, s)), w.workers, s.k, MovedTo(e, w, s));
    }
  }

  lemma OneMoved(e: Env, q: Past, workers: map<nat, Worker>, k: nat, moved: Worker)
    requires WorkersGood(e, q, workers) && WorkerGood(e, q, moved)
    ensures WorkersGood(e, q, workers[k := moved])
  {
  }

  lemma OneFiled(e: Env, q: Past, records: map<string, Record>, n: Record)
    requires RecordsGood(e, q, records) && Good(e, q, n)
    ensures RecordsGood(e, q, records[n.id := n])
  {
  }

  lemma StepKeepsRecords(e: Env, w: World, s: Step)
    requires Enabled(e, w, s) && Carried(e, PastOf(Apply(e, w, s)), w)
    ensures RecordsGood(e, PastOf(Apply(e, w, s)), Apply(e, w, s).store.records)
  {
    var q := PastOf(Apply(e, w, s));
    if s.Submit? {
      OneFiled(e, q, w.store.records, NewRecord(e, s.id, s.u, s.now));
    } else if s.Claim? {
      Relabelled(e, q, w.workers[s.k].r, Scanning);
      OneFiled(e, q, w.store.records, w.workers[s.k].r.(status := Scanning));
    } else if s.Close? {
      OneFiled(e, q, w.store.records, w.workers[s.k].next);
    }
  }

  lemma PutIsGood(e: Env, q: Past, k: Worker, version: Option<string>)
    requires WorkerGood(e, q, k) && k.Loaded?
    ensures PutGood(e, q, Put(k.r.id, k.r.key, k.payload, k.r.options, version))
  {
  }

  lemma StepKeepsPuts(e: Env, w: World, s: Step)
    requires Enabled(e, w, s) && Carried(e, PastOf(Apply(e, w, s)), w)
    ensures PutsGood(e, PastOf(Apply(e, w, s)), Apply(e, w, s).store.target)
  {
    if s.PutGoverned? {
      PutIsGood(e, PastOf(Apply(e, w, s)), w.workers[s.k], s.version);
    }
  }

  /** Records are never withdrawn and never queued again. */
  predicate QueueShrinks(st: Store, st': Store) {
    forall id :: id in st.records ==> id in st'.records && (Queued(st'.records, id) ==> Queued(st.records, id))
  }

  lemma StepShrinksQueue(e: Env, w: World, s: Step)
    requires WorkersGood(e, PastOf(w), w.workers) && Enabled(e, w, s)
    ensures QueueShrinks(w.store, StoreAfter(e, w, s))
  {
    if s.Close? { assert WorkerGood(e, PastOf(w), w.workers[s.k]); }
  }

  lemma NoNewClaim(st: Store, st': Store, workers: map<nat, Worker>, k: nat, moved: Worker)
    requires ClaimsUnique(st, workers) && QueueShrinks(st, st') && st'.scans == st.scans
    requires !moved.Claimed? && moved.r.id in st.records
    ensures ClaimsUnique(st', workers[k := moved])
  {
  }

  lemma OneLeaves(st: Store, st': Store, workers: map<nat, Worker>, k: nat)
    requires ClaimsUnique(st, workers) && QueueShrinks(st, st') && st'.scans == st.scans
    ensures ClaimsUnique(st', workers - {k})
  {
  }

  lemma SameWorkers(st: Store, st': Store, workers: map<nat, Worker>)
    requires ClaimsUnique(st, workers) && QueueShrinks(st, st') && st'.scans == st.scans
    ensures ClaimsUnique(st', workers)
  {
  }

  lemma NewClaim(st: Store, workers: map<nat, Worker>, k: nat, c: Record)
    requires ClaimsUnique(st, workers) && ScansDistinct(st) && Queued(st.records, c.id) && c.status.Scanning?
    requires QueueShrinks(st, Swapped(st, c))
    ensures ClaimsUnique(Swapped(st, c), workers[k := Claimed(c)])
  {
  }

  lemma ClaimScanned(st: Store, workers: map<nat, Worker>, k: nat, x: Scanned, moved: Worker)
    requires ClaimsUnique(st, workers) && k in workers && workers[k].Claimed? && workers[k].r.id == x.id
    requires moved.Closing? && moved.r == workers[k].r
    ensures ClaimsUnique(st.(scans := st.scans + [x]), workers[k := moved])
  {
  }

  ghost predicate Filed(w: World) {
    && (forall id :: id in w.store.records ==> w.store.records[id].id == id)
    && (forall k :: k in w.workers ==> w.workers[k].r.id in w.store.records)
  }

  lemma MovedIsFiled(e: Env, w: World, s: Step)
    requires Filed(w) && Enabled(e, w, s) && !Outside(s) && !Leaving(s)
    ensures MovedTo(e, w, s).r.id in w.store.records && (MovedTo(e, w, s).Claimed? ==> s.Claim?)
  {
  }

  lemma StepKeepsClaims(e: Env, w: World, s: Step)
    requires Filed(w) && ClaimsUnique(w.store, w.workers) && ScansDistinct(w.store) && Enabled(e, w, s)
    requires QueueShrinks(w.store, Apply(e, w, s).store)
    ensures ClaimsUnique(Apply(e, w, s).store, Apply(e, w, s).workers)
  {
    var w' := Apply(e, w, s);
    if Outside(s) {
      SameWorkers(w.store, w'.store, w.workers);
    } else if Leaving(s) {
      OneLeaves(w.store, w'.store, w.workers, s.k);
    } else if s.Claim? {
      NewClaim(w.store, w.workers, s.k, w.workers[s.k].r.(status := Scanning));
    } else if s.RunScanner? {
      var r := w.workers[s.k].r;
      ClaimScanned(w.store, w.workers, s.k, Scanned(r.id, w.store.objects[r.id], s.result), Closing(r, AfterScan(r, s.result)));
    } else {
      MovedIsFiled(e, w, s);
      NoNewClaim(w.store, w'.store, w.workers, s.k, MovedTo(e, w, s));
    }
  }

  lemma StepKeepsScans(e: Env, w: World, s: Step)
    requires Inv(e, w) && Enabled(e, w, s)
    ensures ScansDistinct(Apply(e, w, s).store)
  {
    StepShrinksQueue(e, w, s);
    if s.RunScanner? {
      OneMoreScan(w.store, Scanned(w.workers[s.k].r.id, w.store.objects[w.workers[s.k].r.id], s.result));
    } else {
      SameScans(w.store, Apply(e, w, s).store);
    }
  }

  lemma SameScans(st: Store, st': Store)
    requires ScansDistinct(st) && QueueShrinks(st, st') && st'.scans == st.scans
    ensures ScansDistinct(st')
  {
  }

  lemma OneMoreScan(st: Store, x: Scanned)
    requires ScansDistinct(st) && !ScannedIn(st.scans, x.id) && x.id in st.records && !Queued(st.records, x.id)
    ensures ScansDistinct(st.(scans := st.scans + [x]))
  {
  }

  lemma StepKeeps(e: Env, w: World, s: Step)
    requires Inv(e, w) && Enabled(e, w, s)
    ensures Inv(e, Apply(e, w, s))
  {
    StepGrows(e, w, s);
    AllGrow(e, PastOf(w), PastOf(Apply(e, w, s)), w.store.records, w.workers, w.store.target);
    StepKeepsWorkers(e, w, s);
    StepKeepsRecords(e, w, s);
    StepKeepsPuts(e, w, s);
    StepShrinksQueue(e, w, s);
    StepKeepsClaims(e, w, s);
    StepKeepsScans(e, w, s);
  }

  lemma {:induction false} RunKeeps(e: Env, steps: seq<Step>, w: World)
    requires Run(e, steps, w)
    ensures Inv(e, w)
    decreases |steps|
  {
    if steps != [] {
      var n := |steps| - 1;
      var b :| RunOf(Machine(e), steps[..n], b) && Next(e, b, steps[n], w);
      RunKeeps(e, steps[..n], b);
      StepKeeps(e, b, steps[n]);
    }
  }

  /** However many workers race, the scanner runs at most once for each record. */
  lemma ScannedOnce(e: Env, steps: seq<Step>, w: World, i: nat, j: nat)
    requires Run(e, steps, w) && i < |w.store.scans| && j < |w.store.scans| && w.store.scans[i].id == w.store.scans[j].id
    ensures i == j
  {
    RunKeeps(e, steps, w);
  }

  /** Clean, PromotionFailed, CleanupPending and Promoted records carry the complete clean evidence the
  scanner returned for them, and a promoted one has its version in the governed store. */
  lemma CleanHasEvidence(e: Env, steps: seq<Step>, w: World, id: string)
    requires Run(e, steps, w) && id in w.store.records && PastScanning(w.store.records[id].status)
    ensures var r := w.store.records[id];
            && r.id == id && Vouched(PastOf(w), r) && (PastPromotion(r.status) ==> Delivered(PastOf(w), r))
  {
    RunKeeps(e, steps, w);
  }

  ghost predicate Injective(f: string -> string) {
    forall x, y :: f(x) == f(y) ==> x == y
  }

  /** Every write to the governed store has exactly the submitted bytes, key and checksum, whatever was
  done to the quarantined copy, and follows a clean scan. */
  lemma WritesAreSubmittedBytes(e: Env, steps: seq<Step>, w: World, n: nat)
    requires Injective(e.hexSum) && Run(e, steps, w) && n < |w.store.target|
    ensures var t := w.store.target[n];
            && t.id in w.submitted && t.payload == w.submitted[t.id].payload && t.key == w.submitted[t.id].key
            && t.options.checksum == e.base64Sum(t.payload)
            && exists i :: 0 <= i < |w.store.scans| && w.store.scans[i].id == t.id &&
                 w.store.scans[i].result.Reported? && CompleteClean(w.store.scans[i].result.evidence)
  {
    RunKeeps(e, steps, w);
    assert PutGood(e, PastOf(w), w.store.target[n]);
  }

  /** The scanner judges the copy it reads, and nothing compares that copy with the record. What was written
  is what was scanned if and only if the scanned bytes have the digest on record, which could be compared
  when the scan ends. */
  lemma WrittenWasScannedIff(e: Env, steps: seq<Step>, w: World, n: nat, i: nat)
    requires Injective(e.hexSum) && Run(e, steps, w) && n < |w.store.target| && i < |w.store.scans|
    requires w.store.scans[i].id == w.store.target[n].id
    ensures var t, scan := w.store.target[n], w.store.scans[i];
            t.id in w.store.records && (t.payload == scan.bytes <==> e.hexSum(scan.bytes) == w.store.records[t.id].sha256)
  {
    RunKeeps(e, steps, w);
    WritesAreSubmittedBytes(e, steps, w, n);
    assert Describes(e, PastOf(w), w.store.records[w.store.target[n].id]);
  }

  lemma First(e: Env, w: World, s: Step, rest: seq<Step>, w': World)
    requires Enabled(e, w, s) && Leads(e, Apply(e, w, s), rest, w')
    ensures Leads(e, w, [s] + rest, w')
  {
    assert Machine(e)(w, s, Apply(e, w, s)) && ([s] + rest)[1..] == rest;
  }

  lemma CloseLeads(e: Env, w: World, k: nat, w': World)
    requires Enabled(e, w, Close(k)) && w' == Apply(e, w, Close(k))
    ensures Leads(e, w, [Close(k)], w')
  {
    assert Machine(e)(w, Close(k), w') && [Close(k)][1..] == [];
    assert LeadsOf(Machine(e), w', [], w');
  }

  lemma ExpiryIsARun(e: Env, w: World, k: nat, id: string, now: int, s: Step)
    requires Filed(w) && k !in w.workers && id in w.store.records && now > w.store.records[id].expiresAt
    requires s == ReadForScan(k, id) || s == ReadForPromotion(k, id)
    ensures Leads(e, w, [s] + ([Expire(k, now)] + [Close(k)]), w.(store := Swapped(w.store, w.store.records[id].(status := Expired))))
  {
    var w' := w.(store := Swapped(w.store, w.store.records[id].(status := Expired)));
    var a := Apply(e, w, s);
    var b := Apply(e, a, Expire(k, now));
    assert Apply(e, b, Close(k)).workers == w.workers;
    CloseLeads(e, b, k, w');
    First(e, a, Expire(k, now), [Close(k)], w');
    First(e, w, s, [Expire(k, now)] + [Close(k)], w');
  }

  /** An uninterrupted Scan is one of the runs above. */
  lemma ScanIsARun(e: Env, w: World, k: nat, id: string, now: int, fetched: bool, result: ScanResult) returns (steps: seq<Step>)
    requires Filed(w) && k !in w.workers
    ensures Leads(e, w, steps, w.(store := ScanCall(w.store, id, now, fetched, result)))
  {
    var w' := w.(store := ScanCall(w.store, id, now, fetched, result));
    if id !in w.store.records { return []; }
    var r := w.store.records[id];
    if now <= r.expiresAt && !r.status.Quarantined? { return []; }
    if now > r.expiresAt {
      ExpiryIsARun(e, w, k, id, now, ReadForScan(k, id));
      return [ReadForScan(k, id)] + ([Expire(k, now)] + [Close(k)]);
    }
    var a := Apply(e, w, ReadForScan(k, id));
    var b := Apply(e, a, Claim(k, now));
    var s := if !fetched || id !in w.store.objects then FetchFails(k) else RunScanner(k, result);
    ClaimedScan(e, w, b, k, r, s, w');
    First(e, a, Claim(k, now), [s] + [Close(k)], w');
    First(e, w, ReadForScan(k, id), [Claim(k, now)] + ([s] + [Close(k)]), w');
    return [ReadForScan(k, id)] + ([Claim(k, now)] + ([s] + [Close(k)]));
  }

  lemma ClaimedScan(e: Env, w: World, b: World, k: nat, r: Record, s: Step, w': World)
    requires k !in w.workers && r.id in w.store.records
    requires var c := r.(status := Scanning); b == World(Swapped(w.store, c), w.submitted, w.workers[k := Claimed(c)])
    requires s == FetchFails(k) || (s.RunScanner? && s.k == k && r.id in w.store.objects)
    requires var c := r.(status := Scanning);
             w' == w.(store := if s.FetchFails? then Swapped(w.store, c.(status := ScanFailed))
                               else Swapped(w.store.(scans := w.store.scans + [Scanned(r.id, w.store.objects[r.id], s.result)]), AfterScan(c, s.result)))
    ensures Leads(e, b, [s] + [Close(k)], w')
  {
    var d := Apply(e, b, s);
    var f := Apply(e, d, Close(k));
    assert f.workers == w.workers;
    assert f.store.records == w'.store.records;
    CloseLeads(e, d, k, w');
    First(e, b, s, [Close(k)], w');
  }

  /** So is an uninterrupted Promote. */
  lemma PromoteIsARun(e: Env, w: World, k: nat, id: string, now: int, read: bool, landed: bool, version: Option<string>, deleted: bool)
    returns (steps: seq<Step>)
    requires Filed(w) && k !in w.workers
    ensures Leads(e, w, steps, w.(store := PromoteCall(e, w.store, id, now, read, landed, version, deleted)))
  {
    var w' := w.(store := PromoteCall(e, w.store, id, now, read, landed, version, deleted));
    if id !in w.store.records { return []; }
    var r := w.store.records[id];
    if now > r.expiresAt {
      ExpiryIsARun(e, w, k, id, now, ReadForPromotion(k, id));
      return [ReadForPromotion(k, id)] + ([Expire(k, now)] + [Close(k)]);
    }
    if !r.status.Clean? || !read || id !in w.store.objects { return []; }
    var payload := ReadAtMost(w.store.objects[id], r.size + 1);
    if |payload| != r.size { return []; }
    var a := Apply(e, w, ReadForPromotion(k, id));
    var b := Apply(e, a, Load(k, now));
    assert b == w.(workers := w.workers[k := AfterLoad(e, r, payload)]);
    var rest: seq<Step>;
    if e.hexSum(payload) != r.sha256 {
      RejectedPromote(e, w, b, k, r, w');
      rest := [Close(k)];
    } else {
      rest := LoadedPromote(e, w, b, k, r, payload, landed, version, deleted, w');
    }
    First(e, a, Load(k, now), rest, w');
    First(e, w, ReadForPromotion(k, id), [Load(k, now)] + rest, w');
    return [ReadForPromotion(k, id)] + ([Load(k, now)] + rest);
  }

  lemma RejectedPromote(e: Env, w: World, b: World, k: nat, r: Record, w': World)
    requires k !in w.workers && r.id in w.store.records && w.store.records[r.id] == r
    requires b == w.(workers := w.workers[k := Closing(r, r.(status := Rejected))])
    requires w' == w.(store := Swapped(w.store, r.(status := Rejected)))
    ensures Leads(e, b, [Close(k)], w')
  {
    assert Apply(e, b, Close(k)).workers == w.workers;
    CloseLeads(e, b, k, w');
  }

  lemma LoadedPromote(e: Env, w: World, b: World, k: nat, r: Record, payload: string, landed: bool, version: Option<string>, deleted: bool, w': World)
    returns (steps: seq<Step>)
    requires k !in w.workers && r.id in w.store.records && w.store.records[r.id] == r && r.status.Clean?
    requires b == w.(workers := w.workers[k := Loaded(r, payload)])
    requires var kept := if version.Some? || landed then w.store.target + [Put(r.id, r.key, payload, r.options, version)] else w.store.target;
             var t := w.store.(target := kept);
             w' == w.(store :=
               if version.None? then Swapped(t, r.(status := PromotionFailed))
               else if !deleted then Swapped(t, r.(promotedVersion := version.value, status := CleanupPending))
               else Swapped(t.(objects := w.store.objects - {r.id}), r.(promotedVersion := version.value, status := Promoted)))
    ensures Leads(e, b, steps, w')
  {
    var put := PutGoverned(k, landed, version);
    var c := Apply(e, b, put);
    if version.None? {
      assert Apply(e, c, Close(k)).workers == w.workers;
      CloseLeads(e, c, k, w');
      First(e, b, put, [Close(k)], w');
      return [put] + [Close(k)];
    }
    var d := Apply(e, c, Delete(k, deleted));
    assert Apply(e, d, Close(k)).workers == w.workers;
    CloseLeads(e, d, k, w');
    First(e, c, Delete(k, deleted), [Close(k)], w');
    First(e, b, put, [Delete(k, deleted)] + [Close(k)], w');
    return [put] + ([Delete(k, deleted)] + [Close(k)]);
  }

  lemma NextOf(next: Relation, steps: seq<Step>, b: World, s: Step, w: World)
    requires RunOf(next, steps, b) && next(b, s, w)
    ensures RunOf(next, steps + [s], w)
  {
    assert (steps + [s])[..|steps|] == steps;
  }

  lemma {:induction false} ThenOf(next: Relation, steps: seq<Step>, b: World, more: seq<Step>, w: World)
    requires RunOf(next, steps, b) && LeadsOf(next, b, more, w)
    ensures RunOf(next, steps + more, w)
    decreases |more|
  {
    if more == [] {
      assert steps + more == steps;
    } else {
      var c :| next(b, more[0], c) && LeadsOf(next, c, more[1..], w);
      NextOf(next, steps, b, more[0], c);
      ThenOf(next, steps + [more[0]], c, more[1..], w);
      assert steps + [more[0]] + more[1..] == steps + more;
    }
  }

  lemma RunNext(e: Env, steps: seq<Step>, b: World, s: Step, w: World)
    requires Run(e, steps, b) && Next(e, b, s, w)
    ensures Run(e, steps + [s], w)
  {
    NextOf(Machine(e), steps, b, s, w);
  }

  lemma RunThen(e: Env, steps: seq<Step>, b: World, more: seq<Step>, w: World)
    requires Run(e, steps, b) && Leads(e, b, more, w)
    ensures Run(e, steps + more, w)
  {
    ThenOf(Machine(e), steps, b, more, w);
  }

  /** An upload whose quarantined copy is exchanged before anyone reads it. */
  lemma ExchangedCopy(e: Env, u: Upload, id: string, now: int, other: string) returns (steps: seq<Step>, w: World)
    requires Acceptable(e, u, now)
    ensures Run(e, steps, w) && w.workers == map[]
    ensures w.store == Store(map[id := other], map[id := NewRecord(e, id, u, now)], [], [])
  {
    var a;
    a, w := ExchangedStores(e, u, id, now, other);
    RunNext(e, [], EMPTY, Submit(id, u, now), a);
    RunNext(e, [] + [Submit(id, u, now)], a, Tamper(id, Some(other)), w);
    steps := [] + [Submit(id, u, now)] + [Tamper(id, Some(other))];
  }

  lemma ExchangedStores(e: Env, u: Upload, id: string, now: int, other: string) returns (a: World, w: World)
    requires Acceptable(e, u, now)
    ensures Next(e, EMPTY, Submit(id, u, now), a) && Next(e, a, Tamper(id, Some(other)), w) && w.workers == map[]
    ensures w.store == Store(map[id := other], map[id := NewRecord(e, id, u, now)], [], [])
  {
    a := Apply(e, EMPTY, Submit(id, u, now));
    w := Apply(e, a, Tamper(id, Some(other)));
  }

  lemma CleanScan(e: Env, u: Upload, id: string, now: int, other: string, clean: Evidence)
    requires e.ttl >= 0 && CompleteClean(clean)
    ensures var r := NewRecord(e, id, u, now);
            ScanCall(Store(map[id := other], map[id := r], [], []), id, now, true, Reported(clean, true)) ==
            Store(map[id := other], map[id := r.(status := Clean, scan := clean)], [Scanned(id, other, Reported(clean, true))], [])
  {
  }

  /** It is scanned clean. */
  lemma ScannedExchanged(e: Env, u: Upload, id: string, now: int, other: string, clean: Evidence) returns (steps: seq<Step>, w: World)
    requires Acceptable(e, u, now) && e.ttl >= 0 && CompleteClean(clean)
    ensures Run(e, steps, w) && w.workers == map[]
    ensures var r := NewRecord(e, id, u, now).(status := Clean, scan := clean);
            w.store == Store(map[id := other], map[id := r], [Scanned(id, other, Reported(clean, true))], [])
  {
    var before, b := ExchangedCopy(e, u, id, now, other);
    var scan := ScanIsARun(e, b, 0, id, now, true, Reported(clean, true));
    w := b.(store := ScanCall(b.store, id, now, true, Reported(clean, true)));
    CleanScan(e, u, id, now, other, clean);
    RunThen(e, before, b, scan, w);
    steps := before + scan;
  }

  /** The submitted bytes are put back. */
  lemma ScannedAndRestored(e: Env, u: Upload, id: string, now: int, other: string, clean: Evidence) returns (steps: seq<Step>, w: World)
    requires Acceptable(e, u, now) && e.ttl >= 0 && CompleteClean(clean)
    ensures Run(e, steps, w) && w.workers == map[]
    ensures var r := NewRecord(e, id, u, now).(status := Clean, scan := clean);
            w.store == Store(map[id := u.payload], map[id := r], [Scanned(id, other, Reported(clean, true))], [])
  {
    var before, c := ScannedExchanged(e, u, id, now, other, clean);
    w := Apply(e, c, Tamper(id, Some(u.payload)));
    RunNext(e, before, c, Tamper(id, Some(u.payload)), w);
    steps := before + [Tamper(id, Some(u.payload))];
  }

  /** The copy is exchanged before the scan and put back after it: what is written was never scanned. */
  lemma UnscannedBytesArePromoted(e: Env, u: Upload, id: string, now: int, other: string, clean: Evidence, version: string)
    returns (steps: seq<Step>, w: World)
    requires Acceptable(e, u, now) && e.ttl >= 0 && other != u.payload && CompleteClean(clean)
    ensures Run(e, steps, w) && |w.store.target| == 1 && w.store.scans == [Scanned(id, other, Reported(clean, true))]
    ensures w.store.target[0].id == id && w.store.target[0].payload == u.payload != w.store.scans[0].bytes
  {
    var before, d := ScannedAndRestored(e, u, id, now, other, clean);
    var promote := PromoteIsARun(e, d, 0, id, now, true, true, Some(version), true);
    w := d.(store := PromoteCall(e, d.store, id, now, true, true, Some(version), true));
    RunThen(e, before, d, promote, w);
    steps := before + promote;
  }
}
