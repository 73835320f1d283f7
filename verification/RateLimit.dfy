/** The fixed-window rate limiter: a counter kept in the memory cache, or a local table of entries.
Times count from Go's zero time, so every clock reading is positive. */
module RateLimit {
  import opened Wrappers

  const ZERO_TIME := 0

  datatype Item = Item(value: string, counter: int, expires: int)
  datatype Entry = Entry(count: int, until: int)

  datatype Call = Call(key: string, window: int, now: int)

  predicate Expired(v: Item, now: int) {
    v.expires != ZERO_TIME && now > v.expires
  }

  function Incremented(data: map<string, Item>, key: string, ttl: int, now: int): Item {
    var v := if key in data && !Expired(data[key], now) then data[key]
             else Item("", 0, if ttl > 0 then now + ttl else ZERO_TIME);
    Item("", v.counter + 1, v.expires)
  }

  function CacheKey(prefix: string, key: string): string {
    prefix + ("ratelimit:" + key)
  }

  lemma CacheKeyInjective(prefix: string, a: string, b: string)
    requires CacheKey(prefix, a) == CacheKey(prefix, b)
    ensures a == b
  {
    assert CacheKey(prefix, a)[|prefix| + 10..] == a;
    assert CacheKey(prefix, b)[|prefix| + 10..] == b;
  }

  function Found(local: map<string, Entry>, key: string): Entry {
    if key in local then local[key] else Entry(0, ZERO_TIME)
  }

  /** The entry after a call and whether the call is let through. */
  function Hit(e: Entry, limit: int, window: int, now: int): (Entry, bool) {
    var f := if now > e.until then Entry(0, now + window) else e;
    if f.count >= limit then (f, false) else (Entry(f.count + 1, f.until), true)
  }

  class Memory {
    const prefix: string
    var data: map<string, Item>

    constructor (prefix: string)
      ensures this.prefix == prefix && data == map[]
    {
      this.prefix := prefix;
      data := map[];
    }

    method Increment(k: string, ttl: int, now: int) returns (n: int)
      modifies this
      ensures data == old(data)[prefix + k := Incremented(old(data), prefix + k, ttl, now)]
      ensures n == data[prefix + k].counter
    {
      var key := prefix + k;
      var v := Item("", 0, ZERO_TIME);
      if key in data && !Expired(data[key], now) {
        v := data[key];
      } else if ttl > 0 {
        v := v.(expires := now + ttl);
      }
      v := v.(counter := v.counter + 1, value := "");
      data := data[key := v];
      n := v.counter;
    }
  }

  /** At most one of the caches is in use; without any the provider is disabled. */
  class Limiter {
    const cache: Memory?
    const redis: bool
    var local: map<string, Entry>

    constructor (cache: Memory?, redis: bool)
      ensures this.cache == cache && this.redis == redis && local == map[]
    {
      this.cache := cache;
      this.redis := redis;
      local := map[];
    }

    /** `answer` is the Redis counter after the increment, or None when Redis fails: then the caller gets an
    error and decides. */
    method Allow(key: string, limit: int, window: int, now: int, answer: Option<int>) returns (ok: Option<bool>)
      modifies this, cache
      ensures limit <= 0 ==> ok == Some(true)
      ensures redis ==> local == old(local) && (cache != null ==> cache.data == old(cache.data))
      ensures redis ==> ok == if limit <= 0 then Some(true) else if answer.None? then None else Some(answer.value <= limit)
      ensures !redis && cache != null ==> local == old(local)
      ensures !redis && cache != null ==>
        ok.Some? && (cache.data, ok.value) == MemoryStep(cache.prefix, old(cache.data), limit, Call(key, window, now))
      ensures !redis && cache == null ==>
        ok.Some? && (local, ok.value) == LocalStep(old(local), limit, Call(key, window, now))
    {
      if limit <= 0 { return Some(true); }
      if redis {
        return if answer.None? then None else Some(answer.value <= limit);
      }
      if cache != null {
        var n := cache.Increment("ratelimit:" + key, window, now);
        return Some(n <= limit);
      }
      var e := if key in local then local[key] else Entry(0, ZERO_TIME);
      if now > e.until {
        e := Entry(0, now + window);
      }
      if e.count >= limit {
        local := local[key := e];
        return Some(false);
      }
      e := e.(count := e.count + 1);
      local := local[key := e];
      return Some(true);
    }
  }

  function MemoryStep(prefix: string, data: map<string, Item>, limit: int, c: Call): (map<string, Item>, bool) {
    if limit <= 0 then (data, true)
    else
      var key := CacheKey(prefix, c.key);
      var v := Incremented(data, key, c.window, c.now);
      (data[key := v], v.counter <= limit)
  }

  function LocalStep(local: map<string, Entry>, limit: int, c: Call): (map<string, Entry>, bool) {
    if limit <= 0 then (local, true)
    else
      var h := Hit(Found(local, c.key), limit, c.window, c.now);
      (local[c.key := h.0], h.1)
  }

  /** Decisions for a sequence of calls; each key has its own limit. */
  function MemoryRun(prefix: string, data: map<string, Item>, limit: string -> int, calls: seq<Call>): seq<bool>
    decreases |calls|
  {
    if calls == [] then []
    else var s := MemoryStep(prefix, data, limit(calls[0].key), calls[0]); [s.1] + MemoryRun(prefix, s.0, limit, calls[1..])
  }

  function LocalRun(local: map<string, Entry>, limit: string -> int, calls: seq<Call>): seq<bool>
    decreases |calls|
  {
    if calls == [] then []
    else var s := LocalStep(local, limit(calls[0].key), calls[0]); [s.1] + LocalRun(s.0, limit, calls[1..])
  }

  predicate Proper(calls: seq<Call>) {
    forall c :: c in calls ==> c.window > 0 && c.now > ZERO_TIME
  }

  /** The two stores agree on a key: same deadline, and the local count is the counter capped at the limit. */
  predicate Agree(data: map<string, Item>, cacheKey: string, local: map<string, Entry>, key: string, limit: int) {
    if limit <= 0 || cacheKey !in data then key !in local
    else
      var v := data[cacheKey];
      && key in local && v.counter > 0 && v.expires > ZERO_TIME
      && local[key] == Entry(if v.counter < limit then v.counter else limit, v.expires)
  }

  ghost predicate AllAgree(prefix: string, data: map<string, Item>, local: map<string, Entry>, limit: string -> int) {
    forall k :: Agree(data, CacheKey(prefix, k), local, k, limit(k))
  }

  lemma StepAgrees(prefix: string, data: map<string, Item>, local: map<string, Entry>, limit: string -> int, c: Call)
    requires AllAgree(prefix, data, local, limit) && c.window > 0 && c.now > ZERO_TIME
    ensures var m, l := MemoryStep(prefix, data, limit(c.key), c), LocalStep(local, limit(c.key), c);
            m.1 == l.1 && AllAgree(prefix, m.0, l.0, limit)
  {
    var m, l := MemoryStep(prefix, data, limit(c.key), c), LocalStep(local, limit(c.key), c);
    assert Agree(data, CacheKey(prefix, c.key), local, c.key, limit(c.key));
    forall k ensures Agree(m.0, CacheKey(prefix, k), l.0, k, limit(k)) {
      assert Agree(data, CacheKey(prefix, k), local, k, limit(k));
      if CacheKey(prefix, k) == CacheKey(prefix, c.key) { CacheKeyInjective(prefix, k, c.key); }
    }
  }

  lemma {:induction false} RunsAgree(prefix: string, data: map<string, Item>, local: map<string, Entry>, limit: string -> int, calls: seq<Call>)
    requires AllAgree(prefix, data, local, limit) && Proper(calls)
    ensures MemoryRun(prefix, data, limit, calls) == LocalRun(local, limit, calls)
    decreases |calls|
  {
    if calls != [] {
      StepAgrees(prefix, data, local, limit, calls[0]);
      var m, l := MemoryStep(prefix, data, limit(calls[0].key), calls[0]), LocalStep(local, limit(calls[0].key), calls[0]);
      RunsAgree(prefix, m.0, l.0, limit, calls[1..]);
    }
  }

  /** The cache counter and the local table decide every call alike, for any keys, any limits per key,
  any positive windows and any readings of the shared clock. */
  lemma SameDecisions(prefix: string, limit: string -> int, calls: seq<Call>)
    requires Proper(calls)
    ensures MemoryRun(prefix, map[], limit, calls) == LocalRun(map[], limit, calls)
  {
    RunsAgree(prefix, map[], map[], limit, calls);
  }

  /** Without a positive window they differ: the counter never expires, the entry always does. */
  lemma NoWindowDiffers(prefix: string, window: int, limit: string -> int)
    requires window <= 0 && limit("k") == 1
    ensures var calls := [Call("k", window, 1), Call("k", window, 2)];
            MemoryRun(prefix, map[], limit, calls) == [true, false] && LocalRun(map[], limit, calls) == [true, true]
  {
    var c, d := Call("k", window, 1), Call("k", window, 2);
    var calls := [c, d];
    assert calls[1..] == [d] && [d][1..] == [];
    var m, l := MemoryStep(prefix, map[], 1, c), LocalStep(map[], 1, c);
    assert MemoryRun(prefix, MemoryStep(prefix, m.0, 1, d).0, limit, []) == [];
    assert MemoryRun(prefix, m.0, limit, [d]) == [MemoryStep(prefix, m.0, 1, d).1] + [];
    assert LocalRun(LocalStep(l.0, 1, d).0, limit, []) == [];
    assert LocalRun(l.0, limit, [d]) == [LocalStep(l.0, 1, d).1] + [];
    assert MemoryRun(prefix, map[], limit, calls) == [true] + [false];
    assert LocalRun(map[], limit, calls) == [true] + [true];
  }

  /** Calls that all ask for one window, made after the zero time. */
  predicate Uniform(calls: seq<Call>, window: int) {
    forall c :: c in calls ==> c.window == window && c.now > ZERO_TIME
  }

  /** For a fixed window the two agree on every call sequence, whatever the limits, if and only if it is
  positive. */
  lemma AgreeIffPositiveWindow(prefix: string, window: int)
    ensures (forall limit: string -> int, calls: seq<Call> :: Uniform(calls, window) ==>
              MemoryRun(prefix, map[], limit, calls) == LocalRun(map[], limit, calls)) <==> window > 0
  {
    if window > 0 {
      forall limit: string -> int, calls: seq<Call> | Uniform(calls, window)
        ensures MemoryRun(prefix, map[], limit, calls) == LocalRun(map[], limit, calls)
      {
        SameDecisions(prefix, limit, calls);
      }
    } else {
      var calls := [Call("k", window, 1), Call("k", window, 2)];
      var one := (k: string) => 1;
      assert Uniform(calls, window);
      NoWindowDiffers(prefix, window, one);
    }
  }

  function Admitted(key: string, calls: seq<Call>, decisions: seq<bool>): nat
    requires |calls| == |decisions|
    decreases |calls|
  {
    if calls == [] then 0
    else (if calls[0].key == key && decisions[0] then 1 else 0) + Admitted(key, calls[1..], decisions[1..])
  }

  lemma {:induction false} RunLength(local: map<string, Entry>, limit: string -> int, calls: seq<Call>)
    ensures |LocalRun(local, limit, calls)| == |calls|
    decreases |calls|
  {
    if calls != [] { RunLength(LocalStep(local, limit(calls[0].key), calls[0]).0, limit, calls[1..]); }
  }

  function LocalAfter(local: map<string, Entry>, limit: string -> int, calls: seq<Call>): map<string, Entry>
    decreases |calls|
  {
    if calls == [] then local else LocalAfter(LocalStep(local, limit(calls[0].key), calls[0]).0, limit, calls[1..])
  }

  lemma {:induction false} RunSplits(local: map<string, Entry>, limit: string -> int, before: seq<Call>, calls: seq<Call>)
    ensures |LocalRun(local, limit, before + calls)| == |before| + |calls|
    ensures LocalRun(local, limit, before + calls)[|before|..] == LocalRun(LocalAfter(local, limit, before), limit, calls)
    decreases |before|
  {
    RunLength(local, limit, before + calls);
    if before == [] {
      assert before + calls == calls;
    } else {
      assert (before + calls)[1..] == before[1..] + calls;
      RunSplits(LocalStep(local, limit(before[0].key), before[0]).0, limit, before[1..], calls);
    }
  }

  /** An entry exists only once a call was let through in its window. */
  predicate Used(local: map<string, Entry>, key: string, limit: int) {
    key in local ==> 1 <= local[key].count <= limit
  }

  lemma {:induction false} EntriesAreUsed(local: map<string, Entry>, limit: string -> int, calls: seq<Call>, key: string)
    requires limit(key) > 0 && Used(local, key, limit(key)) && Proper(calls)
    ensures Used(LocalAfter(local, limit, calls), key, limit(key))
    decreases |calls|
  {
    if calls != [] { EntriesAreUsed(LocalStep(local, limit(calls[0].key), calls[0]).0, limit, calls[1..], key); }
  }

  /** Calls on `key` fall in the closed interval [from, from + window] and ask for that window. */
  predicate Within(key: string, calls: seq<Call>, from: int, window: int) {
    forall c :: c in calls && c.key == key ==> c.window == window && from <= c.now <= from + window
  }

  /** A window that outlives the interval admits only what is left of its limit; an older one can be
  followed by one fresh window. */
  lemma {:induction false} AdmittedInInterval(local: map<string, Entry>, limit: string -> int, calls: seq<Call>, key: string, from: int, window: int)
    requires limit(key) > 0 && window > 0 && Proper(calls) && Within(key, calls, from, window)
    requires Found(local, key).count <= limit(key)
    ensures |LocalRun(local, limit, calls)| == |calls|
    ensures var e := Found(local, key);
            Admitted(key, calls, LocalRun(local, limit, calls)) <=
            if e.until >= from + window then limit(key) - e.count
            else if e.until == ZERO_TIME then limit(key)
            else 2 * limit(key) - e.count
    decreases |calls|
  {
    RunLength(local, limit, calls);
    if calls != [] {
      var s := LocalStep(local, limit(calls[0].key), calls[0]);
      assert LocalRun(local, limit, calls)[1..] == LocalRun(s.0, limit, calls[1..]);
      AdmittedInInterval(s.0, limit, calls[1..], key, from, window);
    }
  }

  /** After any history, a closed interval one window long lets at most 2 * limit - 1 calls of a key
  through: the call that opened the older window lies before the interval. */
  lemma IntervalBound(prefix: string, limit: string -> int, before: seq<Call>, calls: seq<Call>, key: string, from: int, window: int)
    requires limit(key) > 0 && window > 0 && Proper(before) && Proper(calls) && Within(key, calls, from, window)
    ensures |LocalRun(map[], limit, before + calls)| == |before| + |calls|
    ensures Admitted(key, calls, LocalRun(map[], limit, before + calls)[|before|..]) <= 2 * limit(key) - 1
    ensures MemoryRun(prefix, map[], limit, before + calls) == LocalRun(map[], limit, before + calls)
  {
    RunSplits(map[], limit, before, calls);
    SameDecisions(prefix, limit, before + calls);
    EntriesAreUsed(map[], limit, before, key);
    AdmittedInInterval(LocalAfter(map[], limit, before), limit, calls, key, from, window);
  }

  /** How many calls of `key` are let through, counted along the run. */
  function Passed(local: map<string, Entry>, limit: string -> int, calls: seq<Call>, key: string): nat
    decreases |calls|
  {
    if calls == [] then 0
    else
      var s := LocalStep(local, limit(calls[0].key), calls[0]);
      (if calls[0].key == key && s.1 then 1 else 0) + Passed(s.0, limit, calls[1..], key)
  }

  lemma {:induction false} PassedIsAdmitted(local: map<string, Entry>, limit: string -> int, calls: seq<Call>, key: string)
    ensures |LocalRun(local, limit, calls)| == |calls|
    ensures Admitted(key, calls, LocalRun(local, limit, calls)) == Passed(local, limit, calls, key)
    decreases |calls|
  {
    RunLength(local, limit, calls);
    if calls != [] {
      var s := LocalStep(local, limit(calls[0].key), calls[0]);
      assert LocalRun(local, limit, calls)[1..] == LocalRun(s.0, limit, calls[1..]);
      PassedIsAdmitted(s.0, limit, calls[1..], key);
    }
  }

  function Repeat(c: Call, n: nat): seq<Call> { seq(n, _ => c) }

  lemma RepeatSplits(c: Call, n: nat, rest: seq<Call>)
    ensures Repeat(c, n) + rest == if n == 0 then rest else [c] + (Repeat(c, n - 1) + rest)
  {
  }

  lemma OneLetThrough(base: map<string, Entry>, limit: string -> int, c: Call, count: int, until: int, rest: seq<Call>)
    requires limit(c.key) > 0 && c.now <= until && count < limit(c.key)
    ensures Passed(base[c.key := Entry(count, until)], limit, [c] + rest, c.key) ==
            1 + Passed(base[c.key := Entry(count + 1, until)], limit, rest, c.key)
  {
    var local := base[c.key := Entry(count, until)];
    assert ([c] + rest)[1..] == rest;
    assert LocalStep(local, limit(c.key), c).0 == base[c.key := Entry(count + 1, until)];
  }

  lemma {:induction false} EachCounts(passed: (int, seq<Call>) -> nat, c: Call, count: int, top: int, n: nat, rest: seq<Call>)
    requires forall k, r :: count <= k < top ==> passed(k, [c] + r) == 1 + passed(k + 1, r)
    requires count + n <= top
    ensures passed(count, Repeat(c, n) + rest) == n + passed(count + n, rest)
    decreases n
  {
    RepeatSplits(c, n, rest);
    if n > 0 { EachCounts(passed, c, count + 1, top, n - 1, rest); }
  }

  /** Calls let through from an entry with the given count. */
  function PassedFrom(base: map<string, Entry>, limit: string -> int, c: Call, until: int): (int, seq<Call>) -> nat {
    (k, r) => Passed(base[c.key := Entry(k, until)], limit, r, c.key)
  }

  lemma EachIsLetThrough(base: map<string, Entry>, limit: string -> int, c: Call, until: int)
    requires limit(c.key) > 0 && c.now <= until
    ensures var passed := PassedFrom(base, limit, c, until);
            forall k, r :: k < limit(c.key) ==> passed(k, [c] + r) == 1 + passed(k + 1, r)
  {
    forall k, r | k < limit(c.key)
      ensures PassedFrom(base, limit, c, until)(k, [c] + r) == 1 + PassedFrom(base, limit, c, until)(k + 1, r)
    {
      OneLetThrough(base, limit, c, k, until, r);
    }
  }

  /** `n` equal calls on a live entry with room for them are all let through. */
  lemma AllLetThrough(base: map<string, Entry>, limit: string -> int, c: Call, count: int, until: int, n: nat, rest: seq<Call>)
    requires limit(c.key) > 0 && c.now <= until && count + n <= limit(c.key)
    ensures PassedFrom(base, limit, c, until)(count, Repeat(c, n) + rest) == n + PassedFrom(base, limit, c, until)(count + n, rest)
  {
    EachIsLetThrough(base, limit, c, until);
    EachCounts(PassedFrom(base, limit, c, until), c, count, limit(c.key), n, rest);
  }

  /** The bound is reached: one call opens a window at time 1, the rest of its limit comes at its last
  instant, and a full fresh limit one tick later, all but the first inside [2, 2 + window]. */
  lemma IntervalBoundIsTight(limit: string -> int, key: string, window: int)
    requires limit(key) > 0 && window > 0
    ensures var opener := Call(key, window, 1);
            var calls := Repeat(Call(key, window, 1 + window), limit(key) - 1) + Repeat(Call(key, window, 2 + window), limit(key));
            && Within(key, calls, 2, window)
            && |LocalRun(LocalAfter(map[], limit, [opener]), limit, calls)| == |calls|
            && Admitted(key, calls, LocalRun(LocalAfter(map[], limit, [opener]), limit, calls)) == 2 * limit(key) - 1
  {
    var n, opener := limit(key), Call(key, window, 1);
    var a, b := Call(key, window, 1 + window), Call(key, window, 2 + window);
    var first := LocalAfter(map[], limit, [opener]);
    assert first == map[][key := Entry(1, 1 + window)];
    AllLetThrough(map[], limit, a, 1, 1 + window, n - 1, Repeat(b, n));
    FreshWindow(limit, key, window);
    PassedIsAdmitted(first, limit, Repeat(a, n - 1) + Repeat(b, n), key);
  }

  /** After the last instant of a full window the next `limit` calls open a fresh one. */
  lemma FreshWindow(limit: string -> int, key: string, window: int)
    requires limit(key) > 0 && window > 0
    ensures Passed(map[][key := Entry(limit(key), 1 + window)], limit, Repeat(Call(key, window, 2 + window), limit(key)), key) == limit(key)
  {
    var n, b := limit(key), Call(key, window, 2 + window);
    var full: map<string, Entry> := map[][key := Entry(n, 1 + window)];
    RepeatSplits(b, n, []);
    assert Repeat(b, n) + [] == Repeat(b, n) && Repeat(b, n)[1..] == Repeat(b, n - 1) + [];
    assert LocalStep(full, n, b).0 == map[][key := Entry(1, 2 + window + window)];
    AllLetThrough(map[], limit, b, 1, 2 + window + window, n - 1, []);
  }
}
