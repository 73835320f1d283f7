/** The provider-neutral message envelope and its RocketMQ encoding.

The envelope code uses Go's text functions only through `Rules`: what trimming, header-name
normalisation, header validation and UTF-8 validation do. GoRulesLawful shows that the real functions
obey the three laws the proofs need. The broker is assumed to deliver a wire message as it was sent;
trace headers that the telemetry library adds when a message carries none are the parameter
`injected`. */
module Messaging {
  import opened Encoding
  import opened Text
  import Base64Url
  import opened Wrappers

  /** `deliverAt` is 0 for the zero time. */
  datatype Message = Message(
    id: string, org: string, topic: string, key: string, kind: string, body: string,
    headers: map<string, string>, tag: string, orderingKey: string, deliverAt: int)

  datatype Wire = Wire(
    topic: string, body: string, keys: seq<string>, tag: string, group: string, delay: int,
    properties: map<string, string>)

  const EVENT_ID := "x-forge-event-id"
  const EVENT_TYPE := "x-forge-event-type"
  const ORGANIZATION_ID := "x-forge-organization-id"
  const KEY_ENCODING := "x-forge-key-encoding"
  const RESERVED := {EVENT_ID, EVENT_TYPE, ORGANIZATION_ID, KEY_ENCODING}
  const MAX_BODY := 4 * 1024 * 1024
  const MAX_HEADERS := 64
  const MAX_HEADER_BYTES := 32 * 1024

  // ------------------------------------------------------------------ text rules

  datatype Rules = Rules(
    trim: string -> string, name: string -> string, fits: (string, string) -> bool, utf8: string -> bool)

  predicate HeaderFits(rawName: string, value: string) {
    var name := NormalName(rawName);
    ValidHeaderName(name) && ValidUtf8(value) && !("x-forge-" <= name)
  }

  const GO_RULES := Rules(TrimSpace, NormalName, HeaderFits, ValidUtf8)

  ghost predicate Lawful(r: Rules) {
    && (forall s :: r.trim(r.trim(s)) == r.trim(s))
    && (forall k, v :: r.fits(k, v) ==> r.name(r.name(k)) == r.name(k) && r.fits(r.name(k), v))
    && (forall k, v :: r.fits(k, v) ==> r.name(k) !in RESERVED)
  }

  lemma ReservedPrefix(x: string)
    requires x in RESERVED
    ensures "x-forge-" <= x
  {
  }

  lemma FittingName(name: string, v: string)
    requires ValidHeaderName(name) && ValidUtf8(v) && !("x-forge-" <= name)
    ensures NormalName(name) == name && HeaderFits(name, v) && name !in RESERVED
  {
    ValidNameIsNormal(name);
    if name in RESERVED { ReservedPrefix(name); }
  }

  lemma GoRulesLawful()
    ensures Lawful(GO_RULES)
  {
    forall s ensures GO_RULES.trim(GO_RULES.trim(s)) == GO_RULES.trim(s) { TrimSpaceIdempotent(s); }
    forall k, v | GO_RULES.fits(k, v)
      ensures GO_RULES.name(GO_RULES.name(k)) == GO_RULES.name(k) && GO_RULES.fits(GO_RULES.name(k), v)
      ensures GO_RULES.name(k) !in RESERVED
    {
      FittingName(NormalName(k), v);
    }
  }

  // ------------------------------------------------------------------ the envelope

  function Trimmed(r: Rules, m: Message): Message {
    m.(id := r.trim(m.id), org := r.trim(m.org), topic := r.trim(m.topic), kind := r.trim(m.kind),
       tag := r.trim(m.tag), orderingKey := r.trim(m.orderingKey))
  }

  predicate FieldsFit(t: Message) {
    && t.id != "" && t.topic != "" && t.kind != ""
    && |t.id| <= 200 && |t.topic| <= 200 && |t.kind| <= 160
    && |t.key| <= 1024 && |t.orderingKey| <= 200 && |t.tag| <= 128
    && |t.body| <= MAX_BODY && |t.headers| <= MAX_HEADERS
  }

  function HeaderCost(r: Rules, rawName: string, value: string): nat {
    |r.name(rawName)| + |value|
  }

  /** Total size of a header map; HeaderBytesSplit shows that the order does not matter. */
  ghost function HeaderBytes(r: Rules, h: map<string, string>): nat
    decreases |h|
  {
    if h == map[] then 0
    else
      var k :| k in h;
      assert |h - {k}| < |h| by { SmallerMap(h, k); }
      HeaderCost(r, k, h[k]) + HeaderBytes(r, h - {k})
  }

  lemma SmallerMap(h: map<string, string>, k: string)
    requires k in h
    ensures |h - {k}| == |h| - 1
  {
  }

  lemma {:induction false} HeaderBytesSplit(r: Rules, h: map<string, string>, k: string)
    requires k in h
    ensures HeaderBytes(r, h) == HeaderCost(r, k, h[k]) + HeaderBytes(r, h - {k})
    decreases |h|
  {
    var j :| j in h && HeaderBytes(r, h) == HeaderCost(r, j, h[j]) + HeaderBytes(r, h - {j});
    if j != k {
      SmallerMap(h, j);
      SmallerMap(h, k);
      HeaderBytesSplit(r, h - {j}, k);
      HeaderBytesSplit(r, h - {k}, j);
      assert h - {j} - {k} == h - {k} - {j};
    }
  }

  predicate AllFit(r: Rules, h: map<string, string>) {
    forall k :: k in h ==> r.fits(k, h[k])
  }

  /** What prepareMessage accepts. */
  ghost predicate Acceptable(r: Rules, m: Message) {
    && FieldsFit(Trimmed(r, m))
    && AllFit(r, m.headers)
    && HeaderBytes(r, m.headers) <= MAX_HEADER_BYTES
  }

  /** `n` holds, under each normalised name, the value of some header with that name. */
  ghost predicate Normalises(r: Rules, raw: map<string, string>, n: map<string, string>) {
    && (forall k :: k in raw ==> r.name(k) in n)
    && (forall x :: x in n ==> Source(r, raw, x, n[x]))
  }

  ghost predicate Source(r: Rules, raw: map<string, string>, x: string, value: string) {
    exists k :: k in raw && r.name(k) == x && raw[k] == value
  }

  predicate HasTrace(h: map<string, string>) {
    "traceparent" in h && h["traceparent"] != ""
  }

  function WithReserved(n: map<string, string>, t: Message): map<string, string> {
    var h := n[EVENT_ID := t.id][EVENT_TYPE := t.kind];
    if t.org != "" then h[ORGANIZATION_ID := t.org] else h
  }

  function WithTrace(h: map<string, string>, injected: map<string, string>): map<string, string> {
    if HasTrace(h) then h else h + injected
  }

  /** The header loop of prepareMessage, over the map in any order. */
  method NormaliseHeaders(r: Rules, raw: map<string, string>) returns (ok: bool, headers: map<string, string>)
    ensures ok <==> AllFit(r, raw) && HeaderBytes(r, raw) <= MAX_HEADER_BYTES
    ensures ok ==> Normalises(r, raw, headers)
  {
    headers := map[];
    var rest := raw;
    var total := 0;
    while rest != map[]
      invariant forall k :: k in rest ==> k in raw && rest[k] == raw[k]
      invariant forall k :: k in raw && k !in rest ==> r.fits(k, raw[k]) && r.name(k) in headers
      invariant forall x :: x in headers ==> Source(r, raw, x, headers[x])
      invariant total + HeaderBytes(r, rest) == HeaderBytes(r, raw)
      invariant total <= MAX_HEADER_BYTES
      decreases |rest|
    {
      var rawName :| rawName in rest;
      var value := rest[rawName];
      SmallerMap(rest, rawName);
      HeaderBytesSplit(r, rest, rawName);
      if !r.fits(rawName, value) {
        return false, map[];
      }
      total := total + HeaderCost(r, rawName, value);
      if total > MAX_HEADER_BYTES {
        return false, map[];
      }
      headers := headers[r.name(rawName) := value];
      rest := rest - {rawName};
    }
    ok := true;
  }

  /** Trims the six text fields and keeps key, body, headers and delivery time; refuses exactly a missing id,
  topic or type, a field over its limit, and headers that do not fit or are too many or too long. */
  method PrepareMessage(r: Rules, m: Message, injected: map<string, string>)
    returns (ok: bool, out: Message, headers: map<string, string>)
    ensures ok <==> Acceptable(r, m)
    ensures ok <==>
      && 1 <= |r.trim(m.id)| <= 200 && 1 <= |r.trim(m.topic)| <= 200 && 1 <= |r.trim(m.kind)| <= 160
      && |m.key| <= 1024 && |r.trim(m.orderingKey)| <= 200 && |r.trim(m.tag)| <= 128 && |m.body| <= 4_194_304
      && |m.headers| <= 64 && (forall k :: k in m.headers ==> r.fits(k, m.headers[k])) && HeaderBytes(r, m.headers) <= 32_768
    ensures ok ==> out == Trimmed(r, m)
    ensures ok ==>
      out == Message(r.trim(m.id), r.trim(m.org), r.trim(m.topic), m.key, r.trim(m.kind), m.body, m.headers,
                     r.trim(m.tag), r.trim(m.orderingKey), m.deliverAt)
    ensures ok ==> exists n :: Normalises(r, m.headers, n) && headers == WithTrace(WithReserved(n, out), injected)
  {
    out, headers := Trimmed(r, m), map[];
    if !FieldsFit(out) {
      return false, m, map[];
    }
    ok, headers := NormaliseHeaders(r, m.headers);
    if !ok {
      return false, m, map[];
    }
    ghost var n := headers;
    headers := headers[EVENT_ID := out.id];
    headers := headers[EVENT_TYPE := out.kind];
    if out.org != "" {
      headers := headers[ORGANIZATION_ID := out.org];
    }
    if !HasTrace(headers) {
      headers := headers + injected;
    }
    assert headers == WithTrace(WithReserved(n, out), injected);
  }

  method Validate(r: Rules, m: Message) returns (ok: bool)
    ensures ok <==> Acceptable(r, m)
  {
    var out, headers;
    ok, out, headers := PrepareMessage(r, m, map[]);
  }

  // ------------------------------------------------------------------ encoder and decoder

  function ToWire(r: Rules, t: Message, n: map<string, string>, injected: map<string, string>): Wire
    requires Base64Url.IsBytes(t.key)
  {
    WireWith(r, t, WithTrace(WithReserved(n, t), injected))
  }

  function WireWith(r: Rules, t: Message, h: map<string, string>): Wire
    requires Base64Url.IsBytes(t.key)
  {
    var plain := r.utf8(t.key);
    Wire(t.topic, t.body,
         if t.key == "" then [t.id] else if plain then [t.id, t.key] else [t.id, Base64Url.Encode(t.key)],
         t.tag, t.orderingKey, t.deliverAt,
         if t.key == "" || plain then h else h[KEY_ENCODING := "base64url"])
  }

  /** Fills the provider's message object field by field. */
  method FillWire(r: Rules, t: Message, h: map<string, string>) returns (wire: Wire)
    requires Base64Url.IsBytes(t.key)
    ensures wire == WireWith(r, t, h)
  {
    wire := Wire(t.topic, t.body, [], "", "", 0, map[]);
    var headers, keys := h, [t.id];
    if |t.key| > 0 {
      if r.utf8(t.key) {
        keys := keys + [t.key];
      } else {
        keys := keys + [Base64Url.Encode(t.key)];
        headers := headers[KEY_ENCODING := "base64url"];
      }
    }
    wire := wire.(keys := keys);
    if t.tag != "" {
      wire := wire.(tag := t.tag);
    }
    if t.orderingKey != "" {
      wire := wire.(group := t.orderingKey);
    }
    if t.deliverAt != 0 {
      wire := wire.(delay := t.deliverAt);
    }
    wire := wire.(properties := headers);
  }

  method RocketMQPublishingMessage(r: Rules, m: Message, injected: map<string, string>)
    returns (ok: bool, out: Message, wire: Wire)
    requires Base64Url.IsBytes(m.key)
    ensures ok <==> Acceptable(r, m)
    ensures ok ==> out == Trimmed(r, m)
    ensures ok ==> exists n :: Normalises(r, m.headers, n) && wire == ToWire(r, out, n, injected)
    ensures ok && Lawful(r) && RESERVED !! injected.Keys ==> exists n :: (
      Normalises(r, m.headers, n) && FromWire(wire) == Some(
             Message(r.trim(m.id), r.trim(m.org), r.trim(m.topic), m.key, r.trim(m.kind), m.body, if "traceparent" in n && n["traceparent"] != "" then n else n + injected,
                     r.trim(m.tag), r.trim(m.orderingKey), m.deliverAt)))
  {
    var headers;
    ok, out, headers := PrepareMessage(r, m, injected);
    if ok {
      wire := FillWire(r, out, headers);
      ghost var n :| Normalises(r, m.headers, n) && headers == WithTrace(WithReserved(n, out), injected);
      if Lawful(r) && RESERVED !! injected.Keys { DecodeUndoesEncode(r, m, n, injected); }
    } else {
      wire := Wire("", "", [], "", "", 0, map[]);
    }
  }

  function Property(w: Wire, name: string): string {
    if name in w.properties then w.properties[name] else ""
  }

  /** The message a delivery carries, or None when its business key does not decode. */
  function FromWire(w: Wire): Option<Message> {
    var m := Message(Property(w, EVENT_ID), Property(w, ORGANIZATION_ID), w.topic, "", Property(w, EVENT_TYPE),
                     w.body, w.properties - RESERVED, w.tag, w.group, w.delay);
    if |w.keys| <= 1 then Some(m)
    else if Property(w, KEY_ENCODING) == "base64url" then
      match Base64Url.Decode(w.keys[1])
      case None => None
      case Some(key) => Some(m.(key := key))
    else Some(m.(key := w.keys[1]))
  }

  /** decodeRocketMQDelivery succeeds: the key decodes and the envelope passes validation again. */
  ghost predicate Decodes(r: Rules, w: Wire) {
    FromWire(w).Some? && Acceptable(r, FromWire(w).value)
  }

  lemma RemoveReserved(p: map<string, string>, a: string, b: string, c: string, d: string)
    ensures p - {a} - {b} - {c} - {d} == p - {a, b, c, d}
  {
  }

  method DecodeRocketMQDelivery(r: Rules, w: Wire, injected: map<string, string>) returns (ok: bool, m: Message)
    ensures ok <==> Decodes(r, w)
    ensures ok ==> FromWire(w) == Some(m)
  {
    var properties := w.properties;
    m := Message(Property(w, EVENT_ID), Property(w, ORGANIZATION_ID), w.topic, "", Property(w, EVENT_TYPE),
                 w.body, properties, w.tag, w.group, w.delay);
    var keyEncoding := Property(w, KEY_ENCODING);
    RemoveReserved(properties, EVENT_ID, EVENT_TYPE, ORGANIZATION_ID, KEY_ENCODING);
    m := m.(headers := m.headers - {EVENT_ID} - {EVENT_TYPE} - {ORGANIZATION_ID} - {KEY_ENCODING});
    if |w.keys| > 1 {
      if keyEncoding == "base64url" {
        var decoded := Base64Url.Decode(w.keys[1]);
        if decoded.None? {
          return false, m;
        }
        m := m.(key := decoded.value);
      } else {
        m := m.(key := w.keys[1]);
      }
    }
    var out, headers;
    ok, out, headers := PrepareMessage(r, m, injected);
  }

  // ------------------------------------------------------------------ the round trip

  lemma {:induction false} NormalisedIsSmaller(r: Rules, raw: map<string, string>, n: map<string, string>)
    requires forall x :: x in n ==> Source(r, raw, x, n[x]) && r.name(x) == x
    ensures |n| <= |raw| && HeaderBytes(r, n) <= HeaderBytes(r, raw)
    decreases |n|
  {
    if n != map[] {
      var x :| x in n;
      var k :| k in raw && r.name(k) == x && raw[k] == n[x];
      SmallerMap(n, x);
      SmallerMap(raw, k);
      HeaderBytesSplit(r, n, x);
      HeaderBytesSplit(r, raw, k);
      forall y | y in n - {x} ensures Source(r, raw - {k}, y, (n - {x})[y]) {
        assert Source(r, raw, y, n[y]);
        var j :| j in raw && r.name(j) == y && raw[j] == n[y];
        assert j in raw - {k};
      }
      NormalisedIsSmaller(r, raw - {k}, n - {x});
    }
  }

  lemma AcceptableWith(r: Rules, m: Message, h: map<string, string>)
    requires Lawful(r) && FieldsFit(Trimmed(r, m))
    ensures Acceptable(r, Trimmed(r, m).(headers := h)) <==>
            AllFit(r, h) && |h| <= MAX_HEADERS && HeaderBytes(r, h) <= MAX_HEADER_BYTES
  {
  }

  /** A normalised header map of an acceptable message is acceptable as it stands. */
  lemma NormalisedIsAcceptable(r: Rules, m: Message, n: map<string, string>)
    requires Lawful(r) && Acceptable(r, m) && Normalises(r, m.headers, n)
    ensures Acceptable(r, Trimmed(r, m).(headers := n))
    ensures RESERVED !! n.Keys
  {
    forall x | x in n ensures r.name(x) == x && r.fits(x, n[x]) && x !in RESERVED {
      assert Source(r, m.headers, x, n[x]);
      var k :| k in m.headers && r.name(k) == x && m.headers[k] == n[x];
      assert r.fits(k, m.headers[k]);
    }
    NormalisedIsSmaller(r, m.headers, n);
    AcceptableWith(r, m, n);
  }

  lemma ReservedProperties(n: map<string, string>, t: Message, injected: map<string, string>)
    requires RESERVED !! n.Keys && RESERVED !! injected.Keys
    ensures var h := WithTrace(WithReserved(n, t), injected);
            && h - RESERVED == (if HasTrace(n) then n else n + injected)
            && EVENT_ID in h && h[EVENT_ID] == t.id && EVENT_TYPE in h && h[EVENT_TYPE] == t.kind
            && (ORGANIZATION_ID in h <==> t.org != "") && (t.org != "" ==> h[ORGANIZATION_ID] == t.org)
            && KEY_ENCODING !in h
  {
  }

  /** Decoding undoes encoding, field by field, for every accepted message: text keys, empty keys and
  keys that are not UTF-8. The headers come back normalised, with the injected trace headers if the
  message had none. */
  lemma DecodeUndoesEncode(r: Rules, m: Message, n: map<string, string>, injected: map<string, string>)
    requires Lawful(r) && Base64Url.IsBytes(m.key) && RESERVED !! injected.Keys
    requires Acceptable(r, m) && Normalises(r, m.headers, n)
    ensures FromWire(ToWire(r, Trimmed(r, m), n, injected)) == Some(
             Message(r.trim(m.id), r.trim(m.org), r.trim(m.topic), m.key, r.trim(m.kind), m.body, if "traceparent" in n && n["traceparent"] != "" then n else n + injected,
                     r.trim(m.tag), r.trim(m.orderingKey), m.deliverAt))
  {
    NormalisedIsAcceptable(r, m, n);
    WireCarries(r, Trimmed(r, m), n, injected);
  }

  lemma WireCarries(r: Rules, t: Message, n: map<string, string>, injected: map<string, string>)
    requires Base64Url.IsBytes(t.key) && RESERVED !! n.Keys && RESERVED !! injected.Keys
    ensures FromWire(ToWire(r, t, n, injected)) ==
            Some(t.(headers := if HasTrace(n) then n else n + injected))
  {
    ReservedProperties(n, t, injected);
    Base64Url.RoundTrip(t.key);
    var w := ToWire(r, t, n, injected);
    var h := WithTrace(WithReserved(n, t), injected);
    assert KEY_ENCODING != EVENT_ID && KEY_ENCODING != EVENT_TYPE && KEY_ENCODING != ORGANIZATION_ID by {
      assert |EVENT_ID| == 16 && |EVENT_TYPE| == 18 && |ORGANIZATION_ID| == 23 && |KEY_ENCODING| == 20;
    }
    assert w.properties - RESERVED == h - RESERVED;
  }

  /** A message that carries its trace header survives the broker; decoding never fails. */
  lemma BrokerRoundTrip(r: Rules, m: Message, n: map<string, string>, injected: map<string, string>)
    requires Lawful(r) && Base64Url.IsBytes(m.key) && RESERVED !! injected.Keys
    requires Acceptable(r, m) && Normalises(r, m.headers, n) && "traceparent" in n && n["traceparent"] != ""
    ensures Decodes(r, ToWire(r, Trimmed(r, m), n, injected))
    ensures FromWire(ToWire(r, Trimmed(r, m), n, injected)) == Some(
             Message(r.trim(m.id), r.trim(m.org), r.trim(m.topic), m.key, r.trim(m.kind), m.body, n,
                     r.trim(m.tag), r.trim(m.orderingKey), m.deliverAt))
  {
    DecodeUndoesEncode(r, m, n, injected);
    NormalisedIsAcceptable(r, m, n);
  }

  /** Without one, it survives exactly when the injected headers keep it within the limits. */
  lemma UntracedRoundTrip(r: Rules, m: Message, n: map<string, string>, injected: map<string, string>)
    requires Lawful(r) && Base64Url.IsBytes(m.key) && RESERVED !! injected.Keys && AllFit(r, injected)
    requires Acceptable(r, m) && Normalises(r, m.headers, n) && !("traceparent" in n && n["traceparent"] != "")
    ensures Decodes(r, ToWire(r, Trimmed(r, m), n, injected)) <==>
            |n + injected| <= MAX_HEADERS && HeaderBytes(r, n + injected) <= MAX_HEADER_BYTES
  {
    DecodeUndoesEncode(r, m, n, injected);
    NormalisedIsAcceptable(r, m, n);
    AcceptableWith(r, m, n);
    AcceptableWith(r, m, n + injected);
    assert AllFit(r, n + injected);
  }

  /** With distinct normalised names there is only one normalisation, and it keeps every header. */
  lemma DistinctNamesNormaliseOneWay(r: Rules, raw: map<string, string>, n: map<string, string>, k: string)
    requires Normalises(r, raw, n) && k in raw
    requires forall i, j :: i in raw && j in raw && r.name(i) == r.name(j) ==> i == j
    ensures r.name(k) in n && n[r.name(k)] == raw[k]
  {
  }

  // ------------------------------------------------------------------ the consumer's hash

  function HashedFields(m: Message): seq<string> {
    [m.org, m.topic, m.kind, m.key, m.orderingKey, m.tag, m.body]
  }

  function MessageHash(sha: string -> string, m: Message): string {
    sha(SizedParts(HashedFields(m)))
  }

  /** The hash pins the seven fields it covers, unless the two hashed texts collide. */
  lemma MessageHashPins(sha: string -> string, a: Message, b: Message)
    requires forall v :: v in HashedFields(a) + HashedFields(b) ==> Addressable(v)
    requires MessageHash(sha, a) == MessageHash(sha, b)
    ensures a == b.(id := a.id, headers := a.headers, deliverAt := a.deliverAt)
            || SizedParts(HashedFields(a)) != SizedParts(HashedFields(b))
  {
    var x, y := HashedFields(a), HashedFields(b);
    if SizedParts(x) == SizedParts(y) {
      SizedPartsInjective(x, y);
      assert x[0] == y[0] && x[1] == y[1] && x[2] == y[2] && x[3] == y[3] && x[4] == y[4] && x[5] == y[5] && x[6] == y[6];
    }
  }

  /** Every delivery of a message, however often it is sent, has the id and hash of the trimmed one. */
  lemma HashStableAcrossDelivery(r: Rules, sha: string -> string, m: Message, n: map<string, string>,
                                 injected: map<string, string>)
    requires Lawful(r) && Base64Url.IsBytes(m.key) && RESERVED !! injected.Keys
    requires Acceptable(r, m) && Normalises(r, m.headers, n)
    ensures var d := FromWire(ToWire(r, Trimmed(r, m), n, injected));
            d.Some? && MessageHash(sha, d.value) == MessageHash(sha, Trimmed(r, m)) && d.value.id == r.trim(m.id)
  {
    DecodeUndoesEncode(r, m, n, injected);
  }
}
