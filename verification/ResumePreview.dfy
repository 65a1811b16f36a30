/**
 The resume preview service: a byte-bounded, first-in-first-out cache in front of a slow renderer,
 with one conversion in flight per key and at most four in all.

 Every callback of the service runs to completion, so a run is a list of events: a call, the
 renderer's answer, the `then` callback, the `finally` callback, and the delivery of a promise to
 one of its callers. The methods of `ResumePreviewService` are those callbacks; `Next` composes
 their specifications into a transition system, and `RunIsSafe` holds for every list of events.
 */
module ResumePreview {
  import opened Prelude

  const MEBIBYTE := 1024 * 1024
  const CACHE_LIMIT := 32 * MEBIBYTE
  const FILE_LIMIT := 10 * MEBIBYTE
  const PENDING_LIMIT := 4
  const LIFETIME := 5 * 60 * 1000
  const PNG := [137, 80, 78, 71, 13, 10, 26, 10]

  /** Tenant, content hash and page; the hash is opaque here. */
  datatype Key = Key(tenant: string, digest: string, page: int)

  datatype Value = Image(data: seq<byte>) | Pages(count: nat)

  datatype Entry = Entry(key: Key, value: Value, bytes: nat, expires: int)

  type OpId = nat

  function SizeOf(v: Value): nat {
    if v.Image? then |v.data| else 64
  }

  // ---- The renderer's answer ----

  /** What the renderer may send back; `Json` carries the `pages` field if it is an integer. */
  datatype Response =
    | Unreachable
    | HttpError
    | Body(contentTypeIsPng: bool, data: seq<byte>)
    | Json(pages: Option<int>)

  /** The checks of `convert`: a page asks for an image, page 0 asks for the page count. */
  function Convert(page: int, response: Response): (r: Option<Value>)
    ensures r.Some? ==> SizeOf(r.value) <= FILE_LIMIT
    ensures r.Some? ==> (r.value.Image? <==> page != 0)
    ensures r.Some? && r.value.Pages? ==> 1 <= r.value.count <= 30
    ensures r.Some? && r.value.Image? ==> PNG <= r.value.data
  {
    if page != 0 then
      match response
      case Body(true, data) =>
        if |data| > FILE_LIMIT || |data| < 8 || data[..8] != PNG then None else Some(Image(data))
      case _ => None
    else
      match response
      case Json(Some(n)) => if 1 <= n <= 30 then Some(Pages(n)) else None
      case _ => None
  }

  /** The response holds this value for a page: the number it names, or the bytes of the image it sends. */
  predicate Carries(response: Response, page: int, value: Value) {
    match value
    case Pages(n) => page == 0 && response == Json(Some(n)) && 1 <= n <= 30
    case Image(data) =>
      page != 0 && response == Body(true, data) && 8 <= |data| <= 10_485_760
      && data[..8] == [137, 80, 78, 71, 13, 10, 26, 10]
  }

  /** The answer is taken exactly when it carries a value, and then it is that value. */
  lemma ConvertExactly(page: int, response: Response, value: Value)
    ensures Convert(page, response) == Some(value) <==> Carries(response, page, value)
  {
    if Convert(page, response).Some? {
      assert response.Body? || response.Json?;
    }
  }

  // ---- The cache as a value: entries oldest first, as a JavaScript Map keeps them ----

  function Total(cache: seq<Entry>): nat {
    if cache == [] then 0 else cache[0].bytes + Total(cache[1..])
  }

  predicate Distinct(cache: seq<Entry>) {
    forall i, j :: 0 <= i < j < |cache| ==> cache[i].key != cache[j].key
  }

  predicate Has(cache: seq<Entry>, key: Key) {
    exists i :: 0 <= i < |cache| && cache[i].key == key
  }

  function Unexpired(cache: seq<Entry>, now: int): seq<Entry> {
    if cache == [] then []
    else (if cache[0].expires < now then [] else [cache[0]]) + Unexpired(cache[1..], now)
  }

  /** The sweep keeps exactly the entries that have not expired. */
  lemma {:induction false} UnexpiredMembers(cache: seq<Entry>, now: int)
    ensures forall e :: e in Unexpired(cache, now) <==> e in cache && e.expires >= now
  {
    if cache != [] {
      UnexpiredMembers(cache[1..], now);
      assert cache == [cache[0]] + cache[1..];
    }
  }

  function Lookup(cache: seq<Entry>, key: Key): (r: Option<Entry>)
    ensures r.Some? <==> Has(cache, key)
    ensures r.Some? ==> r.value in cache && r.value.key == key
  {
    if cache == [] then None
    else if cache[0].key == key then Some(cache[0])
    else
      var r := Lookup(cache[1..], key);
      assert Has(cache, key) <==> Has(cache[1..], key) by {
        if Has(cache, key) {
          var i :| 0 <= i < |cache| && cache[i].key == key;
          assert cache[1..][i - 1].key == key;
        }
        if Has(cache[1..], key) {
          var i :| 0 <= i < |cache[1..]| && cache[1..][i].key == key;
          assert cache[i + 1].key == key;
        }
      }
      r
  }

  /** How many of the oldest entries have to go before `incoming` more bytes fit. */
  function Victims(cache: seq<Entry>, incoming: nat): (n: nat)
    ensures n <= |cache|
  {
    if Total(cache) + incoming > CACHE_LIMIT && cache != [] then 1 + Victims(cache[1..], incoming) else 0
  }

  /** The eviction loop removes the shortest oldest-first prefix that makes room. */
  lemma {:induction false} VictimsAreMinimal(cache: seq<Entry>, incoming: nat)
    ensures var n := Victims(cache, incoming);
            (Total(cache[n..]) + incoming <= 33_554_432 || n == |cache|) &&
            forall m :: 0 <= m < n ==> Total(cache[m..]) + incoming > 33_554_432
  {
    var n := Victims(cache, incoming);
    assert cache[0..] == cache;
    if n > 0 {
      VictimsAreMinimal(cache[1..], incoming);
      assert cache[n..] == cache[1..][n - 1..];
      forall m | 0 <= m < n
        ensures Total(cache[m..]) + incoming > 33_554_432
      {
        if m > 0 {
          assert cache[m..] == cache[1..][m - 1..];
        }
      }
    }
  }

  lemma {:induction false} TotalConcat(a: seq<Entry>, b: seq<Entry>)
    ensures Total(a + b) == Total(a) + Total(b)
  {
    if a == [] {
      assert a + b == b;
    } else {
      assert (a + b)[1..] == a[1..] + b;
      TotalConcat(a[1..], b);
    }
  }

  /** The sweep keeps the order of the entries. */
  lemma {:induction false} UnexpiredKeepsOrder(a: seq<Entry>, b: seq<Entry>, now: int)
    ensures Unexpired(a + b, now) == Unexpired(a, now) + Unexpired(b, now)
  {
    if a == [] {
      assert a + b == b;
    } else {
      assert (a + b)[1..] == a[1..] + b;
      UnexpiredKeepsOrder(a[1..], b, now);
    }
  }

  lemma {:induction false} UnexpiredIsOrdered(cache: seq<Entry>, now: int)
    requires Distinct(cache)
    ensures Distinct(Unexpired(cache, now))
    ensures Total(Unexpired(cache, now)) <= Total(cache)
  {
    if cache != [] {
      var rest := cache[1..];
      SuffixFacts(cache, 1);
      UnexpiredIsOrdered(rest, now);
      UnexpiredMembers(rest, now);
      var kept := Unexpired(rest, now);
      forall e | e in kept
        ensures e.key != cache[0].key
      {
        var i :| 0 <= i < |rest| && rest[i] == e;
        assert cache[i + 1] == e;
      }
      if cache[0].expires >= now {
        assert Unexpired(cache, now) == [cache[0]] + kept;
        assert Unexpired(cache, now)[1..] == kept;
      } else {
        assert Unexpired(cache, now) == kept;
      }
    }
  }

  lemma SuffixFacts(cache: seq<Entry>, n: nat)
    requires n <= |cache| && Distinct(cache)
    ensures Distinct(cache[n..])
    ensures forall e :: e in cache[n..] ==> e in cache
  {
    var tail := cache[n..];
    forall i, j | 0 <= i < j < |tail|
      ensures tail[i].key != tail[j].key
    {
      assert cache[n + i].key != cache[n + j].key;
    }
  }

  lemma Regroup<T>(front: seq<T>, x: T, back: seq<T>)
    ensures front + ([x] + back) == front + [x] + back
    ensures [] + back == back
  {
  }

  /** One turn of the sweep, at the first entry not yet looked at: what is kept, and what it weighs. */
  lemma {:induction false} SweepOne(kept: seq<Entry>, rest: seq<Entry>, now: int)
    requires rest != []
    ensures rest[0].expires < now ==> Unexpired(rest, now) == Unexpired(rest[1..], now)
    ensures rest[0].expires >= now ==> kept + Unexpired(rest, now) == kept + [rest[0]] + Unexpired(rest[1..], now)
  {
    var later := Unexpired(rest[1..], now);
    Regroup(kept, rest[0], later);
    if rest[0].expires < now {
      assert Unexpired(rest, now) == [] + later;
    } else {
      assert Unexpired(rest, now) == [rest[0]] + later;
    }
  }

  lemma {:induction false} WeighOne(kept: seq<Entry>, rest: seq<Entry>)
    requires rest != []
    ensures Total(rest) == rest[0].bytes + Total(rest[1..])
    ensures Total(kept + [rest[0]]) == Total(kept) + rest[0].bytes
  {
    TotalConcat(kept, [rest[0]]);
    assert Total([rest[0]]) == rest[0].bytes;
  }

  lemma {:induction false} SweepDone(now: int)
    ensures Unexpired([], now) == [] && Total([]) == 0
  {
  }

  // ---- The service ----

  datatype Outcome = Invalid | Hit(value: Value) | Join(op: OpId) | Busy | Start(op: OpId)

  /** The three fields of the service. */
  datatype Fields = Fields(cache: seq<Entry>, pending: map<Key, OpId>, bytes: int)

  /** A call with a valid page and file: sweep, then hit, join, refuse or start. */
  function RenderOutcome(f: Fields, key: Key, now: int, op: OpId): Outcome {
    var hit := Lookup(Unexpired(f.cache, now), key);
    if hit.Some? then Hit(hit.value.value)
    else if key in f.pending then Join(f.pending[key])
    else if |f.pending| >= PENDING_LIMIT then Busy
    else Start(op)
  }

  function RenderFields(f: Fields, key: Key, now: int, op: OpId): Fields {
    var cache := Unexpired(f.cache, now);
    Fields(cache,
      if RenderOutcome(f, key, now, op).Start? then f.pending[key := op] else f.pending,
      f.bytes - (Total(f.cache) - Total(cache)))
  }

  /** A Map keeps the place of a key it already holds. */
  function MapSet(cache: seq<Entry>, e: Entry): seq<Entry> {
    if cache == [] then [e]
    else if cache[0].key == e.key then [e] + cache[1..]
    else [cache[0]] + MapSet(cache[1..], e)
  }

  /** The `then` callback, for a service whose `bytes` is the size of its cache. */
  function StoreFields(f: Fields, key: Key, value: Value, now: int): Fields {
    var size := SizeOf(value);
    var kept := f.cache[Victims(f.cache, size)..];
    Fields(MapSet(kept, Entry(key, value, size, now + LIFETIME)), f.pending, Total(kept) + size)
  }

  /** What the `finally` callback leaves pending. */
  function Released(pending: map<Key, OpId>, key: Key): map<Key, OpId> {
    pending - {key}
  }

  class ResumePreviewService {
    var cache: seq<Entry>
    var pending: map<Key, OpId>
    var bytes: int

    constructor ()
      ensures State() == Fields([], map[], 0)
    {
      cache, pending, bytes := [], map[], 0;
    }

    ghost function State(): Fields
      reads this
    {
      Fields(cache, pending, bytes)
    }

    /** Drops every entry past its expiry, walking the Map while deleting from it. */
    method Sweep(now: int)
      modifies `cache, `bytes
      ensures cache == Unexpired(old(cache), now)
      ensures bytes == old(bytes) - (Total(old(cache)) - Total(cache))
    {
      var i := 0;
      ghost var was, kept, rest := cache, [], cache;
      assert Total(kept) == 0;
      hide Unexpired, Total;
      while i < |cache|
        invariant i == |kept| && cache == kept + rest
        invariant Unexpired(was, now) == kept + Unexpired(rest, now)
        invariant bytes == old(bytes) - (Total(was) - Total(kept) - Total(rest))
        decreases |cache| - i
      {
        var item := cache[i];
        assert item == rest[0];
        SweepOne(kept, rest, now);
        WeighOne(kept, rest);
        Regroup(kept, item, rest[1..]);
        assert rest == [item] + rest[1..];
        if item.expires < now {
          cache := cache[..i] + cache[i + 1..];
          bytes := bytes - item.bytes;
          assert cache == kept + rest[1..];
        } else {
          i := i + 1;
          kept := kept + [item];
        }
        rest := rest[1..];
      }
      assert rest == [] && Unexpired(rest, now) == [] && Total(rest) == 0 by {
        SweepDone(now);
      }
      assert cache == kept;
    }

    /** One call: synchronous up to the promise it returns. */
    method Render(key: Key, dataLength: nat, now: int, op: OpId) returns (outcome: Outcome)
      modifies `cache, `pending, `bytes
      ensures outcome.Invalid? <==> key.page < 0 || key.page > 30 || dataLength > 10_485_760
      ensures outcome.Invalid? ==> State() == old(State())
      ensures !outcome.Invalid? ==> outcome == RenderOutcome(old(State()), key, now, op)
      ensures !outcome.Invalid? ==> State() == RenderFields(old(State()), key, now, op)
    {
      if key.page < 0 || key.page > 30 || dataLength > FILE_LIMIT {
        return Invalid;
      }
      Sweep(now);
      var cached := Lookup(cache, key);
      if cached.Some? {
        return Hit(cached.value.value);
      }
      if key in pending {
        return Join(pending[key]);
      }
      if |pending| >= PENDING_LIMIT {
        return Busy;
      }
      pending := pending[key := op];
      return Start(op);
    }

    /** The `then` callback: evict from the oldest end until the value fits, then store it. */
    method Store(key: Key, value: Value, now: int)
      requires bytes == Total(cache)
      modifies `cache, `bytes
      ensures State() == StoreFields(old(State()), key, value, now)
    {
      var size := SizeOf(value);
      ghost var was, n := cache, 0;
      assert was[0..] == was;
      while bytes + size > CACHE_LIMIT && cache != []
        invariant n <= |was| && cache == was[n..]
        invariant n + Victims(cache, size) == Victims(was, size)
        invariant bytes == Total(cache)
        decreases |cache|
      {
        var oldest := cache[0];
        bytes := bytes - oldest.bytes;
        cache := cache[1..];
        n := n + 1;
      }
      cache := MapSet(cache, Entry(key, value, size, now + LIFETIME));
      bytes := bytes + size;
    }

    /** The `finally` callback. */
    method Release(key: Key)
      modifies `pending
      ensures pending == Released(old(pending), key)
    {
      pending := pending - {key};
    }
  }

  // ---- Runs of the service ----

  /** One conversion, from its start to the settling of the promise that callers hold. */
  datatype Phase =
    | Converting
    | Converted(value: Value)
    | Failed
    | Stored(value: Value)
    | Settled(result: Option<Value>)

  datatype Op = Op(key: Key, phase: Phase)

  /** A caller waiting for an operation, remembered with the key it asked for. */
  datatype Waiter = Waiter(key: Key, op: OpId)

  datatype Delivery = Delivery(key: Key, value: Value)

  datatype State = State(fields: Fields, ops: seq<Op>, waiters: seq<Waiter>, delivered: seq<Delivery>)

  datatype Event =
    | Call(key: Key, dataLength: nat, now: int)
    | Answer(op: OpId, response: Response)
    | Then(op: OpId, now: int)
    | Finally(op: OpId)
    | Deliver(waiter: nat)

  const INITIAL := State(Fields([], map[], 0), [], [], [])

  /** What one event does; an event that cannot happen in a state leaves it alone. */
  function Next(s: State, e: Event): State {
    match e
    case Call(key, dataLength, now) =>
      if key.page < 0 || key.page > 30 || dataLength > FILE_LIMIT then s
      else
        var op := |s.ops|;
        var s' := s.(fields := RenderFields(s.fields, key, now, op));
        (match RenderOutcome(s.fields, key, now, op)
         case Hit(value) => s'.(delivered := s.delivered + [Delivery(key, value)])
         case Join(active) => s'.(waiters := s.waiters + [Waiter(key, active)])
         case Start(_) => s'.(ops := s.ops + [Op(key, Converting)], waiters := s.waiters + [Waiter(key, op)])
         case _ => s')
    case Answer(op, response) =>
      if op < |s.ops| && s.ops[op].phase.Converting? then
        var phase := match Convert(s.ops[op].key.page, response)
          case Some(value) => Converted(value)
          case None => Failed;
        s.(ops := s.ops[op := s.ops[op].(phase := phase)])
      else s
    case Then(op, now) =>
      if op < |s.ops| && s.ops[op].phase.Converted? then
        var value := s.ops[op].phase.value;
        s.(fields := StoreFields(s.fields, s.ops[op].key, value, now),
           ops := s.ops[op := s.ops[op].(phase := Stored(value))])
      else s
    case Finally(op) =>
      if op < |s.ops| && (s.ops[op].phase.Stored? || s.ops[op].phase.Failed?) then
        var result := if s.ops[op].phase.Stored? then Some(s.ops[op].phase.value) else None;
        s.(fields := s.fields.(pending := Released(s.fields.pending, s.ops[op].key)),
           ops := s.ops[op := s.ops[op].(phase := Settled(result))])
      else s
    case Deliver(w) =>
      if w < |s.waiters| && s.waiters[w].op < |s.ops| && s.ops[s.waiters[w].op].phase.Settled? then
        match s.ops[s.waiters[w].op].phase.result
        case Some(value) => s.(delivered := s.delivered + [Delivery(s.waiters[w].key, value)])
        case None => s
      else s
  }

  function Run(events: seq<Event>): State {
    if events == [] then INITIAL else Next(Run(events[..|events| - 1]), events[|events| - 1])
  }

  // ---- What every run keeps ----

  predicate InFlight(op: Op) {
    !op.phase.Settled?
  }

  /** The value an operation produced, once it has one. */
  function Produced(op: Op): Option<Value> {
    match op.phase
    case Converted(v) => Some(v)
    case Stored(v) => Some(v)
    case Settled(r) => r
    case _ => None
  }

  /** The value came from a conversion that was started for this key. */
  predicate FromConversion(ops: seq<Op>, key: Key, value: Value) {
    exists o :: 0 <= o < |ops| && ops[o].key == key && Produced(ops[o]) == Some(value)
  }

  predicate CacheOk(f: Fields) {
    && Distinct(f.cache)
    && f.bytes == Total(f.cache) <= CACHE_LIMIT
    && forall e :: e in f.cache ==> e.bytes == SizeOf(e.value)
  }

  /** `pending` holds exactly the keys in flight, each with its one operation. */
  predicate PendingOk(pending: map<Key, OpId>, ops: seq<Op>) {
    && |pending| <= PENDING_LIMIT
    && (forall k :: k in pending ==> pending[k] < |ops| && ops[pending[k]].key == k && InFlight(ops[pending[k]]))
    && (forall o :: 0 <= o < |ops| && InFlight(ops[o]) ==> ops[o].key in pending && pending[ops[o].key] == o)
  }

  predicate Unstored(op: Op) {
    InFlight(op) && !op.phase.Stored?
  }

  /** A key whose conversion has not been stored yet is not in the cache. */
  predicate NotYetCached(cache: seq<Entry>, ops: seq<Op>) {
    forall o :: 0 <= o < |ops| && Unstored(ops[o]) ==> !Has(cache, ops[o].key)
  }

  predicate CacheGenuine(cache: seq<Entry>, ops: seq<Op>) {
    forall e :: e in cache ==> FromConversion(ops, e.key, e.value)
  }

  predicate DeliveriesGenuine(delivered: seq<Delivery>, ops: seq<Op>) {
    forall d :: d in delivered ==> FromConversion(ops, d.key, d.value)
  }

  predicate WaitersOk(waiters: seq<Waiter>, ops: seq<Op>) {
    forall w :: w in waiters ==> w.op < |ops| && ops[w.op].key == w.key
  }

  predicate SizesOk(ops: seq<Op>) {
    forall o :: 0 <= o < |ops| && Produced(ops[o]).Some? ==> SizeOf(Produced(ops[o]).value) <= FILE_LIMIT
  }

  predicate Safe(s: State) {
    && CacheOk(s.fields)
    && PendingOk(s.fields.pending, s.ops)
    && NotYetCached(s.fields.cache, s.ops)
    && CacheGenuine(s.fields.cache, s.ops)
    && DeliveriesGenuine(s.delivered, s.ops)
    && WaitersOk(s.waiters, s.ops)
    && SizesOk(s.ops)
  }

  // ---- Small facts about the cache ----

  lemma InCache(cache: seq<Entry>, e: Entry)
    requires e in cache
    ensures Has(cache, e.key)
  {
    var i :| 0 <= i < |cache| && cache[i] == e;
    assert cache[i].key == e.key;
  }

  lemma SuffixLacks(cache: seq<Entry>, n: nat, key: Key)
    requires n <= |cache| && !Has(cache, key)
    ensures !Has(cache[n..], key)
  {
    forall i | 0 <= i < |cache[n..]|
      ensures cache[n..][i].key != key
    {
      assert cache[n + i].key != key;
    }
  }

  lemma {:induction false} SetNewKey(cache: seq<Entry>, e: Entry)
    requires !Has(cache, e.key)
    ensures MapSet(cache, e) == cache + [e]
  {
    if cache != [] {
      assert cache[0].key != e.key;
      SuffixLacks(cache, 1, e.key);
      SetNewKey(cache[1..], e);
      assert [cache[0]] + (cache[1..] + [e]) == cache + [e];
    }
  }

  /** The cache after `then`: a key that was absent ends up newest, and the limit still holds. */
  lemma StoreKeepsCache(f: Fields, key: Key, value: Value, now: int)
    requires CacheOk(f) && !Has(f.cache, key) && SizeOf(value) <= FILE_LIMIT
    ensures CacheOk(StoreFields(f, key, value, now))
    ensures StoreFields(f, key, value, now).cache
         == f.cache[Victims(f.cache, SizeOf(value))..] + [Entry(key, value, SizeOf(value), now + LIFETIME)]
  {
    var size := SizeOf(value);
    var n := Victims(f.cache, size);
    var kept, e := f.cache[n..], Entry(key, value, size, now + LIFETIME);
    VictimsAreMinimal(f.cache, size);
    SuffixFacts(f.cache, n);
    SuffixLacks(f.cache, n, key);
    SetNewKey(kept, e);
    TotalConcat(kept, [e]);
    assert Total([e]) == size;
    assert Total(kept) + size <= CACHE_LIMIT by {
      if n == |f.cache| {
        assert kept == [];
      }
    }
  }

  /** Sweeping keeps the accounting. */
  lemma SweepKeepsCache(f: Fields, key: Key, now: int, op: OpId)
    requires CacheOk(f)
    ensures CacheOk(RenderFields(f, key, now, op))
  {
    UnexpiredIsOrdered(f.cache, now);
    UnexpiredMembers(f.cache, now);
  }

  lemma {:induction false} UnexpiredHas(cache: seq<Entry>, now: int)
    ensures forall k :: Has(Unexpired(cache, now), k) ==> Has(cache, k)
  {
    UnexpiredMembers(cache, now);
    var swept := Unexpired(cache, now);
    forall k | Has(swept, k)
      ensures Has(cache, k)
    {
      var i :| 0 <= i < |swept| && swept[i].key == k;
      InCache(cache, swept[i]);
    }
  }

  // ---- Every event keeps the service safe ----

  /** No operation is dropped, moved to another key, or made to forget what it produced. */
  predicate Remembers(before: seq<Op>, after: seq<Op>) {
    && |before| <= |after|
    && forall o :: 0 <= o < |before| ==>
         after[o].key == before[o].key && (Produced(before[o]).Some? ==> Produced(after[o]) == Produced(before[o]))
  }

  lemma StillFromConversion(before: seq<Op>, after: seq<Op>, key: Key, value: Value)
    requires Remembers(before, after) && FromConversion(before, key, value)
    ensures FromConversion(after, key, value)
  {
    var o :| 0 <= o < |before| && before[o].key == key && Produced(before[o]) == Some(value);
    assert after[o].key == key && Produced(after[o]) == Some(value);
  }

  lemma GenuineStays(s: State, ops: seq<Op>)
    requires Remembers(s.ops, ops)
    requires CacheGenuine(s.fields.cache, s.ops) && DeliveriesGenuine(s.delivered, s.ops) && WaitersOk(s.waiters, s.ops)
    ensures CacheGenuine(s.fields.cache, ops) && DeliveriesGenuine(s.delivered, ops) && WaitersOk(s.waiters, ops)
  {
    forall e | e in s.fields.cache
      ensures FromConversion(ops, e.key, e.value)
    {
      StillFromConversion(s.ops, ops, e.key, e.value);
    }
    forall d | d in s.delivered
      ensures FromConversion(ops, d.key, d.value)
    {
      StillFromConversion(s.ops, ops, d.key, d.value);
    }
  }

  function SetPhase(ops: seq<Op>, op: OpId, phase: Phase): seq<Op>
    requires op < |ops|
  {
    ops[op := ops[op].(phase := phase)]
  }

  /** Moving an operation on without settling it. */
  lemma PhaseMoves(s: State, op: OpId, phase: Phase)
    requires Safe(s) && op < |s.ops| && InFlight(s.ops[op])
    requires Produced(s.ops[op]).Some? ==> Produced(Op(s.ops[op].key, phase)) == Produced(s.ops[op])
    requires Produced(Op(s.ops[op].key, phase)).Some? ==> SizeOf(Produced(Op(s.ops[op].key, phase)).value) <= FILE_LIMIT
    ensures Remembers(s.ops, SetPhase(s.ops, op, phase))
    ensures SizesOk(SetPhase(s.ops, op, phase))
    ensures !phase.Settled? ==> PendingOk(s.fields.pending, SetPhase(s.ops, op, phase))
  {
    hide CacheOk, NotYetCached, CacheGenuine, DeliveriesGenuine, WaitersOk;
  }

  lemma PendingGains(pending: map<Key, OpId>, ops: seq<Op>, key: Key)
    requires PendingOk(pending, ops) && key !in pending && |pending| < PENDING_LIMIT
    ensures PendingOk(pending[key := |ops|], ops + [Op(key, Converting)])
  {
    OneMoreKey(pending, key, |ops|);
    var pending', ops' := pending[key := |ops|], ops + [Op(key, Converting)];
    forall o | 0 <= o < |ops'| && InFlight(ops'[o])
      ensures ops'[o].key in pending' && pending'[ops'[o].key] == o
    {
      if o < |ops| {
        assert ops'[o] == ops[o];
      }
    }
  }

  lemma OneMoreKey(pending: map<Key, OpId>, key: Key, op: OpId)
    requires key !in pending
    ensures |pending[key := op]| == |pending| + 1
  {
    assert pending[key := op].Keys == pending.Keys + {key};
  }

  lemma PendingLoses(pending: map<Key, OpId>, ops: seq<Op>, op: OpId, result: Option<Value>)
    requires PendingOk(pending, ops) && op < |ops| && InFlight(ops[op])
    ensures PendingOk(Released(pending, ops[op].key), SetPhase(ops, op, Settled(result)))
    ensures pending.Keys == Released(pending, ops[op].key).Keys + {ops[op].key}
    ensures |Released(pending, ops[op].key)| == |pending| - 1
  {
    var key := ops[op].key;
    var pending', ops' := pending - {key}, SetPhase(ops, op, Settled(result));
    assert pending[key] == op;
    assert pending'.Keys == pending.Keys - {key};
    assert pending.Keys == pending'.Keys + {key};
    assert |pending'.Keys| == |pending.Keys| - 1;
    forall o | 0 <= o < |ops'| && InFlight(ops'[o])
      ensures ops'[o].key in pending' && pending'[ops'[o].key] == o
    {
      assert ops'[o] == ops[o];
    }
  }

  lemma {:induction false} SweptIsSafe(s: State, key: Key, now: int, op: OpId)
    requires Safe(s)
    ensures var cache := Unexpired(s.fields.cache, now);
      NotYetCached(cache, s.ops) && CacheGenuine(cache, s.ops)
  {
    hide CacheOk, PendingOk, DeliveriesGenuine, WaitersOk, SizesOk, Has;
    UnexpiredMembers(s.fields.cache, now);
    UnexpiredHas(s.fields.cache, now);
  }

  /** The parts of safety that a new operation touches. */
  lemma NewOperation(cache: seq<Entry>, ops: seq<Op>, waiters: seq<Waiter>, key: Key)
    requires NotYetCached(cache, ops) && WaitersOk(waiters, ops) && SizesOk(ops) && !Has(cache, key)
    ensures var ops' := ops + [Op(key, Converting)];
      NotYetCached(cache, ops') && WaitersOk(waiters + [Waiter(key, |ops|)], ops') && SizesOk(ops')
        && Remembers(ops, ops')
  {
    hide Has;
  }

  lemma StartIsSafe(s: State, key: Key, now: int)
    requires Safe(s) && RenderOutcome(s.fields, key, now, |s.ops|).Start?
    ensures var f := RenderFields(s.fields, key, now, |s.ops|);
      Safe(State(f, s.ops + [Op(key, Converting)], s.waiters + [Waiter(key, |s.ops|)], s.delivered))
  {
    hide CacheOk, PendingOk, NotYetCached, CacheGenuine, DeliveriesGenuine, WaitersOk, SizesOk, Has, Remembers;
    var op, ops := |s.ops|, s.ops + [Op(key, Converting)];
    SweepKeepsCache(s.fields, key, now, op);
    SweptIsSafe(s, key, now, op);
    NewOperation(Unexpired(s.fields.cache, now), s.ops, s.waiters, key);
    PendingGains(s.fields.pending, s.ops, key);
    GenuineStays(s.(fields := s.fields.(cache := Unexpired(s.fields.cache, now))), ops);
  }

  lemma HitIsGenuine(s: State, key: Key, now: int)
    requires Safe(s) && RenderOutcome(s.fields, key, now, |s.ops|).Hit?
    ensures FromConversion(s.ops, key, RenderOutcome(s.fields, key, now, |s.ops|).value)
  {
    SweptIsSafe(s, key, now, |s.ops|);
  }

  /** A call that starts nothing only sweeps, and hands out a cached value or joins an operation. */
  lemma OtherCallsAreSafe(s: State, key: Key, dataLength: nat, now: int)
    requires Safe(s) && 0 <= key.page <= 30 && dataLength <= FILE_LIMIT
    requires !RenderOutcome(s.fields, key, now, |s.ops|).Start?
    ensures Safe(Next(s, Call(key, dataLength, now)))
  {
    hide CacheOk, NotYetCached, CacheGenuine, SizesOk, FromConversion, Lookup, Has, Unexpired;
    var outcome := RenderOutcome(s.fields, key, now, |s.ops|);
    SweepKeepsCache(s.fields, key, now, |s.ops|);
    SweptIsSafe(s, key, now, |s.ops|);
    match outcome
    case Hit(value) => HitIsGenuine(s, key, now);
    case Join(active) => assert active < |s.ops| && s.ops[active].key == key;
    case Busy =>
  }

  lemma CallIsSafe(s: State, key: Key, dataLength: nat, now: int)
    requires Safe(s)
    ensures Safe(Next(s, Call(key, dataLength, now)))
  {
    hide Safe;
    if 0 <= key.page <= 30 && dataLength <= FILE_LIMIT {
      if RenderOutcome(s.fields, key, now, |s.ops|).Start? {
        StartIsSafe(s, key, now);
      } else {
        OtherCallsAreSafe(s, key, dataLength, now);
      }
    }
  }

  lemma AnswerIsSafe(s: State, op: OpId, response: Response)
    requires Safe(s)
    ensures Safe(Next(s, Answer(op, response)))
  {
    if op < |s.ops| && s.ops[op].phase.Converting? {
      var phase := match Convert(s.ops[op].key.page, response)
        case Some(value) => Converted(value)
        case None => Failed;
      PhaseMoves(s, op, phase);
      GenuineStays(s, SetPhase(s.ops, op, phase));
      hide CacheOk, PendingOk, CacheGenuine, DeliveriesGenuine, WaitersOk, SizesOk, Has;
    }
  }

  /** After `then`, only the stored key is new in the cache, and its operation counts as stored. */
  lemma StoredKeyOnly(s: State, op: OpId, now: int)
    requires Safe(s) && op < |s.ops| && s.ops[op].phase.Converted?
    ensures var f := StoreFields(s.fields, s.ops[op].key, s.ops[op].phase.value, now);
      NotYetCached(f.cache, SetPhase(s.ops, op, Stored(s.ops[op].phase.value)))
  {
    var key, value := s.ops[op].key, s.ops[op].phase.value;
    var ops := SetPhase(s.ops, op, Stored(value));
    var n := Victims(s.fields.cache, SizeOf(value));
    var stored := Entry(key, value, SizeOf(value), now + LIFETIME);
    StoreKeepsCache(s.fields, key, value, now);
    forall o | 0 <= o < |ops| && Unstored(ops[o])
      ensures !Has(s.fields.cache[n..] + [stored], ops[o].key)
    {
      assert ops[o] == s.ops[o] && s.fields.pending[ops[o].key] == o != op;
      SuffixLacks(s.fields.cache, n, ops[o].key);
    }
  }

  lemma StoredIsGenuine(s: State, op: OpId, now: int)
    requires Safe(s) && op < |s.ops| && s.ops[op].phase.Converted?
    requires Remembers(s.ops, SetPhase(s.ops, op, Stored(s.ops[op].phase.value)))
    ensures var f := StoreFields(s.fields, s.ops[op].key, s.ops[op].phase.value, now);
      CacheGenuine(f.cache, SetPhase(s.ops, op, Stored(s.ops[op].phase.value)))
  {
    var key, value := s.ops[op].key, s.ops[op].phase.value;
    var ops := SetPhase(s.ops, op, Stored(value));
    StoreKeepsCache(s.fields, key, value, now);
    SuffixFacts(s.fields.cache, Victims(s.fields.cache, SizeOf(value)));
    GenuineStays(s, ops);
    assert FromConversion(ops, key, value) by {
      assert ops[op].key == key && Produced(ops[op]) == Some(value);
    }
  }

  lemma ThenIsSafe(s: State, op: OpId, now: int)
    requires Safe(s)
    ensures Safe(Next(s, Then(op, now)))
  {
    if op < |s.ops| && s.ops[op].phase.Converted? {
      var value := s.ops[op].phase.value;
      assert Produced(s.ops[op]) == Some(value);
      PhaseMoves(s, op, Stored(value));
      GenuineStays(s, SetPhase(s.ops, op, Stored(value)));
      StoreKeepsCache(s.fields, s.ops[op].key, value, now);
      StoredKeyOnly(s, op, now);
      StoredIsGenuine(s, op, now);
      hide CacheOk, PendingOk, NotYetCached, CacheGenuine, DeliveriesGenuine, WaitersOk, SizesOk, MapSet;
    }
  }

  lemma SettledNeedsNoPlace(cache: seq<Entry>, ops: seq<Op>, op: OpId, result: Option<Value>)
    requires NotYetCached(cache, ops) && op < |ops|
    ensures NotYetCached(cache, SetPhase(ops, op, Settled(result)))
  {
    hide Has;
  }

  /** The state after the final callback of an operation that has stored its value or failed. */
  lemma FinallyEffect(s: State, op: OpId)
    requires op < |s.ops| && (s.ops[op].phase.Stored? || s.ops[op].phase.Failed?)
    ensures Next(s, Finally(op)) == s.(fields := s.fields.(pending := Released(s.fields.pending, s.ops[op].key)),
                                       ops := SetPhase(s.ops, op, Settled(Produced(s.ops[op]))))
  {
  }

  lemma FinallyIdle(s: State, op: OpId)
    requires !(op < |s.ops| && (s.ops[op].phase.Stored? || s.ops[op].phase.Failed?))
    ensures Next(s, Finally(op)) == s
  {
  }

  /** The final callback frees its own key's place and no other. */
  lemma FinallyFreesPlace(s: State, op: OpId)
    requires Safe(s) && op < |s.ops| && (s.ops[op].phase.Stored? || s.ops[op].phase.Failed?)
    ensures var key, before, after := s.ops[op].key, s.fields.pending, Next(s, Finally(op)).fields.pending;
      && key in before && before[key] == op && key !in after && |after| == |before| - 1
      && forall k :: k != key ==> (k in after <==> k in before) && (k in after ==> after[k] == before[k])
  {
    FinallyEffect(s, op);
    PendingLoses(s.fields.pending, s.ops, op, Produced(s.ops[op]));
    hide Next, CacheOk, NotYetCached, CacheGenuine, DeliveriesGenuine, WaitersOk, SizesOk;
  }

  /** The parts of safety after an operation has settled with what it produced. */
  lemma SettledParts(s: State, op: OpId)
    requires Safe(s) && op < |s.ops| && InFlight(s.ops[op])
    ensures var ops := SetPhase(s.ops, op, Settled(Produced(s.ops[op])));
      && PendingOk(Released(s.fields.pending, s.ops[op].key), ops)
      && NotYetCached(s.fields.cache, ops) && CacheGenuine(s.fields.cache, ops)
      && DeliveriesGenuine(s.delivered, ops) && WaitersOk(s.waiters, ops) && SizesOk(ops)
  {
    hide Released, Remembers, CacheOk, PendingOk, NotYetCached, CacheGenuine;
    hide DeliveriesGenuine, WaitersOk, SizesOk, FromConversion, SetPhase, SizeOf;
    var result := Produced(s.ops[op]);
    if result.Some? {
      ProducedIsSmall(s.ops, op);
    }
    PhaseMoves(s, op, Settled(result));
    GenuineStays(s, SetPhase(s.ops, op, Settled(result)));
    PendingLoses(s.fields.pending, s.ops, op, result);
    SettledNeedsNoPlace(s.fields.cache, s.ops, op, result);
  }

  lemma FinallyIsSafe(s: State, op: OpId)
    requires Safe(s)
    ensures Safe(Next(s, Finally(op)))
  {
    hide Next, Released, CacheOk, PendingOk, NotYetCached, CacheGenuine, DeliveriesGenuine, WaitersOk, SizesOk,
      SetPhase;
    if op < |s.ops| && (s.ops[op].phase.Stored? || s.ops[op].phase.Failed?) {
      FinallyEffect(s, op);
      SettledParts(s, op);
      CacheKeepsPending(s.fields, Released(s.fields.pending, s.ops[op].key));
    } else {
      FinallyIdle(s, op);
    }
  }

  /** What is pending does not matter to the cache. */
  lemma CacheKeepsPending(f: Fields, pending: map<Key, OpId>)
    requires CacheOk(f)
    ensures CacheOk(f.(pending := pending))
  {
  }

  lemma ProducedIsSmall(ops: seq<Op>, op: OpId)
    requires SizesOk(ops) && op < |ops| && Produced(ops[op]).Some?
    ensures SizeOf(Produced(ops[op]).value) <= FILE_LIMIT
  {
  }

  lemma DeliverIsSafe(s: State, w: nat)
    requires Safe(s)
    ensures Safe(Next(s, Deliver(w)))
  {
    hide CacheOk, PendingOk, CacheGenuine, SizesOk, NotYetCached;
    if w < |s.waiters| && s.waiters[w].op < |s.ops| && s.ops[s.waiters[w].op].phase.Settled? {
      var waiter := s.waiters[w];
      assert waiter in s.waiters;
      if s.ops[waiter.op].phase.result.Some? {
        assert Produced(s.ops[waiter.op]) == s.ops[waiter.op].phase.result;
      }
    }
  }

  /**
   Every list of calls, answers, callbacks and deliveries, in any order and with any clock, leaves
   the service safe: the byte count is the size of the cache and stays within the limit, at most
   four keys are pending, each key has at most one conversion in flight, no key is stored twice,
   and every value in the cache or handed to a caller came from a conversion of that caller's key.
   */
  lemma {:induction false} RunIsSafe(events: seq<Event>)
    ensures Safe(Run(events))
  {
    if events != [] {
      var s := Run(events[..|events| - 1]);
      RunIsSafe(events[..|events| - 1]);
      match events[|events| - 1]
      case Call(key, dataLength, now) => CallIsSafe(s, key, dataLength, now);
      case Answer(op, response) => AnswerIsSafe(s, op, response);
      case Then(op, now) => ThenIsSafe(s, op, now);
      case Finally(op) => FinallyIsSafe(s, op);
      case Deliver(w) => DeliverIsSafe(s, w);
    }
  }

  /** Single flight: two operations of one key are never in flight at the same time. */
  lemma {:induction false} SingleFlight(events: seq<Event>, o: OpId, p: OpId)
    requires o < |Run(events).ops| && p < |Run(events).ops|
    requires InFlight(Run(events).ops[o]) && InFlight(Run(events).ops[p])
    requires Run(events).ops[o].key == Run(events).ops[p].key
    ensures o == p
  {
    RunIsSafe(events);
  }

  /** `Store` may always be called: the accounting it relies on holds whenever `then` runs. */
  lemma {:induction false} ThenNeverDoubleStores(events: seq<Event>, op: OpId)
    requires op < |Run(events).ops| && Run(events).ops[op].phase.Converted?
    ensures Run(events).fields.bytes == Total(Run(events).fields.cache)
    ensures !Has(Run(events).fields.cache, Run(events).ops[op].key)
  {
    RunIsSafe(events);
  }

  /** The limits, in numbers. */
  lemma {:induction false} WithinLimits(events: seq<Event>)
    ensures var f := Run(events).fields;
      && f.bytes == Total(f.cache) <= 33_554_432 && |f.pending| <= 4
      && forall e :: e in f.cache ==> e.bytes == if e.value.Image? then |e.value.data| else 64
  {
    RunIsSafe(events);
    hide Run;
  }

  /**
   A call is refused exactly when four other keys are pending and its own is neither cached nor
   pending; in particular a key already being converted is never refused.
   */
  lemma {:induction false} RefusedOnlyWhenFull(events: seq<Event>, key: Key, now: int, op: OpId)
    ensures RenderOutcome(Run(events).fields, key, now, op).Busy?
        <==> |Run(events).fields.pending| == 4 && key !in Run(events).fields.pending
             && !Has(Unexpired(Run(events).fields.cache, now), key)
  {
    RunIsSafe(events);
  }

  /** A value handed out from the cache is that key's, and has not expired at the time of the call. */
  lemma HitsAreFresh(f: Fields, key: Key, now: int, op: OpId)
    requires RenderOutcome(f, key, now, op).Hit?
    ensures exists e :: e in f.cache && e.key == key && e.expires >= now
                        && RenderOutcome(f, key, now, op) == Hit(e.value)
  {
    UnexpiredMembers(f.cache, now);
    var e := Lookup(Unexpired(f.cache, now), key).value;
    assert e in f.cache && e.key == key && e.expires >= now;
  }

  // ---- What callers get ----

  /** Some answer among the events carries this value, for an operation of this key. */
  predicate Answered(events: seq<Event>, ops: seq<Op>, key: Key, value: Value) {
    exists k :: 0 <= k < |events| && events[k].Answer? && events[k].op < |ops| && ops[events[k].op].key == key
      && Carries(events[k].response, key.page, value)
  }

  lemma AnsweredStays(events: seq<Event>, e: Event, before: seq<Op>, after: seq<Op>, key: Key, value: Value)
    requires Answered(events, before, key, value) && Remembers(before, after)
    ensures Answered(events + [e], after, key, value)
  {
    var k :| 0 <= k < |events| && events[k].Answer? && events[k].op < |before| && before[events[k].op].key == key
      && Carries(events[k].response, key.page, value);
    assert (events + [e])[k] == events[k];
  }

  /** Operations keep their keys, and an operation that newly has a value was just answered with it. */
  lemma ProducedByAnswer(s: State, e: Event)
    ensures Remembers(s.ops, Next(s, e).ops)
    ensures forall o :: 0 <= o < |Next(s, e).ops| && Produced(Next(s, e).ops[o]).Some? ==>
      (o < |s.ops| && Produced(s.ops[o]) == Produced(Next(s, e).ops[o]))
      || (e.Answer? && e.op == o && Convert(Next(s, e).ops[o].key.page, e.response) == Produced(Next(s, e).ops[o]))
  {
    hide RenderFields, RenderOutcome, StoreFields, Released, Convert;
  }

  /** Every value an operation has was carried by an answer for an operation of its key. */
  lemma {:induction false} ProducedWasAnswered(events: seq<Event>, o: OpId)
    requires o < |Run(events).ops| && Produced(Run(events).ops[o]).Some?
    ensures Answered(events, Run(events).ops, Run(events).ops[o].key, Produced(Run(events).ops[o]).value)
  {
    var init, last := events[..|events| - 1], events[|events| - 1];
    var s, s' := Run(init), Run(events);
    hide Next, Run, Carries, Answered, Remembers;
    ProducedByAnswer(s, last);
    assert events == init + [last];
    if o < |s.ops| && Produced(s.ops[o]) == Produced(s'.ops[o]) {
      ProducedWasAnswered(init, o);
      KeyStays(s.ops, s'.ops, o);
      AnsweredStays(init, last, s.ops, s'.ops, s'.ops[o].key, Produced(s'.ops[o]).value);
    } else {
      ConvertExactly(s'.ops[o].key.page, last.response, Produced(s'.ops[o]).value);
      LastAnswers(events, s'.ops, s'.ops[o].key, Produced(s'.ops[o]).value);
    }
  }

  lemma KeyStays(before: seq<Op>, after: seq<Op>, o: OpId)
    requires Remembers(before, after) && o < |before|
    ensures o < |after| && after[o].key == before[o].key
  {
  }

  lemma LastAnswers(events: seq<Event>, ops: seq<Op>, key: Key, value: Value)
    requires events != [] && events[|events| - 1].Answer? && events[|events| - 1].op < |ops|
    requires ops[events[|events| - 1].op].key == key && Carries(events[|events| - 1].response, key.page, value)
    ensures Answered(events, ops, key, value)
  {
    var k := |events| - 1;
    assert 0 <= k < |events| && events[k].Answer?;
  }

  /** What the cache holds and what callers were given is what the renderer answered for that key. */
  lemma {:induction false} DeliveriesWereAnswered(events: seq<Event>)
    ensures forall d :: d in Run(events).delivered ==> Answered(events, Run(events).ops, d.key, d.value)
    ensures forall e :: e in Run(events).fields.cache ==> Answered(events, Run(events).ops, e.key, e.value)
  {
    RunIsSafe(events);
    var s := Run(events);
    hide Run, Answered, Carries, CacheOk, PendingOk, NotYetCached, WaitersOk, SizesOk;
    forall key, value | FromConversion(s.ops, key, value)
      ensures Answered(events, s.ops, key, value)
    {
      var o :| 0 <= o < |s.ops| && s.ops[o].key == key && Produced(s.ops[o]) == Some(value);
      ProducedWasAnswered(events, o);
    }
  }

  /** A stored value is handed out again for five minutes and no longer. */
  lemma StoredIsServed(f: Fields, key: Key, value: Value, now: int, later: int, op: OpId)
    requires CacheOk(f) && !Has(f.cache, key) && SizeOf(value) <= FILE_LIMIT
    ensures RenderOutcome(StoreFields(f, key, value, now), key, later, op) == Hit(value) <==> later <= now + 300_000
    ensures RenderOutcome(StoreFields(f, key, value, now), key, later, op).Hit? ==> later <= now + 300_000
  {
    var f' := StoreFields(f, key, value, now);
    var e := Entry(key, value, SizeOf(value), now + LIFETIME);
    StoreKeepsCache(f, key, value, now);
    UnexpiredMembers(f'.cache, later);
    hide StoreFields;
    assert f'.cache[|f'.cache| - 1] == e;
    forall x | x in f'.cache && x.key == key
      ensures x == e
    {
      var i :| 0 <= i < |f'.cache| && f'.cache[i] == x;
    }
    if later <= now + LIFETIME {
      InCache(Unexpired(f'.cache, later), e);
    }
  }

  /** The events of one undisturbed request. */
  function Request(s: State, key: Key, dataLength: nat, now: int, response: Response, done: int): seq<Event> {
    [Call(key, dataLength, now), Answer(|s.ops|, response), Then(|s.ops|, done), Finally(|s.ops|), Deliver(|s.waiters|)]
  }

  function RunFrom(s: State, events: seq<Event>): State {
    if events == [] then s else Next(RunFrom(s, events[..|events| - 1]), events[|events| - 1])
  }

  lemma {:induction false} FiveEvents(s: State, a: Event, b: Event, c: Event, d: Event, e: Event)
    ensures RunFrom(s, [a, b, c, d, e]) == Next(Next(Next(Next(Next(s, a), b), c), d), e)
  {
    hide Next;
    assert [a, b, c, d, e][..4] == [a, b, c, d] && [a, b, c, d][..3] == [a, b, c] && [a, b, c][..2] == [a, b];
    assert [a, b][..1] == [a] && [a][..0] == [];
    assert RunFrom(s, [a]) == Next(s, a);
    assert RunFrom(s, [a, b]) == Next(RunFrom(s, [a]), b);
    assert RunFrom(s, [a, b, c]) == Next(RunFrom(s, [a, b]), c);
    assert RunFrom(s, [a, b, c, d]) == Next(RunFrom(s, [a, b, c]), d);
  }

  /** There is room for a conversion of this key, and neither a fresh entry nor another conversion. */
  predicate StartsAt(s: State, key: Key, dataLength: nat, now: int) {
    && 0 <= key.page <= 30 && dataLength <= 10_485_760
    && !Has(Unexpired(s.fields.cache, now), key) && key !in s.fields.pending && |s.fields.pending| < 4
  }

  /** The state after the call and the answer. */
  lemma {:induction false} AnsweredState(s: State, key: Key, dataLength: nat, now: int, response: Response)
    requires StartsAt(s, key, dataLength, now)
    ensures var op := |s.ops|;
      var fields := Fields(Unexpired(s.fields.cache, now), s.fields.pending[key := op],
        s.fields.bytes - (Total(s.fields.cache) - Total(Unexpired(s.fields.cache, now))));
      var phase := match Convert(key.page, response) case Some(v) => Converted(v) case None => Failed;
      Next(Next(s, Call(key, dataLength, now)), Answer(op, response))
        == State(fields, s.ops + [Op(key, phase)], s.waiters + [Waiter(key, op)], s.delivered)
  {
    hide Convert, Unexpired, Has;
    var op := |s.ops|;
    var called := Next(s, Call(key, dataLength, now));
    assert called.ops == s.ops + [Op(key, Converting)];
    assert called.ops[op := Op(key, Failed)] == s.ops + [Op(key, Failed)];
    forall v: Value
      ensures called.ops[op := Op(key, Converted(v))] == s.ops + [Op(key, Converted(v))]
    {
    }
  }

  /** After the callbacks and the delivery the caller has the value, and the key's place is free again. */
  lemma StoredState(s: State, ops: seq<Op>, waiters: seq<Waiter>, key: Key, value: Value, done: int)
    requires s.ops == ops + [Op(key, Converted(value))] && s.waiters == waiters + [Waiter(key, |ops|)]
    ensures var end := Next(Next(Next(s, Then(|ops|, done)), Finally(|ops|)), Deliver(|waiters|));
      && end.delivered == s.delivered + [Delivery(key, value)]
      && end.fields == StoreFields(s.fields, key, value, done).(pending := s.fields.pending - {key})
  {
    hide StoreFields;
    var op := |ops|;
    var stored := Next(s, Then(op, done));
    assert stored.ops[op] == Op(key, Stored(value));
    var settled := Next(stored, Finally(op));
    assert settled.ops[op] == Op(key, Settled(Some(value))) && settled.waiters[|waiters|] == Waiter(key, op);
    PendingUntouched(s.fields, key, value, done);
  }

  lemma PendingUntouched(f: Fields, key: Key, value: Value, done: int)
    ensures StoreFields(f, key, value, done).pending == f.pending
  {
  }

  lemma FailedState(s: State, ops: seq<Op>, waiters: seq<Waiter>, key: Key, done: int)
    requires s.ops == ops + [Op(key, Failed)] && s.waiters == waiters + [Waiter(key, |ops|)]
    ensures var end := Next(Next(Next(s, Then(|ops|, done)), Finally(|ops|)), Deliver(|waiters|));
      end.delivered == s.delivered && end.fields == s.fields.(pending := s.fields.pending - {key})
  {
    var op := |ops|;
    assert Next(s, Then(op, done)) == s;
    var settled := Next(s, Finally(op));
    assert settled.ops[op] == Op(key, Settled(None)) && settled.waiters[|waiters|] == Waiter(key, op);
  }

  lemma {:induction false} RequestState(s: State, key: Key, dataLength: nat, now: int, response: Response, done: int)
    ensures var op, w := |s.ops|, |s.waiters|;
      RunFrom(s, Request(s, key, dataLength, now, response, done))
        == Next(Next(Next(Next(Next(s,
             Call(key, dataLength, now)), Answer(op, response)), Then(op, done)), Finally(op)), Deliver(w))
  {
    hide Next, RunFrom;
    FiveEvents(s, Call(key, dataLength, now), Answer(|s.ops|, response), Then(|s.ops|, done), Finally(|s.ops|),
      Deliver(|s.waiters|));
  }

  /** One undisturbed request whose answer carries a value: its caller gets it, and the key's place is free again. */
  lemma {:induction false} RequestIsServed(s: State, key: Key, dataLength: nat, now: int, response: Response,
      done: int, value: Value)
    requires StartsAt(s, key, dataLength, now) && Carries(response, key.page, value)
    ensures var end := RunFrom(s, Request(s, key, dataLength, now, response, done));
      && end.delivered == s.delivered + [Delivery(key, value)] && end.fields.pending == s.fields.pending
  {
    hide Next, RunFrom, Carries, Has, StoreFields, Convert, Unexpired, Total;
    RequestState(s, key, dataLength, now, response, done);
    AnsweredState(s, key, dataLength, now, response);
    ConvertExactly(key.page, response, value);
    var answered := Next(Next(s, Call(key, dataLength, now)), Answer(|s.ops|, response));
    StoredState(answered, s.ops, s.waiters, key, value, done);
    assert s.fields.pending[key := |s.ops|] - {key} == s.fields.pending;
  }

  /** With any other answer its caller gets nothing, nothing is cached, and the place is free as well. */
  lemma {:induction false} RequestFails(s: State, key: Key, dataLength: nat, now: int, response: Response, done: int)
    requires StartsAt(s, key, dataLength, now) && forall v :: !Carries(response, key.page, v)
    ensures var end := RunFrom(s, Request(s, key, dataLength, now, response, done));
      && end.delivered == s.delivered && end.fields.pending == s.fields.pending
      && end.fields.cache == Unexpired(s.fields.cache, now)
  {
    hide Next, RunFrom, Carries, Has, Convert, Unexpired, Total;
    RequestState(s, key, dataLength, now, response, done);
    AnsweredState(s, key, dataLength, now, response);
    if Convert(key.page, response).Some? {
      ConvertExactly(key.page, response, Convert(key.page, response).value);
    }
    var answered := Next(Next(s, Call(key, dataLength, now)), Answer(|s.ops|, response));
    FailedState(answered, s.ops, s.waiters, key, done);
    assert s.fields.pending[key := |s.ops|] - {key} == s.fields.pending;
  }
}
